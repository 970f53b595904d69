/** Deciding whether a patched file's cached data can be reused.

    For every file the patch tree overrides, `createPatchInfo` either reuses the
    cached patch information, rebuilds it, or halts the program (`die`) because
    the source changed under a patch. Cache and version-file reads, file stats
    and the lexer's output are inputs here; file writes are outputs. */
module PatchInfo {
  import opened PhpValues
  import opened Tokens
  import opened Scanner
  import opened Compositor
  import opened Versions

  /** The information array kept in the cache and serialised into the version file. */
  datatype PatchRecord = PatchRecord(
    patchedFile: string, srcVersion: VersionInfo, patchVersion: VersionInfo,
    patchedVersion: VersionInfo, replacedFunctions: Assoc<string>)

  /** What reading the version file gives: no file, a file that does not
      unserialise to a non-empty array, or the record written earlier. */
  datatype VersionFile = NoVersionFile | Unreadable | Record(rec: PatchRecord)

  /** Indexing `false` yields null, and null compares loosely equal to 0 and to "",
      so an unreadable record reads as the fingerprints of a missing file. */
  const NullRecord := PatchRecord("", NoVersion, NoVersion, NoVersion, Empty())

  /** An entry of `filesToPatch`. */
  datatype PatchEntry = PatchEntry(file: string, fullname: string, info: PatchRecord, fullReplacable: bool)

  /** The outcome of `createPatchInfo`; the last two are the `die` calls. */
  datatype Decision =
    | CacheHit
    | Recompute
    | HaltFullReplaceable
    | HaltChangedFunctions(names: seq<string>)

  /** `file_exists($f) && !isFileVersionInfoChanged($f, $v, false, ...)` */
  function Fresh(stat: FileStat, v: VersionInfo): bool {
    !IsFileVersionInfoChanged(stat, v, false).changed
  }

  /** The cached data may be reused once the source is known unchanged: the patch
      and the patched file are unchanged and the last check asked for no update. */
  function HitCondition(rec: PatchRecord, patchStat: FileStat, patchedStat: FileStat): bool {
    && Fresh(patchStat, rec.patchVersion)
    && Fresh(patchedStat, rec.patchedVersion)
    && !IsFileVersionInfoChanged(patchedStat, rec.patchedVersion, false).needUpdate
  }

  /** A replaced function counts as changed when the cached set lacks it or holds other code. */
  function IsChanged(oldFunctions: Assoc<string>, name: string, code: string): bool {
    name !in oldFunctions.values || oldFunctions.values[name] != code
  }

  /** The changed functions among the first n keys of `newFunctions`, in key order. */
  function ChangedAmong(oldFunctions: Assoc<string>, newFunctions: Assoc<string>, n: nat): seq<string>
    requires newFunctions.Valid() && n <= |newFunctions.keys|
  {
    if n == 0 then []
    else
      var name := newFunctions.keys[n - 1];
      ChangedAmong(oldFunctions, newFunctions, n - 1)
        + (if IsChanged(oldFunctions, name, newFunctions.values[name]) then [name] else [])
  }

  /** The changed functions of `newFunctions`, in key order. */
  function ChangedNames(oldFunctions: Assoc<string>, newFunctions: Assoc<string>): seq<string>
    requires newFunctions.Valid()
  {
    ChangedAmong(oldFunctions, newFunctions, |newFunctions.keys|)
  }

  /** The replaced functions of the patched form of the current files. */
  function FreshFunctions(srcRaw: seq<RawLexeme>, patchRaw: seq<RawLexeme>): (r: Assoc<string>)
    ensures r.Valid()
  {
    ComposeSpec(ParseSpec(srcRaw), ParseSpec(patchRaw)).replacedFunctions
  }

  /** The decision of `createPatchInfo` for a file.
      `cached`: the cache read succeeded; the stats are those of the source file,
      the patch file and the patched copy at the cache path. */
  function Decide(full: bool, cached: bool, versions: VersionFile,
                  srcStat: FileStat, patchStat: FileStat, patchedStat: FileStat,
                  srcRaw: seq<RawLexeme>, patchRaw: seq<RawLexeme>): Decision
  {
    if !cached then Recompute
    else if !full then
      if !versions.Record? then Recompute
      else if !Fresh(srcStat, versions.rec.srcVersion) then
        var names := ChangedNames(versions.rec.replacedFunctions, FreshFunctions(srcRaw, patchRaw));
        if names != [] then HaltChangedFunctions(names) else Recompute
      else if HitCondition(versions.rec, patchStat, patchedStat) then CacheHit
      else Recompute
    else
      if versions.NoVersionFile? then Recompute
      else
        var rec := if versions.Record? then versions.rec else NullRecord;
        if !Fresh(srcStat, rec.srcVersion) then HaltFullReplaceable
        else if HitCondition(rec, patchStat, patchedStat) then CacheHit
        else Recompute
  }

  /** The record a recomputation writes to the version file and the cache.
      `writtenStat` is the stat of the patched copy after it was written. */
  function Recomputed(full: bool, baseFile: string, patchFile: string, cachedPatchedFile: string,
                      srcStat: FileStat, patchStat: FileStat, writtenStat: FileStat,
                      replaced: Assoc<string>): PatchRecord
  {
    if !full then
      PatchRecord(cachedPatchedFile, GetFileVersionInfo(baseFile, srcStat), GetFileVersionInfo(patchFile, patchStat),
                  GetFileVersionInfo(cachedPatchedFile, writtenStat), replaced)
    else
      PatchRecord(patchFile, GetFileVersionInfo(baseFile, srcStat), GetFileVersionInfo(patchFile, patchStat),
                  GetFileVersionInfo(patchFile, patchStat), Empty())
  }

  /** `str_replace("/", "|", $s)` */
  function SlashesToBars(s: string): (r: string)
    ensures |r| == |s|
    ensures forall i :: 0 <= i < |s| ==> r[i] == if s[i] == '/' then '|' else s[i]
  {
    if s == [] then [] else SlashesToBars(s[..|s| - 1]) + [if s[|s| - 1] == '/' then '|' else s[|s| - 1]]
  }

  /** Does the pattern `#.X$#` match `subject`, for the literal text X? Some
      character other than a newline, then X, at the end of the subject or just
      before a final newline. */
  predicate PatternMatches(x: string, subject: string) {
    exists i :: 1 <= i <= |subject| && subject[i - 1] != '\n'
      && (subject[i..] == x || subject[i..] == x + "\n")
  }

  /** One call of the staleness test the way `createPatchInfo` writes it: the
      test runs only when the file exists, and only then is `needUpdate` overwritten. */
  method CheckFile(stat: FileStat, v: VersionInfo, needUpdate0: bool) returns (ok: bool, needUpdate: bool)
    ensures ok == Fresh(stat, v)
    ensures needUpdate == if stat.Present? then IsFileVersionInfoChanged(stat, v, false).needUpdate else needUpdate0
  {
    ok, needUpdate := false, needUpdate0;
    if stat.Present? {
      var check := IsFileVersionInfoChanged(stat, v, false);
      ok, needUpdate := !check.changed, check.needUpdate;
    }
  }

  /** The cache check of `createPatchInfo`, the way it threads `$needUpdate`
      through the staleness tests and recomposes a changed source to compare its
      replaced functions with the cached ones. */
  method CheckCache(full: bool, cached: bool, versions: VersionFile,
                    srcStat: FileStat, patchStat: FileStat, patchedStat: FileStat,
                    srcRaw: seq<RawLexeme>, patchRaw: seq<RawLexeme>) returns (d: Decision)
    ensures d == Decide(full, cached, versions, srcStat, patchStat, patchedStat, srcRaw, patchRaw)
  {
    d := Recompute;
    var needUpdate := false;
    if cached {
      if !full {
        if versions.Record? {
          var srcOk;
          srcOk, needUpdate := CheckFile(srcStat, versions.rec.srcVersion, needUpdate);
          if !srcOk {
            var src := ParsePhp(srcRaw);
            var patch := ParsePhp(patchRaw);
            var patchedFileInfo := ConstructPatchedFileData(src, patch);
            var changed := ChangedFunctionNames(versions.rec.replacedFunctions, patchedFileInfo.replacedFunctions);
            if changed != [] {
              d := HaltChangedFunctions(changed);
            }
          } else {
            var patchOk, patchedOk;
            patchOk, needUpdate := CheckFile(patchStat, versions.rec.patchVersion, needUpdate);
            patchedOk, needUpdate := CheckFile(patchedStat, versions.rec.patchedVersion, needUpdate);
            if patchOk && patchedOk && !needUpdate {
              d := CacheHit;
            }
          }
        }
      } else if !versions.NoVersionFile? {
        var rec := if versions.Record? then versions.rec else NullRecord;
        var srcOk;
        srcOk, needUpdate := CheckFile(srcStat, rec.srcVersion, needUpdate);
        if !srcOk {
          d := HaltFullReplaceable;
        } else {
          var patchOk, patchedOk;
          patchOk, needUpdate := CheckFile(patchStat, rec.patchVersion, needUpdate);
          patchedOk, needUpdate := CheckFile(patchedStat, rec.patchedVersion, needUpdate);
          if patchOk && patchedOk && !needUpdate {
            d := CacheHit;
          }
        }
      }
    }
  }

  /** The loop over the freshly replaced functions that collects the changed ones. */
  method ChangedFunctionNames(oldFunctions: Assoc<string>, newFunctions: Assoc<string>)
    returns (changed: seq<string>)
    requires newFunctions.Valid()
    ensures forall name :: name in changed <==>
      name in newFunctions.values && IsChanged(oldFunctions, name, newFunctions.values[name])
    ensures changed == ChangedNames(oldFunctions, newFunctions)
  {
    changed := [];
    var i := 0;
    while i < |newFunctions.keys|
      invariant 0 <= i <= |newFunctions.keys|
      invariant changed == ChangedAmong(oldFunctions, newFunctions, i)
    {
      var name := newFunctions.keys[i];
      var code := newFunctions.values[name];
      if IsChanged(oldFunctions, name, code) {
        changed := changed + [name];
      }
      i := i + 1;
    }
    ChangedNamesMeans(oldFunctions, newFunctions);
  }

  /** The keys among the first n are the keys of the prefix of length n. */
  lemma {:induction false} ChangedAmongMeans(oldFunctions: Assoc<string>, newFunctions: Assoc<string>, n: nat)
    requires newFunctions.Valid() && n <= |newFunctions.keys|
    ensures forall name :: name in ChangedAmong(oldFunctions, newFunctions, n) <==>
      name in newFunctions.keys[..n] && IsChanged(oldFunctions, name, newFunctions.values[name])
  {
    if n > 0 {
      ChangedAmongMeans(oldFunctions, newFunctions, n - 1);
      assert newFunctions.keys[..n] == newFunctions.keys[..n - 1] + [newFunctions.keys[n - 1]];
    }
  }

  /** A name is reported exactly when the fresh set has it and the cached set
      lacks it or holds other code; names only the cached set has are never reported. */
  lemma {:induction false} ChangedNamesMeans(oldFunctions: Assoc<string>, newFunctions: Assoc<string>)
    requires newFunctions.Valid()
    ensures forall name :: name in ChangedNames(oldFunctions, newFunctions) <==>
      name in newFunctions.values && IsChanged(oldFunctions, name, newFunctions.values[name])
  {
    ChangedAmongMeans(oldFunctions, newFunctions, |newFunctions.keys|);
    assert newFunctions.keys[..|newFunctions.keys|] == newFunctions.keys;
  }

  /** Each changed function is reported once. */
  lemma {:induction false} ChangedAmongDistinct(oldFunctions: Assoc<string>, newFunctions: Assoc<string>, n: nat)
    requires newFunctions.Valid() && n <= |newFunctions.keys|
    ensures Distinct(ChangedAmong(oldFunctions, newFunctions, n))
  {
    if n > 0 {
      var rest := ChangedAmong(oldFunctions, newFunctions, n - 1);
      var name := newFunctions.keys[n - 1];
      ChangedAmongDistinct(oldFunctions, newFunctions, n - 1);
      ChangedAmongMeans(oldFunctions, newFunctions, n - 1);
      if IsChanged(oldFunctions, name, newFunctions.values[name]) {
        KeysDistinct(newFunctions.keys, n - 1);
        assert (rest + [name])[..|rest|] == rest;
      } else {
        assert rest + [] == rest;
      }
    }
  }

  /** In a list of distinct keys the key at position n is not among those before it. */
  lemma {:induction false} KeysDistinct(keys: seq<string>, n: nat)
    requires Distinct(keys) && n < |keys|
    ensures keys[n] !in keys[..n]
    decreases |keys|
  {
    if n < |keys| - 1 {
      assert keys[..|keys| - 1][..n] == keys[..n];
      KeysDistinct(keys[..|keys| - 1], n);
    }
  }

  /** No change among the first n keys means no name is reported. */
  lemma {:induction false} ChangedAmongEmpty(oldFunctions: Assoc<string>, newFunctions: Assoc<string>, n: nat)
    requires newFunctions.Valid() && n <= |newFunctions.keys|
    requires forall i :: 0 <= i < n ==>
      !IsChanged(oldFunctions, newFunctions.keys[i], newFunctions.values[newFunctions.keys[i]])
    ensures ChangedAmong(oldFunctions, newFunctions, n) == []
  {
    if n > 0 {
      ChangedAmongEmpty(oldFunctions, newFunctions, n - 1);
    }
  }

  /** Without a usable cache entry the data is rebuilt, whatever changed: no halt. */
  lemma CacheMissRecomputes(full: bool, versions: VersionFile, srcStat: FileStat, patchStat: FileStat,
                            patchedStat: FileStat, srcRaw: seq<RawLexeme>, patchRaw: seq<RawLexeme>)
    ensures Decide(full, false, versions, srcStat, patchStat, patchedStat, srcRaw, patchRaw) == Recompute
  {
  }

  /** The cached data is reused exactly when the cache read succeeded, a version
      record is present (for a fully replaceable file an unreadable one reads as
      `NullRecord`), the source file is unchanged and the hit condition holds. */
  lemma HitMeans(full: bool, cached: bool, versions: VersionFile, srcStat: FileStat, patchStat: FileStat,
                 patchedStat: FileStat, srcRaw: seq<RawLexeme>, patchRaw: seq<RawLexeme>)
    ensures var rec := if versions.Record? then versions.rec else NullRecord;
      Decide(full, cached, versions, srcStat, patchStat, patchedStat, srcRaw, patchRaw) == CacheHit
      <==> && cached
           && (versions.Record? || (full && versions.Unreadable?))
           && Fresh(srcStat, rec.srcVersion)
           && HitCondition(rec, patchStat, patchedStat)
  {
  }

  /** A reused entry has every file present, with its recorded size, and the
      patched copy with its recorded change time. */
  lemma HitFiles(rec: PatchRecord, patchStat: FileStat, patchedStat: FileStat)
    requires HitCondition(rec, patchStat, patchedStat)
    ensures patchStat.Present? && patchStat.size == rec.patchVersion.size
    ensures patchedStat.Present? && patchedStat.size == rec.patchedVersion.size
    ensures patchedStat.ctime == rec.patchedVersion.timestamp
  {
    UnchangedMeans(patchStat, rec.patchVersion, false);
    NeedUpdateMeans(patchedStat, rec.patchedVersion, false);
  }

  /** Only the patched-copy check's update request matters: the requests of the
      source check and the patch check are overwritten by the checks after them.
      A source file and a patch file whose change times moved while their sizes
      and md5 sums stayed are still reused from a readable cache entry, and no
      fingerprint is refreshed for them. */
  lemma SourceTouchIgnored(rec: PatchRecord, size: int, ctime: int, patchCtime: int,
                           patchedFile: string, patchedStat: FileStat, srcRaw: seq<RawLexeme>, patchRaw: seq<RawLexeme>)
    requires rec.srcVersion.size == size && rec.srcVersion.timestamp != ctime
    requires rec.patchVersion.timestamp != patchCtime
    requires patchedStat.Present? && rec.patchedVersion == GetFileVersionInfo(patchedFile, patchedStat)
    ensures var srcStat := Present(size, ctime, rec.srcVersion.md5);
      var patchStat := Present(rec.patchVersion.size, patchCtime, rec.patchVersion.md5);
      && IsFileVersionInfoChanged(srcStat, rec.srcVersion, false).needUpdate
      && IsFileVersionInfoChanged(patchStat, rec.patchVersion, false).needUpdate
      && Decide(false, true, Record(rec), srcStat, patchStat, patchedStat, srcRaw, patchRaw) == CacheHit
  {
    FreshIsUnchanged(patchedFile, patchedStat, false);
  }

  /** A fully replaceable file whose source changed halts, when the cache read
      succeeded and a version file exists; a fully replaceable file never halts otherwise. */
  lemma FullHaltMeans(cached: bool, versions: VersionFile, srcStat: FileStat, patchStat: FileStat,
                      patchedStat: FileStat, srcRaw: seq<RawLexeme>, patchRaw: seq<RawLexeme>)
    ensures var rec := if versions.Record? then versions.rec else NullRecord;
      Decide(true, cached, versions, srcStat, patchStat, patchedStat, srcRaw, patchRaw) == HaltFullReplaceable
      <==> cached && !versions.NoVersionFile? && !Fresh(srcStat, rec.srcVersion)
    ensures !Decide(true, cached, versions, srcStat, patchStat, patchedStat, srcRaw, patchRaw).HaltChangedFunctions?
  {
  }

  /** A method-level patch halts exactly when its source changed and some freshly
      replaced function is new or carries other code than the cached one; the
      names reported are exactly those functions, each once. */
  lemma {:induction false} ChangedHaltMeans(cached: bool, versions: VersionFile, srcStat: FileStat,
                                            patchStat: FileStat, patchedStat: FileStat,
                                            srcRaw: seq<RawLexeme>, patchRaw: seq<RawLexeme>)
    ensures var d := Decide(false, cached, versions, srcStat, patchStat, patchedStat, srcRaw, patchRaw);
      d != HaltFullReplaceable
    ensures var d := Decide(false, cached, versions, srcStat, patchStat, patchedStat, srcRaw, patchRaw);
      var current := FreshFunctions(srcRaw, patchRaw);
      d.HaltChangedFunctions? <==>
        && cached && versions.Record? && !Fresh(srcStat, versions.rec.srcVersion)
        && exists name :: name in current.values && IsChanged(versions.rec.replacedFunctions, name, current.values[name])
    ensures var d := Decide(false, cached, versions, srcStat, patchStat, patchedStat, srcRaw, patchRaw);
      var current := FreshFunctions(srcRaw, patchRaw);
      d.HaltChangedFunctions? ==>
        && Distinct(d.names)
        && forall name :: name in d.names <==>
             name in current.values && IsChanged(versions.rec.replacedFunctions, name, current.values[name])
  {
    if cached && versions.Record? && !Fresh(srcStat, versions.rec.srcVersion) {
      var current := FreshFunctions(srcRaw, patchRaw);
      var oldFunctions := versions.rec.replacedFunctions;
      var names := ChangedNames(oldFunctions, current);
      assert Decide(false, cached, versions, srcStat, patchStat, patchedStat, srcRaw, patchRaw)
          == if names != [] then HaltChangedFunctions(names) else Recompute;
      ChangedNamesMeans(oldFunctions, current);
      ChangedAmongDistinct(oldFunctions, current, |current.keys|);
      if names != [] {
        assert names[0] in names;
      }
    }
  }

  /** A method-level patch whose source changed while every replaced function kept
      its code is rebuilt, never reused. */
  lemma {:induction false} SameFunctionsRecompute(rec: PatchRecord, srcStat: FileStat, patchStat: FileStat,
                                                  patchedStat: FileStat, srcRaw: seq<RawLexeme>, patchRaw: seq<RawLexeme>)
    requires !Fresh(srcStat, rec.srcVersion)
    requires var current := FreshFunctions(srcRaw, patchRaw);
      forall name :: name in current.values ==>
        name in rec.replacedFunctions.values && rec.replacedFunctions.values[name] == current.values[name]
    ensures Decide(false, true, Record(rec), srcStat, patchStat, patchedStat, srcRaw, patchRaw) == Recompute
  {
    var current := FreshFunctions(srcRaw, patchRaw);
    ChangedAmongEmpty(rec.replacedFunctions, current, |current.keys|);
  }

  /** A fully replaceable file is reused only when a copy exists at the cache path
      for patched files, although its record fingerprints the patch file itself. */
  lemma FullHitNeedsCacheCopy(cached: bool, versions: VersionFile, srcStat: FileStat, patchStat: FileStat,
                              srcRaw: seq<RawLexeme>, patchRaw: seq<RawLexeme>,
                              baseFile: string, patchFile: string, cachedPatchedFile: string, writtenStat: FileStat)
    ensures Decide(true, cached, versions, srcStat, patchStat, Missing, srcRaw, patchRaw) != CacheHit
    ensures var rec := Recomputed(true, baseFile, patchFile, cachedPatchedFile, srcStat, patchStat, writtenStat, Empty());
      rec.patchedFile == patchFile && rec.patchedVersion == rec.patchVersion
  {
  }

  /** A record just written for an existing source and patch is reused by the
      next call while the files stay as they are. For a partly patched file the
      patched copy written at the cache path is the one fingerprinted. A fully
      replaceable file's record fingerprints the patch file as its patched file,
      but the test reads the cache path, where nothing is written for it: the
      record is reused exactly when a file with the patch's size and change time
      sits there. */
  lemma {:induction false} RecomputedIsReused(full: bool, baseFile: string, patchFile: string, cachedPatchedFile: string,
                                              srcStat: FileStat, patchStat: FileStat, writtenStat: FileStat,
                                              copyStat: FileStat, replaced: Assoc<string>,
                                              srcRaw: seq<RawLexeme>, patchRaw: seq<RawLexeme>)
    requires srcStat.Present? && patchStat.Present? && writtenStat.Present?
    ensures !full ==>
      var rec := Recomputed(false, baseFile, patchFile, cachedPatchedFile, srcStat, patchStat, writtenStat, replaced);
      Decide(false, true, Record(rec), srcStat, patchStat, writtenStat, srcRaw, patchRaw) == CacheHit
    ensures full ==>
      var rec := Recomputed(true, baseFile, patchFile, cachedPatchedFile, srcStat, patchStat, writtenStat, replaced);
      var hit := Decide(true, true, Record(rec), srcStat, patchStat, copyStat, srcRaw, patchRaw) == CacheHit;
      hit <==> copyStat.Present? && copyStat.size == patchStat.size && copyStat.ctime == patchStat.ctime
  {
    FreshIsUnchanged(baseFile, srcStat, false);
    FreshIsUnchanged(patchFile, patchStat, false);
    FreshIsUnchanged(cachedPatchedFile, writtenStat, false);
    UnchangedMeans(copyStat, GetFileVersionInfo(patchFile, patchStat), false);
    NeedUpdateMeans(copyStat, GetFileVersionInfo(patchFile, patchStat), false);
  }

  /** The dot of `#.html$#` is not literal: "xhtml" is fully replaceable, and so is
      "a.html" followed by a newline. */
  lemma PatternExamples()
    ensures PatternMatches("html", "a.html")
    ensures PatternMatches("html", "xhtml")
    ensures PatternMatches("html", "a.html\n")
    ensures !PatternMatches("html", "html")
  {
    assert "a.html"[2..] == "html";
    assert "xhtml"[1..] == "html";
    assert "a.html\n"[2..] == "html" + "\n";
    forall i | 1 <= i <= |"html"|
      ensures "html"[i..] != "html" && "html"[i..] != "html" + "\n"
    {
      assert |"html"[i..]| < 4;
    }
  }

  /** The patcher's state: its paths and the two arrays it fills while running. */
  class MonkeyPatching {
    /** The directory of the patcher's own source file: the cache directory's parent. */
    const moduleDir: string
    var basePath: string
    var patchPath: string
    var cachePath: string
    /** Each pattern `#.X$#` as its literal text X. */
    var fullReplacePatterns: seq<string>
    var filesToPatch: Assoc<PatchEntry>
    var filesExamined: Assoc<bool>

    /** The object as it stands once the paths are resolved. */
    constructor(moduleDir: string, basePath: string, patchPath: string, cachePath: string)
      ensures this.moduleDir == moduleDir && this.basePath == basePath
      ensures this.patchPath == patchPath && this.cachePath == cachePath
      ensures fullReplacePatterns == ["html"]
      ensures filesToPatch == Empty() && filesExamined == Empty()
    {
      this.moduleDir := moduleDir;
      this.basePath := basePath;
      this.patchPath := patchPath;
      this.cachePath := cachePath;
      fullReplacePatterns := ["html"];
      filesToPatch := Empty();
      filesExamined := Empty();
    }

    ghost predicate Valid()
      reads this
    {
      filesToPatch.Valid() && filesExamined.Valid()
    }

    /** The answer `isFullReplacable` gives for `file`. */
    function FullReplacable(file: string): bool
      reads this
    {
      if file in filesToPatch.values then filesToPatch.values[file].fullReplacable
      else exists i :: 0 <= i < |fullReplacePatterns| && PatternMatches(fullReplacePatterns[i], file)
    }

    /** `isToBePatched`: is `filename` registered? The answer is remembered in `filesExamined`. */
    method IsToBePatched(filename: string) returns (result: bool)
      requires Valid()
      modifies this`filesExamined
      ensures Valid()
      ensures result <==> filename in filesToPatch.values
      ensures filesExamined == old(filesExamined).Put(filename, result)
      ensures filename in filesExamined.values && filesExamined.values[filename] == result
    {
      result := filename in filesToPatch.values;
      filesExamined := filesExamined.Put(filename, result);
    }

    /** `isFullReplacable`: a registered file answers from its entry; any other file
      is fully replaceable when one of the patterns matches it. */
    method IsFullReplacable(file: string) returns (res: bool)
      ensures res == FullReplacable(file)
    {
      res := false;
      if file in filesToPatch.values {
        res := filesToPatch.values[file].fullReplacable;
      } else {
        var i := 0;
        while i < |fullReplacePatterns|
          invariant 0 <= i <= |fullReplacePatterns|
          invariant !exists k :: 0 <= k < i && PatternMatches(fullReplacePatterns[k], file)
        {
          if PatternMatches(fullReplacePatterns[i], file) {
            res := true;
            break;
          }
          i := i + 1;
        }
      }
    }

    /** `getPatchedFilename`: the patched file of a registered file; null (with a
        warning) for any other. */
    method GetPatchedFilename(filename: string) returns (r: Option<string>)
      ensures r.Some? <==> filename in filesToPatch.values
      ensures r.Some? ==> r.value == filesToPatch.values[filename].info.patchedFile
    {
      if filename in filesToPatch.values {
        r := Some(filesToPatch.values[filename].info.patchedFile);
      } else {
        r := None;
      }
    }

    /** `createPatchInfo` for `file`, relative to the base path.
        `cached` is what the cache read gave; the stats are those of the source
        file, the patch file, the patched copy at the cache path before the call
        and the same copy after it is written; the raw lexemes are those of the
        source and the patch file. The result says what was decided; on a
        recomputation `written` is the record stored in the version file and the
        cache, and `patchedText` the text written to the patched copy. */
    method CreatePatchInfo(file: string, cached: Option<PatchRecord>, versions: VersionFile,
                           srcStat: FileStat, patchStat: FileStat, patchedStat: FileStat, writtenStat: FileStat,
                           srcRaw: seq<RawLexeme>, patchRaw: seq<RawLexeme>)
      returns (d: Decision, written: Option<PatchRecord>, patchedText: Option<string>)
      requires Valid()
      modifies this`filesToPatch
      ensures Valid()
      ensures var full := old(FullReplacable(basePath + "/" + file));
        d == Decide(full, cached.Some?, versions, srcStat, patchStat, patchedStat, srcRaw, patchRaw)
      ensures d.HaltFullReplaceable? || d.HaltChangedFunctions? ==>
        filesToPatch == old(filesToPatch) && written == None && patchedText == None
      ensures d == CacheHit ==>
        && cached.Some? && written == None && patchedText == None
        && filesToPatch == old(filesToPatch).Put(basePath + "/" + file,
             PatchEntry(file, basePath + "/" + file, cached.value, old(FullReplacable(basePath + "/" + file))))
      ensures d == Recompute ==>
        var key := basePath + "/" + file;
        var full := old(FullReplacable(key));
        var rec := Recomputed(full, key, patchPath + "/" + file, moduleDir + "/cache/patched_" + SlashesToBars(key),
                              srcStat, patchStat, writtenStat, if full then Empty() else FreshFunctions(srcRaw, patchRaw));
        && written == Some(rec)
        && patchedText == (if full then None else Some(ComposeSpec(ParseSpec(srcRaw), ParseSpec(patchRaw)).file))
        && filesToPatch == old(filesToPatch).Put(key, PatchEntry(file, key, rec, full))
    {
      written, patchedText := None, None;
      var baseFile := basePath + "/" + file;
      var patchFile := patchPath + "/" + file;
      var patchedFile := moduleDir + "/cache/patched_" + SlashesToBars(baseFile);
      var fullReplacable := IsFullReplacable(baseFile);
      d := CheckCache(fullReplacable, cached.Some?, versions, srcStat, patchStat, patchedStat, srcRaw, patchRaw);
      if d.HaltFullReplaceable? || d.HaltChangedFunctions? {
        return;
      }
      var cacheIsOk := d == CacheHit;
      var info;
      if !cacheIsOk {
        var replacedFunctions;
        if !fullReplacable {
          var src := ParsePhp(srcRaw);
          var patch := ParsePhp(patchRaw);
          var patchedFileInfo := ConstructPatchedFileData(src, patch);
          patchedText := Some(patchedFileInfo.file);
          replacedFunctions := patchedFileInfo.replacedFunctions;
        } else {
          patchedFile := patchFile;
          replacedFunctions := Empty();
        }
        info := PatchRecord(patchedFile, GetFileVersionInfo(baseFile, srcStat), GetFileVersionInfo(patchFile, patchStat),
                            GetFileVersionInfo(patchedFile, if fullReplacable then patchStat else writtenStat),
                            replacedFunctions);
        written := Some(info);
      } else {
        info := cached.value;
      }
      filesToPatch := filesToPatch.Put(baseFile, PatchEntry(file, baseFile, info, fullReplacable));
    }
  }
}
