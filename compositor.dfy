/** `construct_patched_file_data`: merge a patch file's classes into a source file.

    Source classes are visited from last to first. In each, every method the
    patch class has and the source class lacks is spliced in just before the
    source class's closing brace; then every source method the patch class
    also has is replaced, from last to first, by a block made of the patch
    method, a newline token and the source method with its own name renamed
    to a shadow name. Every splice uses the positions recorded in the source
    parse, applied to the token sequence as edited so far. */
module Compositor {
  import opened PhpValues
  import opened Tokens
  import opened Scanner
  import opened Splice

  /** `get_old_function_name`: the shadow name of a replaced method. */
  function GetOldFunctionName(className: string, functionName: string): string
  {
    "old_" + className + "_" + functionName + "_mp"
  }

  /** The shadow name is "old_", the class name, "_", the method name and "_mp". */
  lemma {:induction false} OldNameShape(className: string, functionName: string)
    ensures var r := GetOldFunctionName(className, functionName);
      && |r| == |className| + |functionName| + 8
      && r[..4] == "old_" && r[|r| - 3..] == "_mp"
      && r[4..4 + |className|] == className && r[4 + |className|] == '_'
      && r[5 + |className|..|r| - 3] == functionName
  {
  }

  /** The shadow name never equals the method's own name. */
  lemma {:induction false} OldNameDiffers(className: string, functionName: string)
    ensures GetOldFunctionName(className, functionName) != functionName
  {
    OldNameShape(className, functionName);
  }

  /** Within one class, distinct methods get distinct shadow names. */
  lemma {:induction false} OldNameInjective(className: string, f1: string, f2: string)
    requires GetOldFunctionName(className, f1) == GetOldFunctionName(className, f2)
    ensures f1 == f2
  {
    OldNameShape(className, f1);
    OldNameShape(className, f2);
  }

  /** Across classes, shadow names can collide. */
  lemma {:induction false} OldNameCollides()
    ensures GetOldFunctionName("A_b", "c") == GetOldFunctionName("A", "b_c")
  {
  }

  // ---------------------------------------------------------------------------
  // Renaming inside the shadow copy.

  function RenameAt(t: Token, name: string, newName: string): Token {
    if t.kind == TString && t.text == name then t.(text := newName) else t
  }

  /** Rewrite every identifier token spelled `name` to `newName`. */
  function Rename(ts: seq<Token>, name: string, newName: string): (r: seq<Token>)
    ensures |r| == |ts|
  {
    seq(|ts|, i requires 0 <= i < |ts| => RenameAt(ts[i], name, newName))
  }

  /** Renaming keeps every token's kind and line, and changes the text of
      exactly the identifiers spelled `name`, to `newName`. */
  lemma {:induction false} RenameFacts(ts: seq<Token>, name: string, newName: string)
    ensures forall i :: 0 <= i < |ts| ==>
      var r := Rename(ts, name, newName);
      && r[i].kind == ts[i].kind && r[i].line == ts[i].line
      && (r[i].text == ts[i].text || (ts[i].kind == TString && ts[i].text == name))
      && (ts[i].kind == TString && ts[i].text == name ==> r[i].text == newName)
  {
  }

  /** After renaming to a different name, no identifier spelled `name` is left. */
  lemma {:induction false} RenameRemoves(ts: seq<Token>, name: string, newName: string)
    requires name != newName
    ensures forall i :: 0 <= i < |ts| ==> !(Rename(ts, name, newName)[i].kind == TString
                                          && Rename(ts, name, newName)[i].text == name)
  {
  }

  /** A sequence without an identifier spelled `name` is left unchanged. */
  lemma {:induction false} RenameIdle(ts: seq<Token>, name: string, newName: string)
    requires forall i :: 0 <= i < |ts| ==> !(ts[i].kind == TString && ts[i].text == name)
    ensures Rename(ts, name, newName) == ts
  {
  }

  lemma {:induction false} RenameSnoc(ts: seq<Token>, t: Token, name: string, newName: string)
    ensures Rename(ts + [t], name, newName) == Rename(ts, name, newName) + [RenameAt(t, name, newName)]
  {
  }

  /** The replacement block of an overridden method. */
  function OverrideBlock(srcLexes: seq<Token>, patchLexes: seq<Token>, sf: FunctionInfo, pf: FunctionInfo,
                        className: string, funcName: string): (r: seq<Token>)
    requires sf.startLexPos <= sf.endLexPos < |srcLexes|
    requires pf.startLexPos <= pf.endLexPos < |patchLexes|
  {
    var patched := patchLexes[pf.startLexPos..pf.endLexPos + 1];
    patched + [Token(UString, "\n", patchLexes[pf.endLexPos].line)]
      + Rename(srcLexes[sf.startLexPos..sf.endLexPos + 1], funcName, GetOldFunctionName(className, funcName))
  }

  /** The block starts with the patch method and ends with the shadow copy of the source method. */
  lemma {:induction false} OverrideBlockShape(srcLexes: seq<Token>, patchLexes: seq<Token>, sf: FunctionInfo, pf: FunctionInfo,
                           className: string, funcName: string)
    requires sf.startLexPos <= sf.endLexPos < |srcLexes|
    requires pf.startLexPos <= pf.endLexPos < |patchLexes|
    ensures var r := OverrideBlock(srcLexes, patchLexes, sf, pf, className, funcName);
      var n := pf.endLexPos - pf.startLexPos + 1;
      && |r| == n + 1 + (sf.endLexPos - sf.startLexPos + 1)
      && r[..n] == patchLexes[pf.startLexPos..pf.endLexPos + 1]
      && IsPunct(r[n], "\n")
      && r[n + 1..] == Rename(srcLexes[sf.startLexPos..sf.endLexPos + 1], funcName,
                              GetOldFunctionName(className, funcName))
      && Concat(r) == Concat(patchLexes[pf.startLexPos..pf.endLexPos + 1]) + "\n"
                      + Concat(r[n + 1..])
  {
    var r := OverrideBlock(srcLexes, patchLexes, sf, pf, className, funcName);
    var n := pf.endLexPos - pf.startLexPos + 1;
    var patched := patchLexes[pf.startLexPos..pf.endLexPos + 1];
    var nl := Token(UString, "\n", patchLexes[pf.endLexPos].line);
    var renamed := Rename(srcLexes[sf.startLexPos..sf.endLexPos + 1], funcName, GetOldFunctionName(className, funcName));
    assert r == patched + [nl] + renamed;
    assert |patched| == n;
    assert r[..n] == patched && r[n] == nl && r[n + 1..] == renamed;
    ConcatAppend(patched + [nl], renamed);
    ConcatAppend(patched, [nl]);
    assert Concat([nl]) == Concat([]) + nl.text;
  }

  // ---------------------------------------------------------------------------
  // The edits `construct_patched_file_data` makes, in the order it makes them.

  /** An edit the PHP loops can apply to a token list at least n long: it
      leaves the first token and the last token in place and does not shrink. */
  ghost predicate Admissible(e: Edit<Token>, n: nat) {
    Fits(e, n) && 1 <= e.lo && e.hi < n && e.block != []
  }

  ghost predicate AllAdmissible(es: seq<Edit<Token>>, n: nat) {
    forall i :: 0 <= i < |es| ==> Admissible(es[i], n)
  }

  lemma {:induction false} AdmissibleFit(es: seq<Edit<Token>>, n: nat)
    requires AllAdmissible(es, n)
    ensures AllFit(es, n)
  {
    forall i | 0 <= i < |es| ensures Fits(es[i], n) {
      assert Admissible(es[i], n);
    }
  }

  lemma {:induction false} AdmissibleConcat(a: seq<Edit<Token>>, b: seq<Edit<Token>>, n: nat)
    requires AllAdmissible(a, n) && AllAdmissible(b, n)
    ensures AllAdmissible(a + b, n)
  {
    forall i | 0 <= i < |a + b| ensures Admissible((a + b)[i], n) {
      if i < |a| { assert (a + b)[i] == a[i]; } else { assert (a + b)[i] == b[i - |a|]; }
    }
  }

  /** Both files' classes and methods, with `c` a class of the source and the patch. */
  ghost predicate Shared(src: ParseData, patch: ParseData, c: string) {
    ValidParse(src) && ValidParse(patch) && c in src.classes.values && c in patch.classes.values
  }

  /** The splice of the patch method at index j of class c, if the source class lacks it. */
  function InsertAt(src: ParseData, patch: ParseData, c: string, j: nat): seq<Edit<Token>>
    requires Shared(src, patch, c)
    requires j < |patch.classes.values[c].functions.keys|
  {
    var pfs := patch.classes.values[c].functions;
    var f := pfs.keys[j];
    if f in src.classes.values[c].functions.values then []
    else
      var pf := pfs.values[f];
      var e := src.classes.values[c].endLexPos;
      [Edit(e, e, patch.lexes[pf.startLexPos..pf.endLexPos + 1])]
  }

  /** The splices for the patch methods at indices [0, j) of class c, in order. */
  function InsertEdits(src: ParseData, patch: ParseData, c: string, j: nat): seq<Edit<Token>>
    requires Shared(src, patch, c)
    requires j <= |patch.classes.values[c].functions.keys|
  {
    if j == 0 then [] else InsertEdits(src, patch, c, j - 1) + InsertAt(src, patch, c, j - 1)
  }

  /** The override of the source method at index j of class c, if the patch has it. */
  function OverrideAt(src: ParseData, patch: ParseData, c: string, j: nat): seq<Edit<Token>>
    requires Shared(src, patch, c)
    requires j < |src.classes.values[c].functions.keys|
  {
    var sfs := src.classes.values[c].functions;
    var pfs := patch.classes.values[c].functions;
    var f := sfs.keys[j];
    if f in pfs.values then
      var sf := sfs.values[f];
      [Edit(sf.startLexPos, sf.endLexPos + 1, OverrideBlock(src.lexes, patch.lexes, sf, pfs.values[f], c, f))]
    else []
  }

  /** The overrides of the source methods at indices [j, n) of class c, last first. */
  function OverrideEdits(src: ParseData, patch: ParseData, c: string, j: nat): seq<Edit<Token>>
    requires Shared(src, patch, c)
    requires j <= |src.classes.values[c].functions.keys|
    decreases |src.classes.values[c].functions.keys| - j
  {
    if j == |src.classes.values[c].functions.keys| then []
    else OverrideEdits(src, patch, c, j + 1) + OverrideAt(src, patch, c, j)
  }

  /** The recorded original code of the source method at index j of class c, if the patch overrides it. */
  function PairAt(src: ParseData, patch: ParseData, c: string, j: nat): seq<(string, string)>
    requires Shared(src, patch, c)
    requires j < |src.classes.values[c].functions.keys|
  {
    var sfs := src.classes.values[c].functions;
    var f := sfs.keys[j];
    if f in patch.classes.values[c].functions.values then [(f, sfs.values[f].code)] else []
  }

  function OverridePairs(src: ParseData, patch: ParseData, c: string, j: nat): seq<(string, string)>
    requires Shared(src, patch, c)
    requires j <= |src.classes.values[c].functions.keys|
    decreases |src.classes.values[c].functions.keys| - j
  {
    if j == |src.classes.values[c].functions.keys| then []
    else OverridePairs(src, patch, c, j + 1) + PairAt(src, patch, c, j)
  }

  /** All edits for source class c; none when the patch lacks the class. */
  function ClassEdits(src: ParseData, patch: ParseData, c: string): seq<Edit<Token>>
    requires ValidParse(src) && ValidParse(patch) && c in src.classes.values
  {
    if c in patch.classes.values then
      InsertEdits(src, patch, c, |patch.classes.values[c].functions.keys|) + OverrideEdits(src, patch, c, 0)
    else []
  }

  function ClassPairs(src: ParseData, patch: ParseData, c: string): seq<(string, string)>
    requires ValidParse(src) && ValidParse(patch) && c in src.classes.values
  {
    if c in patch.classes.values then OverridePairs(src, patch, c, 0) else []
  }

  /** The edits for the source classes at indices [k, n), last class first. */
  function AllEdits(src: ParseData, patch: ParseData, k: nat): seq<Edit<Token>>
    requires ValidParse(src) && ValidParse(patch) && k <= |src.classes.keys|
    decreases |src.classes.keys| - k
  {
    if k == |src.classes.keys| then []
    else AllEdits(src, patch, k + 1) + ClassEdits(src, patch, src.classes.keys[k])
  }

  function AllPairs(src: ParseData, patch: ParseData, k: nat): seq<(string, string)>
    requires ValidParse(src) && ValidParse(patch) && k <= |src.classes.keys|
    decreases |src.classes.keys| - k
  {
    if k == |src.classes.keys| then []
    else AllPairs(src, patch, k + 1) + ClassPairs(src, patch, src.classes.keys[k])
  }

  /** Storing each pair in turn into a PHP array. */
  function PutAll(a: Assoc<string>, ps: seq<(string, string)>): (r: Assoc<string>)
    ensures a.Valid() ==> r.Valid()
  {
    if ps == [] then a else PutAll(a, ps[..|ps| - 1]).Put(ps[|ps| - 1].0, ps[|ps| - 1].1)
  }

  // ---------------------------------------------------------------------------
  // Every edit is admissible for the source token list.

  lemma {:induction false} InsertAtAdmissible(src: ParseData, patch: ParseData, c: string, j: nat)
    requires Shared(src, patch, c)
    requires j < |patch.classes.values[c].functions.keys|
    ensures AllAdmissible(InsertAt(src, patch, c, j), |src.lexes|)
  {
    assert ClassInRange(src.classes.values[c], |src.lexes|);
    assert ClassInRange(patch.classes.values[c], |patch.lexes|);
    var pfs := patch.classes.values[c].functions;
    assert pfs.keys[j] in pfs.values;
  }

  lemma {:induction false} InsertEditsAdmissible(src: ParseData, patch: ParseData, c: string, j: nat)
    requires Shared(src, patch, c)
    requires j <= |patch.classes.values[c].functions.keys|
    ensures AllAdmissible(InsertEdits(src, patch, c, j), |src.lexes|)
  {
    if j > 0 {
      InsertEditsAdmissible(src, patch, c, j - 1);
      InsertAtAdmissible(src, patch, c, j - 1);
      AdmissibleConcat(InsertEdits(src, patch, c, j - 1), InsertAt(src, patch, c, j - 1), |src.lexes|);
    }
  }

  lemma {:induction false} OverrideAtAdmissible(src: ParseData, patch: ParseData, c: string, j: nat)
    requires Shared(src, patch, c)
    requires j < |src.classes.values[c].functions.keys|
    ensures AllAdmissible(OverrideAt(src, patch, c, j), |src.lexes|)
  {
    assert ClassInRange(src.classes.values[c], |src.lexes|);
    assert ClassInRange(patch.classes.values[c], |patch.lexes|);
    var sfs := src.classes.values[c].functions;
    assert sfs.keys[j] in sfs.values;
  }

  lemma {:induction false} OverrideEditsAdmissible(src: ParseData, patch: ParseData, c: string, j: nat)
    requires Shared(src, patch, c)
    requires j <= |src.classes.values[c].functions.keys|
    ensures AllAdmissible(OverrideEdits(src, patch, c, j), |src.lexes|)
    decreases |src.classes.values[c].functions.keys| - j
  {
    if j < |src.classes.values[c].functions.keys| {
      OverrideEditsAdmissible(src, patch, c, j + 1);
      OverrideAtAdmissible(src, patch, c, j);
      AdmissibleConcat(OverrideEdits(src, patch, c, j + 1), OverrideAt(src, patch, c, j), |src.lexes|);
    }
  }

  lemma {:induction false} ClassEditsAdmissible(src: ParseData, patch: ParseData, c: string)
    requires ValidParse(src) && ValidParse(patch) && c in src.classes.values
    ensures AllAdmissible(ClassEdits(src, patch, c), |src.lexes|)
  {
    if c in patch.classes.values {
      InsertEditsAdmissible(src, patch, c, |patch.classes.values[c].functions.keys|);
      OverrideEditsAdmissible(src, patch, c, 0);
      AdmissibleConcat(InsertEdits(src, patch, c, |patch.classes.values[c].functions.keys|),
                       OverrideEdits(src, patch, c, 0), |src.lexes|);
    }
  }

  lemma {:induction false} AllEditsAdmissible(src: ParseData, patch: ParseData, k: nat)
    requires ValidParse(src) && ValidParse(patch) && k <= |src.classes.keys|
    ensures AllAdmissible(AllEdits(src, patch, k), |src.lexes|)
    ensures AllFit(AllEdits(src, patch, k), |src.lexes|)
    decreases |src.classes.keys| - k
  {
    if k < |src.classes.keys| {
      AllEditsAdmissible(src, patch, k + 1);
      assert src.classes.keys[k] in src.classes.values;
      ClassEditsAdmissible(src, patch, src.classes.keys[k]);
      AdmissibleConcat(AllEdits(src, patch, k + 1), ClassEdits(src, patch, src.classes.keys[k]), |src.lexes|);
    }
    AdmissibleFit(AllEdits(src, patch, k), |src.lexes|);
  }

  // ---------------------------------------------------------------------------
  // The specification of the whole merge.

  /** What `construct_patched_file_data` returns. */
  datatype PatchedFileData = PatchedFileData(replacedFunctions: Assoc<string>, file: string, lexes: seq<Token>)

  function ComposeSpec(src: ParseData, patch: ParseData): (r: PatchedFileData)
    requires ValidParse(src) && ValidParse(patch)
    ensures r.file == Concat(r.lexes)
    ensures |r.lexes| >= |src.lexes|
    ensures r.replacedFunctions.Valid()
  {
    AllEditsAdmissible(src, patch, 0);
    GrowthOfFits(AllEdits(src, patch, 0), |src.lexes|);
    var ls := Apply(src.lexes, AllEdits(src, patch, 0));
    PatchedFileData(PutAll(Empty(), AllPairs(src, patch, 0)), Concat(ls), ls)
  }

  // ---------------------------------------------------------------------------
  // The loops of `construct_patched_file_data`.

  /** The summary block, built token by token as in the PHP. */
  method SummaryLexes(srcLexes: seq<Token>, patchLexes: seq<Token>, sf: FunctionInfo, pf: FunctionInfo,
                      className: string, funcName: string) returns (summary: seq<Token>)
    requires sf.startLexPos <= sf.endLexPos < |srcLexes|
    requires pf.startLexPos <= pf.endLexPos < |patchLexes|
    ensures summary == OverrideBlock(srcLexes, patchLexes, sf, pf, className, funcName)
  {
    summary := [];
    var i := pf.startLexPos;
    while i <= pf.endLexPos
      invariant pf.startLexPos <= i <= pf.endLexPos + 1
      invariant summary == patchLexes[pf.startLexPos..i]
    {
      summary := summary + [patchLexes[i]];
      i := i + 1;
    }
    summary := summary + [Token(UString, "\n", summary[|summary| - 1].line)];
    ghost var head := summary;
    var oldName := GetOldFunctionName(className, funcName);
    i := sf.startLexPos;
    while i <= sf.endLexPos
      invariant sf.startLexPos <= i <= sf.endLexPos + 1
      invariant summary == head + Rename(srcLexes[sf.startLexPos..i], funcName, oldName)
    {
      var lex := srcLexes[i];
      if lex.kind == TString && lex.text == funcName {
        lex := lex.(text := oldName);
      }
      assert srcLexes[sf.startLexPos..i + 1] == srcLexes[sf.startLexPos..i] + [srcLexes[i]];
      RenameSnoc(srcLexes[sf.startLexPos..i], srcLexes[i], funcName, oldName);
      summary := summary + [lex];
      i := i + 1;
    }
  }

  lemma {:induction false} InsertStep(src: ParseData, patch: ParseData, c: string, j: nat, done: seq<Edit<Token>>)
    requires Shared(src, patch, c) && j < |patch.classes.values[c].functions.keys|
    ensures done + InsertEdits(src, patch, c, j) + InsertAt(src, patch, c, j)
         == done + InsertEdits(src, patch, c, j + 1)
  {
  }

  /** One iteration of the first inner loop: the patch method at index j. */
  method InsertOne(src: ParseData, patch: ParseData, c: string, j: nat, ghost pre: seq<Edit<Token>>,
                   lexes0: seq<Token>) returns (lexes: seq<Token>)
    requires Shared(src, patch, c) && j < |patch.classes.values[c].functions.keys|
    requires AllFit(pre, |src.lexes|) && lexes0 == Apply(src.lexes, pre)
    ensures AllFit(pre + InsertAt(src, patch, c, j), |src.lexes|)
    ensures lexes == Apply(src.lexes, pre + InsertAt(src, patch, c, j))
  {
    var pfs := patch.classes.values[c].functions;
    var funcName := pfs.keys[j];
    var classEnd := src.classes.values[c].endLexPos;
    InsertAtAdmissible(src, patch, c, j);
    if funcName !in src.classes.values[c].functions.values {
      var funcData := pfs.values[funcName];
      ghost var e := Edit(classEnd, classEnd, patch.lexes[funcData.startLexPos..funcData.endLexPos + 1]);
      assert InsertAt(src, patch, c, j) == [e];
      assert Admissible(e, |src.lexes|) by {
        assert e == InsertAt(src, patch, c, j)[0];
      }
      ApplySnoc(src.lexes, pre, e);
      lexes := ArrayReplacePartly(patch.lexes, lexes0, funcData.startLexPos, funcData.endLexPos,
                                  classEnd, classEnd - 1);
    } else {
      lexes := lexes0;
      assert pre + InsertAt(src, patch, c, j) == pre;
    }
  }

  /** The first inner loop: splice in the patch methods the source class lacks. */
  method InsertNewMethods(src: ParseData, patch: ParseData, c: string, ghost done: seq<Edit<Token>>,
                          lexes0: seq<Token>) returns (lexes: seq<Token>)
    requires Shared(src, patch, c)
    requires AllFit(done, |src.lexes|) && lexes0 == Apply(src.lexes, done)
    ensures AllFit(done + InsertEdits(src, patch, c, |patch.classes.values[c].functions.keys|), |src.lexes|)
    ensures lexes == Apply(src.lexes, done + InsertEdits(src, patch, c, |patch.classes.values[c].functions.keys|))
  {
    lexes := lexes0;
    var pfs := patch.classes.values[c].functions;
    var j := 0;
    ghost var edits := done;
    assert done + InsertEdits(src, patch, c, 0) == done;
    while j < |pfs.keys|
      invariant 0 <= j <= |pfs.keys|
      invariant edits == done + InsertEdits(src, patch, c, j)
      invariant AllFit(edits, |src.lexes|) && lexes == Apply(src.lexes, edits)
    {
      lexes := InsertOne(src, patch, c, j, edits, lexes);
      InsertStep(src, patch, c, j, done);
      edits := edits + InsertAt(src, patch, c, j);
      j := j + 1;
    }
  }

  lemma {:induction false} OverrideStep(src: ParseData, patch: ParseData, c: string, j: nat,
                     done: seq<Edit<Token>>, donePairs: seq<(string, string)>)
    requires Shared(src, patch, c) && 0 < j <= |src.classes.values[c].functions.keys|
    ensures done + OverrideEdits(src, patch, c, j) + OverrideAt(src, patch, c, j - 1)
         == done + OverrideEdits(src, patch, c, j - 1)
    ensures donePairs + OverridePairs(src, patch, c, j) + PairAt(src, patch, c, j - 1)
         == donePairs + OverridePairs(src, patch, c, j - 1)
  {
    assert OverrideEdits(src, patch, c, j - 1) == OverrideEdits(src, patch, c, j) + OverrideAt(src, patch, c, j - 1);
    assert OverridePairs(src, patch, c, j - 1) == OverridePairs(src, patch, c, j) + PairAt(src, patch, c, j - 1);
  }

  /** When the patch class also has source method j, both copies lie inside
      their token lists and the source copy lies strictly inside a rendering. */
  lemma {:induction false} OverrideRanges(src: ParseData, patch: ParseData, c: string, j: nat,
                                          f: string, n: nat)
    requires Shared(src, patch, c) && j < |src.classes.values[c].functions.keys|
    requires f == src.classes.values[c].functions.keys[j] && f in patch.classes.values[c].functions.values
    requires |src.lexes| <= n
    ensures f in src.classes.values[c].functions.values
    ensures var sf := src.classes.values[c].functions.values[f];
      1 <= sf.startLexPos <= sf.endLexPos < |src.lexes| - 1 <= n - 1
    ensures var pf := patch.classes.values[c].functions.values[f];
      pf.startLexPos <= pf.endLexPos < |patch.lexes|
  {
    assert ClassInRange(src.classes.values[c], |src.lexes|);
    assert ClassInRange(patch.classes.values[c], |patch.lexes|);
    assert f in src.classes.values[c].functions.values;
  }

  /** ... and its override is one edit that replaces exactly the source
      method's range by the summary block, recording the source code. */
  lemma {:induction false} OverrideHit(src: ParseData, patch: ParseData, c: string, j: nat,
                                       pre: seq<Edit<Token>>, prePairs: seq<(string, string)>,
                                       f: string, sf: FunctionInfo, pf: FunctionInfo, block: seq<Token>)
    requires Shared(src, patch, c) && j < |src.classes.values[c].functions.keys|
    requires f == src.classes.values[c].functions.keys[j] && f in patch.classes.values[c].functions.values
    requires f in src.classes.values[c].functions.values
    requires sf == src.classes.values[c].functions.values[f] && pf == patch.classes.values[c].functions.values[f]
    requires sf.startLexPos <= sf.endLexPos < |src.lexes| && pf.startLexPos <= pf.endLexPos < |patch.lexes|
    requires block == OverrideBlock(src.lexes, patch.lexes, sf, pf, c, f)
    requires AllFit(pre, |src.lexes|)
    ensures AllFit(pre + OverrideAt(src, patch, c, j), |src.lexes|)
    ensures |Apply(src.lexes, pre)| >= |src.lexes|
    ensures Apply(src.lexes, pre + OverrideAt(src, patch, c, j))
         == Splice.Splice(Apply(src.lexes, pre), Edit(sf.startLexPos, sf.endLexPos + 1, block))
    ensures PutAll(Empty(), prePairs + PairAt(src, patch, c, j)) == PutAll(Empty(), prePairs).Put(f, sf.code)
  {
    OverrideAtAdmissible(src, patch, c, j);
    var e := Edit(sf.startLexPos, sf.endLexPos + 1, block);
    assert OverrideAt(src, patch, c, j) == [e];
    assert Admissible(e, |src.lexes|) by {
      assert e == OverrideAt(src, patch, c, j)[0];
    }
    ApplySnoc(src.lexes, pre, e);
    var p := (f, sf.code);
    assert PairAt(src, patch, c, j) == [p];
    assert (prePairs + [p])[..|prePairs|] == prePairs;
  }

  /** One hit of the second inner loop: build the summary block and splice it
      over the source method's range in the current lexemes. */
  method OverrideFunction(srcLexes: seq<Token>, patchLexes: seq<Token>, sf: FunctionInfo, pf: FunctionInfo,
                          className: string, funcName: string, lexes0: seq<Token>)
    returns (lexes: seq<Token>)
    requires 1 <= sf.startLexPos <= sf.endLexPos < |srcLexes| - 1 && |srcLexes| <= |lexes0|
    requires pf.startLexPos <= pf.endLexPos < |patchLexes|
    ensures lexes == Splice.Splice(lexes0, Edit(sf.startLexPos, sf.endLexPos + 1,
                                                OverrideBlock(srcLexes, patchLexes, sf, pf, className, funcName)))
  {
    var summaryLexes := SummaryLexes(srcLexes, patchLexes, sf, pf, className, funcName);
    assert summaryLexes[0..|summaryLexes|] == summaryLexes;
    lexes := ArrayReplacePartly(summaryLexes, lexes0, 0, |summaryLexes| - 1, sf.startLexPos, sf.endLexPos);
  }

  /** One iteration of the second inner loop: the source method at index j. */
  method OverrideOne(src: ParseData, patch: ParseData, c: string, j: nat,
                     ghost pre: seq<Edit<Token>>, ghost prePairs: seq<(string, string)>,
                     lexes0: seq<Token>, replaced0: Assoc<string>)
    returns (lexes: seq<Token>, replaced: Assoc<string>)
    requires Shared(src, patch, c) && j < |src.classes.values[c].functions.keys|
    requires AllFit(pre, |src.lexes|) && lexes0 == Apply(src.lexes, pre)
    requires replaced0 == PutAll(Empty(), prePairs)
    ensures AllFit(pre + OverrideAt(src, patch, c, j), |src.lexes|)
    ensures lexes == Apply(src.lexes, pre + OverrideAt(src, patch, c, j))
    ensures replaced == PutAll(Empty(), prePairs + PairAt(src, patch, c, j))
  {
    var pfs := patch.classes.values[c].functions;
    var sfs := src.classes.values[c].functions;
    var funcName := sfs.keys[j];
    if funcName in pfs.values {
      GrowthOfFits(pre, |src.lexes|);
      OverrideRanges(src, patch, c, j, funcName, |lexes0|);
      var srcFuncInfo := sfs.values[funcName];
      var patchFuncInfo := pfs.values[funcName];
      OverrideHit(src, patch, c, j, pre, prePairs, funcName, srcFuncInfo, patchFuncInfo,
                  OverrideBlock(src.lexes, patch.lexes, srcFuncInfo, patchFuncInfo, c, funcName));
      replaced := replaced0.Put(funcName, srcFuncInfo.code);
      lexes := OverrideFunction(src.lexes, patch.lexes, srcFuncInfo, patchFuncInfo, c, funcName, lexes0);
    } else {
      lexes, replaced := lexes0, replaced0;
      assert pre + OverrideAt(src, patch, c, j) == pre;
      assert prePairs + PairAt(src, patch, c, j) == prePairs;
    }
  }

  /** The second inner loop: replace the source methods the patch class also has, last first. */
  method OverrideMethods(src: ParseData, patch: ParseData, c: string,
                         ghost done: seq<Edit<Token>>, ghost donePairs: seq<(string, string)>,
                         lexes0: seq<Token>, replaced0: Assoc<string>)
    returns (lexes: seq<Token>, replaced: Assoc<string>)
    requires Shared(src, patch, c)
    requires AllFit(done, |src.lexes|) && lexes0 == Apply(src.lexes, done)
    requires replaced0 == PutAll(Empty(), donePairs)
    ensures AllFit(done + OverrideEdits(src, patch, c, 0), |src.lexes|)
    ensures lexes == Apply(src.lexes, done + OverrideEdits(src, patch, c, 0))
    ensures replaced == PutAll(Empty(), donePairs + OverridePairs(src, patch, c, 0))
  {
    lexes, replaced := lexes0, replaced0;
    var j := |src.classes.values[c].functions.keys|;
    ghost var edits, pairs := done, donePairs;
    assert done + OverrideEdits(src, patch, c, j) == done;
    assert donePairs + OverridePairs(src, patch, c, j) == donePairs;
    while j > 0
      invariant 0 <= j <= |src.classes.values[c].functions.keys|
      invariant edits == done + OverrideEdits(src, patch, c, j)
      invariant pairs == donePairs + OverridePairs(src, patch, c, j)
      invariant AllFit(edits, |src.lexes|) && lexes == Apply(src.lexes, edits)
      invariant replaced == PutAll(Empty(), pairs)
    {
      lexes, replaced := OverrideOne(src, patch, c, j - 1, edits, pairs, lexes, replaced);
      OverrideStep(src, patch, c, j, done, donePairs);
      edits, pairs := edits + OverrideAt(src, patch, c, j - 1), pairs + PairAt(src, patch, c, j - 1);
      j := j - 1;
    }
  }

  lemma {:induction false} ClassStep(src: ParseData, patch: ParseData, k: nat)
    requires ValidParse(src) && ValidParse(patch) && 0 < k <= |src.classes.keys|
    ensures src.classes.keys[k - 1] in src.classes.values
    ensures AllEdits(src, patch, k - 1) == AllEdits(src, patch, k) + ClassEdits(src, patch, src.classes.keys[k - 1])
    ensures AllPairs(src, patch, k - 1) == AllPairs(src, patch, k) + ClassPairs(src, patch, src.classes.keys[k - 1])
  {
  }

  lemma {:induction false} ClassEditsShape(src: ParseData, patch: ParseData, c: string, done: seq<Edit<Token>>,
                        donePairs: seq<(string, string)>)
    requires ValidParse(src) && ValidParse(patch) && c in src.classes.values
    ensures c in patch.classes.values ==>
      done + ClassEdits(src, patch, c)
        == done + InsertEdits(src, patch, c, |patch.classes.values[c].functions.keys|)
           + OverrideEdits(src, patch, c, 0)
    ensures c in patch.classes.values ==>
      donePairs + ClassPairs(src, patch, c) == donePairs + OverridePairs(src, patch, c, 0)
    ensures c !in patch.classes.values ==>
      done + ClassEdits(src, patch, c) == done && donePairs + ClassPairs(src, patch, c) == donePairs
  {
  }

  /** The body of the class loop: the source class at index k - 1. */
  method PatchClass(src: ParseData, patch: ParseData, k: nat, lexes0: seq<Token>, replaced0: Assoc<string>)
    returns (lexes: seq<Token>, replaced: Assoc<string>)
    requires ValidParse(src) && ValidParse(patch) && 0 < k <= |src.classes.keys|
    requires AllFit(AllEdits(src, patch, k), |src.lexes|)
    requires lexes0 == Apply(src.lexes, AllEdits(src, patch, k))
    requires replaced0 == PutAll(Empty(), AllPairs(src, patch, k))
    ensures AllFit(AllEdits(src, patch, k - 1), |src.lexes|)
    ensures lexes == Apply(src.lexes, AllEdits(src, patch, k - 1))
    ensures replaced == PutAll(Empty(), AllPairs(src, patch, k - 1))
  {
    ClassStep(src, patch, k);
    var className := src.classes.keys[k - 1];
    ClassEditsShape(src, patch, className, AllEdits(src, patch, k), AllPairs(src, patch, k));
    if className in patch.classes.values {
      lexes := InsertNewMethods(src, patch, className, AllEdits(src, patch, k), lexes0);
      lexes, replaced := OverrideMethods(src, patch, className,
        AllEdits(src, patch, k) + InsertEdits(src, patch, className, |patch.classes.values[className].functions.keys|),
        AllPairs(src, patch, k), lexes, replaced0);
    } else {
      lexes, replaced := lexes0, replaced0;
    }
  }

  /** `construct_patched_file_data`. */
  method ConstructPatchedFileData(src: ParseData, patch: ParseData) returns (result: PatchedFileData)
    requires ValidParse(src) && ValidParse(patch)
    ensures result == ComposeSpec(src, patch)
  {
    var lexes := src.lexes;
    var replaced := Empty<string>();
    var k := |src.classes.keys|;
    assert AllEdits(src, patch, k) == [] && AllPairs(src, patch, k) == [];
    while k > 0
      invariant 0 <= k <= |src.classes.keys|
      invariant AllFit(AllEdits(src, patch, k), |src.lexes|)
      invariant lexes == Apply(src.lexes, AllEdits(src, patch, k))
      invariant replaced == PutAll(Empty(), AllPairs(src, patch, k))
    {
      lexes, replaced := PatchClass(src, patch, k, lexes, replaced);
      k := k - 1;
    }
    var file := LexesToString(lexes);
    result := PatchedFileData(replaced, file, lexes);
    assert result == PatchedFileData(PutAll(Empty(), AllPairs(src, patch, 0)), Concat(lexes), lexes);
  }
}
