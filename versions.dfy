/** File fingerprints and the staleness test.

    A fingerprint records a file's change time, size and md5 sum. What the file
    system reports about a path (`file_exists`, `filesize`, `filectime`,
    `md5_file`) is an input value here: a `FileStat`. */
module Versions {

  /** What the file system reports about one path. */
  datatype FileStat = Missing | Present(size: int, ctime: int, md5: string)

  /** The array `getFileVersionInfo` builds: 'timestamp', 'size', 'md5', 'filename'. */
  datatype VersionInfo = VersionInfo(timestamp: int, size: int, md5: string, filename: string)

  /** The fingerprint recorded for a path that does not exist. */
  const NoVersion := VersionInfo(0, 0, "", "")

  /** The outcome of the staleness test: its return value and its `$needUpdate` out-parameter. */
  datatype ChangeCheck = ChangeCheck(changed: bool, needUpdate: bool)

  /** `getFileVersionInfo`: the fingerprint of `filename`, whose stat is `stat`. */
  function GetFileVersionInfo(filename: string, stat: FileStat): VersionInfo
  {
    match stat
    case Missing => NoVersion
    case Present(size, ctime, md5) => VersionInfo(ctime, size, md5, filename)
  }

  /** `isFileVersionInfoChanged`: has the file changed since fingerprint `v` was taken?
      A size mismatch is a change without looking at the md5 sum; an equal size
      and change time is no change unless `forceMd5` asks for the sums to agree
      as well; an equal size with a new change time is no change exactly when the
      sums agree, and then the fingerprint needs an update. */
  function IsFileVersionInfoChanged(stat: FileStat, v: VersionInfo, forceMd5: bool): ChangeCheck
  {
    match stat
    case Missing => ChangeCheck(true, false)
    case Present(size, ctime, md5) =>
      if size != v.size then ChangeCheck(true, false)
      else if ctime == v.timestamp then
        ChangeCheck(forceMd5 && md5 != v.md5, false)
      else if md5 == v.md5 then ChangeCheck(false, true)
      else ChangeCheck(true, false)
  }

  /** A fingerprint taken of an existing file finds it unchanged, needing no update. */
  lemma FreshIsUnchanged(filename: string, stat: FileStat, forceMd5: bool)
    requires stat.Present?
    ensures IsFileVersionInfoChanged(stat, GetFileVersionInfo(filename, stat), forceMd5)
         == ChangeCheck(false, false)
  {
  }

  /** A missing file counts as changed, even against the fingerprint of a missing file. */
  lemma MissingIsChanged(v: VersionInfo, forceMd5: bool)
    ensures IsFileVersionInfoChanged(Missing, v, forceMd5) == ChangeCheck(true, false)
    ensures IsFileVersionInfoChanged(Missing, GetFileVersionInfo("", Missing), forceMd5).changed
  {
  }

  /** When the test finds no change, the file exists with the recorded size and
      either the recorded change time or the recorded md5 sum; with `forceMd5`
      the md5 sum always agrees. A change is reported exactly when none of these hold. */
  lemma UnchangedMeans(stat: FileStat, v: VersionInfo, forceMd5: bool)
    ensures var r := IsFileVersionInfoChanged(stat, v, forceMd5);
      !r.changed <==>
        && stat.Present? && stat.size == v.size
        && (stat.ctime == v.timestamp || stat.md5 == v.md5)
        && (forceMd5 ==> stat.md5 == v.md5)
  {
  }

  /** An update is asked for exactly when the file is kept as unchanged although
      its change time moved; it never comes with a reported change. */
  lemma NeedUpdateMeans(stat: FileStat, v: VersionInfo, forceMd5: bool)
    ensures var r := IsFileVersionInfoChanged(stat, v, forceMd5);
      r.needUpdate <==> !r.changed && stat.Present? && stat.ctime != v.timestamp
  {
  }

  /** Without `forceMd5` the change time is trusted: a file with the recorded
      size and change time is reported unchanged whatever its contents; with
      `forceMd5` it is reported changed exactly when its md5 sum differs. */
  lemma CtimeIsTrusted(stat: FileStat, v: VersionInfo)
    requires stat.Present? && stat.size == v.size && stat.ctime == v.timestamp
    ensures !IsFileVersionInfoChanged(stat, v, false).changed
    ensures IsFileVersionInfoChanged(stat, v, true).changed <==> stat.md5 != v.md5
  {
  }
}
