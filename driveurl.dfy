/**
 * The Google Drive link pattern that both the add-modules handler and the module form apply
 * to a submaterial's video url:
 *   ^https://(drive.google.com/file/d/|drive.google.com/open?id=)[a-zA-Z0-9_-]+
 * The pattern has no end anchor, so `test` succeeds as soon as one id character follows
 * one of the two prefixes, whatever comes after it.
 */
module DriveLinks {
  import opened Strings

  const FilePrefix: string := "https://drive.google.com/file/d/"
  const OpenPrefix: string := "https://drive.google.com/open?id="

  /** `[a-zA-Z0-9_-]` */
  predicate IdChar(c: char)
  {
    ('a' <= c <= 'z') || ('A' <= c <= 'Z') || ('0' <= c <= '9') || c == '_' || c == '-'
  }

  /** s starts with prefix p followed by at least one id character. */
  predicate IdAfter(s: string, p: string)
  {
    StartsWith(s, p) && |s| > |p| && IdChar(s[|p|])
  }

  /** `googleDriveRegex.test(s)` */
  predicate DriveUrlOk(s: string)
  {
    IdAfter(s, FilePrefix) || IdAfter(s, OpenPrefix)
  }

  /** The regular expression's own reading: a prefix, then a non-empty run of id characters, then anything. */
  ghost predicate MatchesPattern(s: string)
  {
    (exists k :: PrefixRun(s, FilePrefix, k)) || (exists k :: PrefixRun(s, OpenPrefix, k))
  }

  /** s starts with p followed by k >= 1 id characters. */
  predicate PrefixRun(s: string, p: string, k: int)
  {
    1 <= k && |p| + k <= |s| && s[..|p|] == p && IdRun(s, |p|, |p| + k)
  }

  predicate IdRun(s: string, lo: int, hi: int)
  {
    0 <= lo <= hi <= |s| && forall i :: lo <= i < hi ==> IdChar(s[i])
  }

  /** The one-character test is exactly the pattern with its `+` run. */
  lemma DriveUrlPattern(s: string)
    ensures DriveUrlOk(s) <==> MatchesPattern(s)
  {
    if DriveUrlOk(s) {
      var p := if IdAfter(s, FilePrefix) then FilePrefix else OpenPrefix;
      assert PrefixRun(s, p, 1);
    }
    if MatchesPattern(s) {
      var p := if exists k :: PrefixRun(s, FilePrefix, k) then FilePrefix else OpenPrefix;
      var k :| PrefixRun(s, p, k);
      assert IdChar(s[|p|]);
    }
  }

  /** With no end anchor, anything may follow an accepted url. */
  lemma DriveUrlExtend(s: string, tail: string)
    requires DriveUrlOk(s)
    ensures DriveUrlOk(s + tail)
  {
    var p := if IdAfter(s, FilePrefix) then FilePrefix else OpenPrefix;
    assert (s + tail)[..|p|] == s[..|p|];
    assert (s + tail)[|p|] == s[|p|];
  }

  /** A share link built from either prefix and a non-empty id is accepted. */
  lemma DriveUrlOf(id: string)
    requires |id| >= 1 && IdChar(id[0])
    ensures DriveUrlOk(FilePrefix + id) && DriveUrlOk(OpenPrefix + id)
  {
    assert (FilePrefix + id)[..|FilePrefix|] == FilePrefix;
    assert (OpenPrefix + id)[..|OpenPrefix|] == OpenPrefix;
    assert (FilePrefix + id)[|FilePrefix|] == id[0];
    assert (OpenPrefix + id)[|OpenPrefix|] == id[0];
  }

  /** A bare prefix, with no id after it, is refused. */
  lemma BarePrefixRefused()
    ensures !DriveUrlOk(FilePrefix) && !DriveUrlOk(OpenPrefix)
  {
    assert !StartsWith(FilePrefix, OpenPrefix) by {
      assert FilePrefix[25] != OpenPrefix[25];
    }
  }
}
