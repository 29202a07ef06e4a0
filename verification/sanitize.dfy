/** `sanitize_filename` of the newer bot (test2.py): keep the base name, turn
    every character outside `[A-Za-z0-9_.-]` into '_', and cut the result to
    100 characters. */
module Sanitize {
  import opened Common
  import Paths

  const MaxNameLength: nat := 100

  /** The characters the pattern `[a-zA-Z0-9\-_\.]` accepts (ASCII ranges only). */
  predicate IsSafeChar(c: char)
  {
    'a' <= c <= 'z' || 'A' <= c <= 'Z' || '0' <= c <= '9' || c == '-' || c == '_' || c == '.'
  }

  predicate AllSafe(s: string)
  {
    forall i :: 0 <= i < |s| ==> IsSafeChar(s[i])
  }

  function SafeChar(c: char): char
  {
    if IsSafeChar(c) then c else '_'
  }

  /** The `re.sub` step: one output character per input character, unchanged
      exactly where it was already safe and '_' everywhere else. */
  function ReplaceUnsafe(s: string): (r: string)
    ensures |r| == |s| && AllSafe(r)
    ensures forall i :: 0 <= i < |s| ==> (r[i] == s[i] <==> IsSafeChar(s[i]))
    ensures forall i :: 0 <= i < |s| && !IsSafeChar(s[i]) ==> r[i] == '_'
  {
    seq(|s|, i requires 0 <= i < |s| => SafeChar(s[i]))
  }

  /** `sanitize_filename(filename)`. */
  function SanitizeFilename(filename: string): (r: string)
    ensures AllSafe(r) && '/' !in r
    ensures |r| == Min(|Paths.Basename(filename)|, MaxNameLength)
    ensures r <= ReplaceUnsafe(Paths.Basename(filename))
  {
    var cleaned := ReplaceUnsafe(Paths.Basename(filename));
    var r := Truncate(cleaned, MaxNameLength);
    SafePrefix(cleaned, r);
    r
  }

  /** `s[:n]`. */
  function Truncate(s: string, n: nat): (r: string)
    ensures |r| == Min(|s|, n) && r <= s
  {
    if |s| <= n then s else s[..n]
  }

  /** A prefix of a safe name is safe, and safe names hold no '/'. */
  lemma SafePrefix(s: string, r: string)
    requires AllSafe(s) && r <= s
    ensures AllSafe(r) && '/' !in r
  {
    assert forall i :: 0 <= i < |r| ==> r[i] == s[i];
    assert forall i :: 0 <= i < |r| ==> r[i] != '/';
  }

  /** A name is left untouched exactly when it is already short enough and
      made only of safe characters. */
  lemma SanitizeFixedPoint(filename: string)
    ensures SanitizeFilename(filename) == filename <==> AllSafe(filename) && |filename| <= MaxNameLength
  {
    if AllSafe(filename) && |filename| <= MaxNameLength {
      assert '/' !in filename;
      Paths.BasenameOfPlainName(filename);
      var cleaned := ReplaceUnsafe(filename);
      assert cleaned == filename;
    }
  }

  /** Sanitizing an already sanitized name changes nothing. */
  lemma SanitizeIdempotent(filename: string)
    ensures SanitizeFilename(SanitizeFilename(filename)) == SanitizeFilename(filename)
  {
    SanitizeFixedPoint(SanitizeFilename(filename));
  }

  /** The directory part of a traversal attempt is discarded. */
  lemma SanitizeDropsDirectories()
    ensures SanitizeFilename("../../etc/passwd") == "passwd"
  {
    assert "../../etc/passwd" == "../../etc/" + "passwd";
    Paths.BasenameAfterSlash("../../etc/", "passwd");
    SanitizeFixedPoint("passwd");
  }

  /** `..` is made of safe characters, so it survives sanitizing unchanged. */
  lemma SanitizeKeepsDotDot()
    ensures SanitizeFilename("..") == ".."
  {
    SanitizeFixedPoint("..");
  }
}
