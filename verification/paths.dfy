/** The two pieces of path handling the bots depend on: `os.path.basename`
    (POSIX rules) and `PurePath.stem`. Paths are plain strings; directories
    and the filesystem itself are not modelled. */
module Paths {

  /** `os.path.basename` on POSIX: the part of `p` after its last '/'. */
  function Basename(p: string): (b: string)
    ensures '/' !in b
    ensures |b| <= |p| && b == p[|p| - |b|..]
    ensures |b| < |p| ==> p[|p| - |b| - 1] == '/'
  {
    if p == [] || p[|p| - 1] == '/' then []
    else
      var q := p[..|p| - 1];
      var bq := Basename(q);
      assert q[|q| - |bq|..] + [p[|p| - 1]] == p[|p| - |bq| - 1..];
      bq + [p[|p| - 1]]
  }

  /** A string without '/' is its own base name. */
  lemma BasenameOfPlainName(p: string)
    requires '/' !in p
    ensures Basename(p) == p
  {
  }

  /** The base name of `dir + name`, where `dir` ends in '/' and `name` has
      no '/', is `name`. */
  lemma BasenameAfterSlash(dir: string, name: string)
    requires dir != [] && dir[|dir| - 1] == '/'
    requires '/' !in name
    ensures Basename(dir + name) == name
  {
    var p := dir + name;
    assert p[|dir| - 1] == '/';
    assert forall k :: |dir| <= k < |p| ==> p[k] == name[k - |dir|];
    assert p[|dir|..] == name;
  }

  /** `str.rfind('.')`: the index of the last '.' in `name`, or -1. */
  function LastDot(name: string): (i: int)
    ensures -1 <= i < |name|
    ensures i >= 0 ==> name[i] == '.'
    ensures forall k :: i < k < |name| ==> name[k] != '.'
  {
    if name == [] then -1
    else if name[|name| - 1] == '.' then |name| - 1
    else LastDot(name[..|name| - 1])
  }

  /** `PurePath.stem` of a final path component: the name without its
      suffix, where the suffix starts at the last '.' provided that dot is
      neither the first nor the last character of the name. */
  function Stem(name: string): (s: string)
    ensures |s| <= |name| && s == name[..|s|]
    ensures s != name <==> 0 < LastDot(name) < |name| - 1
    ensures s != name ==> |s| == LastDot(name) && name[|s|] == '.'
    ensures s != name ==> forall k :: |s| < k < |name| ==> name[k] != '.'
  {
    var i := LastDot(name);
    if 0 < i < |name| - 1 then name[..i] else name
  }

  /** The stem of `x.mp4` is `x` for every non-empty `x`: this is how each
      clip's `clip_path.stem` recovers the name it was written under. */
  lemma StemOfMp4(x: string)
    requires x != []
    ensures Stem(x + ".mp4") == x
  {
    var name := x + ".mp4";
    var i := LastDot(name);
    assert name[|x|] == '.';
    assert name[|x| + 1] == 'm' && name[|x| + 2] == 'p' && name[|x| + 3] == '4';
    assert i == |x|;
    assert name[..i] == x;
  }
}
