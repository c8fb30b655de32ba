/** Python's `os.path.dirname` and `os.path.basename` for POSIX paths. */
module PosixPath {

  /** One past the index of the last '/' in `p` (0 when there is none): `p.rfind('/') + 1`. */
  function SepEnd(p: string): (i: nat)
    ensures i <= |p|
    ensures i > 0 ==> p[i - 1] == '/'
    ensures forall k :: i <= k < |p| ==> p[k] != '/'
  {
    if p == [] then 0
    else if p[|p| - 1] == '/' then |p|
    else SepEnd(p[..|p| - 1])
  }

  /** `s` holds no '/': it is a single path component. */
  predicate NoSep(s: string) {
    forall k :: 0 <= k < |s| ==> s[k] != '/'
  }

  predicate AllSep(s: string) {
    forall k :: 0 <= k < |s| ==> s[k] == '/'
  }

  /** `s.rstrip('/')`. */
  function RStripSep(s: string): (r: string)
    ensures |r| <= |s| && r == s[..|r|]
    ensures r == [] || r[|r| - 1] != '/'
  {
    if s != [] && s[|s| - 1] == '/' then RStripSep(s[..|s| - 1]) else s
  }

  /** `os.path.dirname(p)`: the head up to the last '/', trailing slashes removed unless it is all slashes. */
  function Dirname(p: string): string {
    var head := p[..SepEnd(p)];
    if head != [] && !AllSep(head) then RStripSep(head) else head
  }

  /** `os.path.basename(p)`: everything after the last '/'. */
  function Basename(p: string): (name: string)
    ensures NoSep(name)
    ensures |name| <= |p| && name == p[|p| - |name|..]
  {
    p[SepEnd(p)..]
  }

  /** The position just past the separator is the only one the ensures of SepEnd allow. */
  lemma SepEndOfJoin(d: string, b: string)
    requires NoSep(b)
    ensures SepEnd(d + "/" + b) == |d| + 1
  {
    var p := d + "/" + b;
    var i := SepEnd(p);
    assert p[|d|] == '/';
  }

  /**
   * Splitting `d/b` at its last separator gives back `d` and `b`, when `b`
   * holds no '/' and `d` does not end in one.
   */
  lemma SplitJoin(d: string, b: string)
    requires NoSep(b)
    requires d != [] && d[|d| - 1] != '/'
    ensures Dirname(d + "/" + b) == d
    ensures Basename(d + "/" + b) == b
  {
    var p := d + "/" + b;
    SepEndOfJoin(d, b);
    var head := p[..|d| + 1];
    assert head == d + "/";
    assert head[|d| - 1] != '/';
    assert RStripSep(head) == RStripSep(d) == d;
    assert p[|d| + 1..] == b;
  }
}
