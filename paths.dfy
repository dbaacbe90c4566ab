/**
 * POSIX path splitting and joining, as Python's `os.path.basename`,
 * `os.path.dirname` and `os.path.join` do it on a POSIX host.
 */
module Paths {

  /** Position just after the last '/', or 0 when there is none. */
  function CutAfterLastSlash(p: string): (r: nat)
    ensures r <= |p|
    ensures '/' !in p[r..]
    ensures r > 0 ==> p[r - 1] == '/'
  {
    if p == [] then 0
    else if p[|p| - 1] == '/' then |p|
    else
      var r := CutAfterLastSlash(p[..|p| - 1]);
      assert p[r..] == p[..|p| - 1][r..] + [p[|p| - 1]];
      r
  }

  predicate AllSlashes(h: string)
  {
    forall i :: 0 <= i < |h| ==> h[i] == '/'
  }

  function RStripSlashes(h: string): (r: string)
    ensures |r| <= |h| && r == h[..|r|]
    ensures r == [] || r[|r| - 1] != '/'
    ensures forall i :: |r| <= i < |h| ==> h[i] == '/'
  {
    if h != [] && h[|h| - 1] == '/' then RStripSlashes(h[..|h| - 1]) else h
  }

  /** `os.path.basename(p)`: everything after the last '/'. */
  function Basename(p: string): (r: string)
    ensures '/' !in r
  {
    p[CutAfterLastSlash(p)..]
  }

  /**
   * `os.path.dirname(p)`: everything up to the last '/', with trailing
   * slashes removed unless the head consists of slashes only.
   */
  function Dirname(p: string): string
  {
    var head := p[..CutAfterLastSlash(p)];
    if head != [] && !AllSlashes(head) then RStripSlashes(head) else head
  }

  /** `os.path.join(a, b)` for two components. */
  function Join(a: string, b: string): string
  {
    if |b| > 0 && b[0] == '/' then b
    else if a == [] || a[|a| - 1] == '/' then a + b
    else a + "/" + b
  }

  lemma CutOfAppended(a: string, b: string)
    requires '/' !in b && a != [] && a[|a| - 1] == '/'
    ensures CutAfterLastSlash(a + b) == |a|
  {
    var p := a + b;
    assert p[|a| - 1] == '/';
    assert forall i :: |a| <= i < |p| ==> p[i] == b[i - |a|];
  }

  /** A plain file name joined to any directory is the base name of the result. */
  lemma JoinBasename(a: string, name: string)
    ensures '/' !in name ==> Basename(Join(a, name)) == name
  {
    var j := Join(a, name);
    if '/' in name {
    } else if a == [] {
      assert j == name;
      assert CutAfterLastSlash(name) == 0;
    } else if a[|a| - 1] == '/' {
      CutOfAppended(a, name);
      assert j == a + name;
    } else {
      CutOfAppended(a + "/", name);
      assert j == (a + "/") + name;
    }
  }

  /**
   * Joining a directory name with a plain file name lands in that same
   * directory under that same file name.
   */
  lemma {:induction false} JoinDirname(p: string, name: string)
    requires '/' !in name
    ensures Dirname(Join(Dirname(p), name)) == Dirname(p)
    ensures Basename(Join(Dirname(p), name)) == name
  {
    var d := Dirname(p);
    var head := p[..CutAfterLastSlash(p)];
    var j := Join(d, name);
    if d == [] {
      assert j == name;
      assert CutAfterLastSlash(name) == 0;
    } else if AllSlashes(d) {
      assert j == d + name;
      CutOfAppended(d, name);
      assert j[..|d|] == d;
    } else {
      assert head != [] && !AllSlashes(head);
      assert d[|d| - 1] != '/';
      assert j == (d + "/") + name;
      CutOfAppended(d + "/", name);
      assert j[..|d| + 1] == d + "/";
      assert !AllSlashes(d + "/") by {
        var i :| 0 <= i < |d| && d[i] != '/';
        assert (d + "/")[i] == d[i];
      }
      assert (d + "/")[..|d|] == d;
    }
  }
}
