/** The POSIX path operations of Python's os.path that the report code uses. */
module Paths {

  /** Index just after the last '/' of `p` (`p.rfind('/') + 1`), 0 when there is none. */
  function AfterLastSlash(p: string): (i: nat)
    ensures i <= |p|
    ensures '/' !in p[i..]
    ensures i == 0 || p[i - 1] == '/'
  {
    if p == [] then 0
    else if p[|p| - 1] == '/' then |p|
    else
      var i := AfterLastSlash(p[..|p| - 1]);
      assert p[i..] == p[..|p| - 1][i..] + [p[|p| - 1]];
      i
  }

  /** `os.path.basename(p)`: what follows the last '/'. */
  function Basename(p: string): (r: string)
    ensures '/' !in r
    ensures |r| <= |p| && p == p[..|p| - |r|] + r
    ensures |r| == |p| || p[|p| - |r| - 1] == '/'
  {
    var i := AfterLastSlash(p);
    assert p == p[..i] + p[i..];
    p[i..]
  }

  predicate AllSlashes(s: string)
  {
    forall i :: 0 <= i < |s| ==> s[i] == '/'
  }

  /** `s.rstrip('/')`. */
  function RStripSlashes(s: string): (r: string)
    ensures r <= s && AllSlashes(s[|r|..])
    ensures r == [] || r[|r| - 1] != '/'
  {
    if s != [] && s[|s| - 1] == '/' then
      var r := RStripSlashes(s[..|s| - 1]);
      assert s[|r|..] == s[..|s| - 1][|r|..] + ['/'];
      r
    else s
  }

  /** `os.path.dirname(p)`: everything up to the last '/', with the trailing slashes removed
      unless nothing but slashes is left. */
  function Dirname(p: string): (r: string)
    ensures r <= p[..AfterLastSlash(p)]
    ensures AllSlashes(p[|r|..AfterLastSlash(p)])
  {
    var head := p[..AfterLastSlash(p)];
    if head != [] && !AllSlashes(head) then RStripSlashes(head) else head
  }

  /** `os.path.join(a, b)` for two components. */
  function PathJoin(a: string, b: string): string
  {
    if |b| > 0 && b[0] == '/' then b
    else if a == [] || a[|a| - 1] == '/' then a + b
    else a + "/" + b
  }

  /** Text added after a non-empty name is added after the joined path: whether the name is
      absolute and whether a `/` is inserted depend on the directory and the name's start
      only. */
  lemma JoinAppend(a: string, b: string, c: string)
    requires b != []
    ensures PathJoin(a, b + c) == PathJoin(a, b) + c
  {
    assert (b + c)[0] == b[0];
    if b[0] == '/' {
      assert PathJoin(a, b + c) == b + c;
    } else if a == [] || a[|a| - 1] == '/' {
      assert a + (b + c) == (a + b) + c;
    } else {
      assert a + "/" + (b + c) == (a + "/" + b) + c;
    }
  }

  /** Joining a name without '/' onto a directory: the name is the basename of the result. */
  lemma BasenameOfJoin(a: string, b: string)
    requires '/' !in b
    ensures Basename(PathJoin(a, b)) == b
  {
    var p := PathJoin(a, b);
    assert p[|p| - |b|..] == b;
    assert |p| == |b| || p[|p| - |b| - 1] == '/';
  }

  /** Joining a name without '/' onto a directory that does not end in '/': the directory is
      the dirname of the result. */
  lemma DirnameOfJoin(a: string, b: string)
    requires a != [] && a[|a| - 1] != '/'
    requires '/' !in b
    ensures Dirname(PathJoin(a, b)) == a
  {
    var p := PathJoin(a, b);
    assert p == a + "/" + b;
    BasenameOfJoin(a, b);
    var i := AfterLastSlash(p);
    assert |p[i..]| == |b|;
    var head := p[..i];
    assert head == a + "/";
    assert !AllSlashes(head) by {
      assert head[|a| - 1] != '/';
    }
    var r := RStripSlashes(head);
    assert RStripSlashes(a) == a;
    assert r == a;
  }
}
