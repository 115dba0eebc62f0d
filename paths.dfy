/** The parts of Python's `posixpath` the pipeline uses to build and take apart paths:
    `join` of two components, `dirname` and `basename`. Paths are plain strings; nothing
    here looks at a filesystem. */
module Paths {
  import opened Text

  /** Index just past the last '/' of `p`, or 0 when `p` has none. */
  function LastSep(p: string): (i: nat)
    ensures i <= |p|
    ensures i > 0 ==> p[i - 1] == '/'
    ensures forall k :: i <= k < |p| ==> p[k] != '/'
  {
    if |p| == 0 then 0 else if p[|p| - 1] == '/' then |p| else LastSep(p[..|p| - 1])
  }

  /** `os.path.basename(p)`: the text after the last '/'. */
  function Basename(p: string): (b: string)
    ensures '/' !in b
    ensures HasSuffix(p, b)
    ensures |b| < |p| ==> p[|p| - |b| - 1] == '/'
  {
    p[LastSep(p)..]
  }

  predicate AllSlashes(s: string)
  {
    forall k :: 0 <= k < |s| ==> s[k] == '/'
  }

  /** `os.path.dirname(p)`: the text up to the last '/', with trailing slashes removed
      unless it consists of slashes only. */
  function Dirname(p: string): (d: string)
    ensures IsPrefix(d, p)
  {
    var head := p[..LastSep(p)];
    if head != "" && !AllSlashes(head) then
      var d := StripRight(head, {'/'});
      assert p[..|d|] == head[..|d|];
      d
    else head
  }

  /** `os.path.join(a, b)`: an absolute `b` replaces `a`; otherwise one '/' separates them. */
  function Join(a: string, b: string): string
  {
    if |b| > 0 && b[0] == '/' then b
    else if |a| == 0 || a[|a| - 1] == '/' then a + b
    else a + "/" + b
  }

  lemma LastSepAfter(a: string, b: string)
    requires |a| > 0 && a[|a| - 1] == '/' && '/' !in b
    ensures LastSep(a + b) == |a|
    decreases |b|
  {
    if |b| > 0 {
      assert (a + b)[..|a + b| - 1] == a + b[..|b| - 1];
      LastSepAfter(a, b[..|b| - 1]);
    } else {
      assert a + b == a;
    }
  }

  /** The last component of a joined path is the name joined on. */
  lemma BasenameJoin(dir: string, name: string)
    requires '/' !in name && |name| > 0
    requires |dir| > 0
    ensures Basename(Join(dir, name)) == name
  {
    if dir[|dir| - 1] == '/' {
      LastSepAfter(dir, name);
    } else {
      assert dir + "/" + name == (dir + "/") + name;
      LastSepAfter(dir + "/", name);
    }
  }

  /** Taking the directory of a joined path gives back the directory joined on. */
  lemma DirnameJoin(dir: string, name: string)
    requires '/' !in name && |name| > 0
    requires |dir| > 0 && dir[|dir| - 1] != '/'
    ensures Dirname(Join(dir, name)) == dir
  {
    var p := dir + "/" + name;
    assert p == (dir + "/") + name;
    LastSepAfter(dir + "/", name);
    var head := p[..|dir| + 1];
    assert head == dir + "/";
    assert !AllSlashes(head) by { assert head[|dir| - 1] != '/'; }
    assert head[..|head| - 1] == dir;
  }

  /** What `dirname` returns is empty, slashes only, or ends with something else. */
  lemma DirnameShape(p: string)
    ensures var d := Dirname(p); d == "" || AllSlashes(d) || d[|d| - 1] != '/'
  {
  }

  lemma {:induction false} LastSepNone(name: string)
    requires '/' !in name
    ensures LastSep(name) == 0
    decreases |name|
  {
    if |name| > 0 {
      assert '/' !in name[..|name| - 1];
      LastSepNone(name[..|name| - 1]);
    }
  }

  /** `DirnameJoin` for every directory `dirname` can return. */
  lemma DirnameJoinAny(dir: string, name: string)
    requires '/' !in name && |name| > 0
    requires dir == "" || AllSlashes(dir) || dir[|dir| - 1] != '/'
    ensures Dirname(Join(dir, name)) == dir
  {
    if dir == "" {
      assert Join(dir, name) == name;
      LastSepNone(name);
    } else if AllSlashes(dir) {
      assert dir[|dir| - 1] == '/';
      LastSepAfter(dir, name);
      assert (dir + name)[..|dir|] == dir;
    } else {
      DirnameJoin(dir, name);
    }
  }

  /** A name joined onto the `dirname` of a path sits in that directory. */
  lemma DirnameOfJoinedName(p: string, name: string)
    requires '/' !in name && |name| > 0
    ensures Dirname(Join(Dirname(p), name)) == Dirname(p)
  {
    DirnameShape(p);
    DirnameJoinAny(Dirname(p), name);
  }
}
