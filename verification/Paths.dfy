/** Paths as strings (src/helpers.cpp, get_basename and get_parent_path) and the component
    sequences they stand for.  The table has no directory tree: a parent is found by cutting
    the path string, so everything rests on cutting and gluing being inverse. */
module Paths {

  /** Index of the last '/' among the first `n` characters, or -1. */
  function LastSlashBefore(p: string, n: nat): (r: int)
    requires n <= |p|
    ensures -1 <= r < n
    ensures r >= 0 ==> p[r] == '/'
    ensures forall k :: r < k < n ==> p[k] != '/'
  {
    if n == 0 then -1 else if p[n - 1] == '/' then n - 1 else LastSlashBefore(p, n - 1)
  }

  function LastSlash(p: string): (r: int)
    ensures -1 <= r < |p|
    ensures r >= 0 ==> p[r] == '/'
    ensures forall k :: r < k < |p| ==> p[k] != '/'
  {
    LastSlashBefore(p, |p|)
  }

  lemma LastSlashIs(p: string, i: int)
    requires -1 <= i < |p|
    requires i >= 0 ==> p[i] == '/'
    requires forall k :: i < k < |p| ==> p[k] != '/'
    ensures LastSlash(p) == i
  {
  }

  function Basename(p: string): (r: string)
    ensures '/' !in r
  {
    if LastSlash(p) < 0 then p else p[LastSlash(p) + 1..]
  }

  /** The result is always absolute. */
  function ParentPath(p: string): (r: string)
    ensures r != "" && r[0] == '/'
  {
    if |p| <= 1 || p[0] != '/' then "/"
    else if LastSlash(p) > 1 then p[..LastSlash(p)]
    else p[..1]
  }

  method GetBasename(path: string) returns (name: string)
    ensures name == Basename(path)
  {
    if path == "" {
      return "";
    }
    if '/' !in path {
      LastSlashIs(path, -1);
      return path;
    }
    var i := |path| - 1;
    while path[i] != '/'
      invariant 0 <= i < |path|
      invariant forall k :: i < k < |path| ==> path[k] != '/'
      decreases i
    {
      i := i - 1;
    }
    LastSlashIs(path, i);
    return path[i + 1..];
  }

  method GetParentPath(path: string) returns (parent: string)
    ensures parent == ParentPath(path)
  {
    if |path| <= 1 {
      return "/";
    }
    if path[0] != '/' {
      return "/";
    }
    var i := |path| - 1;
    while i > 1
      invariant 1 <= i < |path|
      invariant forall k :: i < k < |path| ==> path[k] != '/'
    {
      if path[i] == '/' {
        break;
      }
      i := i - 1;
    }
    if path[i] == '/' {
      LastSlashIs(path, i);
    } else {
      LastSlashIs(path, 0);
    }
    return path[..i];
  }

  /** The path of `name` inside directory `d`, as remove_fs_object and run_STOR build it. */
  function DirJoin(d: string, name: string): string {
    (if d == "/" then d else d + "/") + name
  }

  predicate Absolute(p: string) {
    p != "" && p[0] == '/'
  }

  predicate ValidName(n: string) {
    n != "" && '/' !in n
  }

  /** Cutting a glued path gives the parts back, for any absolute directory. */
  lemma CutOfGlue(d: string, name: string)
    requires Absolute(d) && '/' !in name
    ensures ParentPath(DirJoin(d, name)) == d && Basename(DirJoin(d, name)) == name
  {
    var p := DirJoin(d, name);
    var i := if d == "/" then 0 else |d|;
    LastSlashIs(p, i);
    assert p[i + 1..] == name;
    if d != "/" {
      assert p[..i] == d;
    }
  }

  /** Gluing the cut parts of an absolute path restores it exactly when its last slash is not
      at index 1. */
  lemma GlueOfCut(p: string)
    requires Absolute(p)
    ensures DirJoin(ParentPath(p), Basename(p)) == p <==> LastSlash(p) != 1
  {
    var i := LastSlash(p);
    if |p| > 1 {
      if i > 1 {
        assert p[..i] + "/" + p[i + 1..] == p;
      } else {
        assert p[..1] == "/";
        assert |DirJoin("/", p[i + 1..])| == |p| - i;
        if i == 0 {
          assert "/" + p[1..] == p;
        }
      }
    }
  }

  lemma LastSlashAtOne(p: string)
    requires Absolute(p) && LastSlash(p) == 1
    ensures p == "//" + Basename(p) && ParentPath(p) == "/"
  {
    assert p[..2] == "//" && p == p[..2] + p[2..];
  }

  /** The parent of an absolute path is a prefix of it. */
  lemma ParentIsPrefix(p: string)
    requires Absolute(p)
    ensures ParentPath(p) <= p
    ensures |p| > 1 ==> |ParentPath(p)| < |p|
  {
  }

  // ----- clean paths and their components -----

  /** Absolute, no empty component, no trailing slash except at the root. */
  predicate Clean(p: string) {
    || p == "/"
    || (|p| > 1 && p[0] == '/' && forall i :: 0 <= i < |p| && p[i] == '/' ==> i + 1 < |p| && p[i + 1] != '/')
  }

  lemma CleanCut(p: string)
    requires Clean(p) && p != "/"
    ensures Clean(ParentPath(p)) && ValidName(Basename(p))
    ensures DirJoin(ParentPath(p), Basename(p)) == p
    ensures |ParentPath(p)| < |p|
  {
    GlueOfCut(p);
    var q := ParentPath(p);
    if q != "/" {
      forall i | 0 <= i < |q| && q[i] == '/'
        ensures i + 1 < |q| && q[i + 1] != '/'
      {
        assert p[i] == '/';
      }
    }
  }

  lemma CleanSecond(p: string)
    requires Clean(p)
    ensures |p| > 1 ==> p[1] != '/'
    ensures LastSlash(p) != 1
  {
    if |p| > 1 {
      assert p[0] == '/';
    }
  }

  lemma CleanGlue(d: string, name: string)
    requires Clean(d) && ValidName(name)
    ensures Clean(DirJoin(d, name)) && DirJoin(d, name) != "/"
    ensures ParentPath(DirJoin(d, name)) == d && Basename(DirJoin(d, name)) == name
  {
    CutOfGlue(d, name);
    var p := DirJoin(d, name);
    var k := |p| - |name|;
    assert p[k..] == name;
    forall i | 0 <= i < |p| && p[i] == '/'
      ensures i + 1 < |p| && p[i + 1] != '/'
    {
      if i == k - 1 {
        assert p[k] == name[0];
      } else if i < k {
        assert d[i] == p[i] && d != "/" && i < |d|;
        assert d[i + 1] == p[i + 1];
      }
    }
  }

  function Components(p: string): seq<string>
    requires Clean(p)
    decreases |p|
  {
    if p == "/" then []
    else CleanCut(p); Components(ParentPath(p)) + [Basename(p)]
  }

  function Render(c: seq<string>): string {
    if c == [] then "/" else DirJoin(Render(c[..|c| - 1]), c[|c| - 1])
  }

  predicate ValidNames(c: seq<string>) {
    forall k :: 0 <= k < |c| ==> ValidName(c[k])
  }

  /** Clean path strings and sequences of valid names are the same thing. */
  lemma {:induction false} RenderOfComponents(p: string)
    requires Clean(p)
    ensures ValidNames(Components(p)) && Render(Components(p)) == p
    decreases |p|
  {
    if p != "/" {
      CleanCut(p);
      RenderOfComponents(ParentPath(p));
      var c := Components(p);
      assert c[..|c| - 1] == Components(ParentPath(p));
    }
  }

  lemma {:induction false} ComponentsOfRender(c: seq<string>)
    requires ValidNames(c)
    ensures Clean(Render(c)) && Components(Render(c)) == c
  {
    if c != [] {
      var init, last := c[..|c| - 1], c[|c| - 1];
      assert ValidName(last) && c == init + [last];
      ComponentsOfRender(init);
      ComponentsOfGlue(Render(init), last);
    }
  }

  lemma ComponentsOfGlue(d: string, name: string)
    requires Clean(d) && ValidName(name)
    ensures Clean(DirJoin(d, name))
    ensures Components(DirJoin(d, name)) == Components(d) + [name]
  {
    CleanGlue(d, name);
  }

  /** `p` is the directory with full path `d` or lies below it. */
  predicate Under(d: string, p: string) {
    p == d || (if d == "/" then d else d + "/") <= p
  }

  /** Lying below, on strings, is having the components as a prefix. */
  lemma {:induction false} UnderIsPrefix(d: string, p: string)
    requires Clean(d) && Clean(p)
    ensures Under(d, p) <==> Components(d) <= Components(p)
    decreases |p|
  {
    if p != "/" && p != d {
      CleanCut(p);
      UnderIsPrefix(d, ParentPath(p));
      UnderParent(d, p);
      RenderOfComponents(d);
      RenderOfComponents(p);
      PrefixOfSnoc(Components(d), Components(ParentPath(p)), Basename(p));
    } else if d != "/" {
      assert |Components(d)| > 0;
    }
  }

  lemma PrefixOfSnoc(c: seq<string>, q: seq<string>, n: string)
    requires c != q + [n]
    ensures c <= q + [n] <==> c <= q
  {
    assert c <= q + [n] && |c| == |q| + 1 ==> c == q + [n];
  }

  lemma UnderParent(d: string, p: string)
    requires Clean(d) && Clean(p) && p != "/" && p != d
    ensures Under(d, p) <==> Under(d, ParentPath(p))
  {
    CleanCut(p);
    var q, n := ParentPath(p), Basename(p);
    var pre := if d == "/" then d else d + "/";
    assert |p| == |q| + (if q == "/" then 0 else 1) + |n|;
    if pre <= p && d != "/" {
      assert p[|d|] == '/' && |d| <= LastSlash(p);
      if |d| < LastSlash(p) {
        assert q[..|d| + 1] == pre;
      } else {
        assert p[..|d|] == d;
        assert q == d;
      }
    }
    if pre <= q {
      assert q <= p;
    }
    if q == d && d != "/" {
      assert p[..|d| + 1] == pre;
    }
  }
}
