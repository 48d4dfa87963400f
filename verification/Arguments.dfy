/** Which object an argument means, in terms of the names it is made of: for every command that
    takes a path, a relative one (names joined by slashes) and an absolute one
    (src/ftp/base_session.cpp:384-600, src/ftp/insecure_session.cpp:127-141). */
module Arguments {
  import opened Helpers
  import opened Paths
  import opened PerUser
  import opened Navigation

  predicate ValidPath(c: seq<string>) {
    c != [] && ValidNames(c)
  }

  function Relative(c: seq<string>): string {
    Join(c, "/")
  }

  /** The target is the node with these components. */
  predicate Means(at: Target, node: seq<string>) {
    Clean(at.path) && ValidName(at.name) && node == Components(at.path) + [at.name]
  }

  // ----- paths as strings -----

  lemma SnocOf(c: seq<string>)
    requires ValidPath(c)
    ensures var init, last := c[..|c| - 1], c[|c| - 1];
            c == init + [last] && ValidNames(init) && ValidName(last)
  {
  }

  lemma {:induction false} RelativeIsPlain(c: seq<string>)
    requires ValidPath(c)
    ensures Relative(c) != "" && Relative(c)[0] != '/' && Relative(c)[|Relative(c)| - 1] != '/'
    ensures '/' in Relative(c) <==> |c| > 1
  {
    SnocOf(c);
    var init, last := c[..|c| - 1], c[|c| - 1];
    if init == [] {
      assert c == [last];
    } else {
      RelativeIsPlain(init);
      JoinSnoc(init, last, "/");
    }
  }

  lemma RenderNext(k: seq<string>, name: string)
    ensures Render(k + [name]) == DirJoin(Render(k), name)
  {
    assert (k + [name])[..|k|] == k;
  }

  lemma DirJoinLonger(d: string, rel: string, name: string)
    ensures DirJoin(d, rel + "/" + name) == DirJoin(d, rel) + "/" + name
  {
  }

  lemma BelowIsNotRoot(k: seq<string>)
    requires ValidPath(k)
    ensures Clean(Render(k)) && Render(k) != "/"
  {
    ComponentsOfRender(k);
    assert Components("/") == [];
  }

  /** Going down from a directory by the names one after the other, and all at once. */
  lemma {:induction false} JoinedIsRendered(k: seq<string>, c: seq<string>)
    requires ValidNames(k) && ValidPath(c)
    ensures DirJoin(Render(k), Relative(c)) == Render(k + c)
  {
    SnocOf(c);
    var init, last := c[..|c| - 1], c[|c| - 1];
    if init == [] {
      assert c == [last];
      RenderNext(k, last);
    } else {
      JoinedIsRendered(k, init);
      JoinSnoc(init, last, "/");
      DirJoinLonger(Render(k), Relative(init), last);
      ValidNamesJoin(k, init);
      BelowIsNotRoot(k + init);
      RenderNext(k + init, last);
      assert k + c == k + init + [last];
    }
  }

  /** An absolute path is its names after a slash. */
  lemma AbsoluteIsRelative(c: seq<string>)
    requires ValidPath(c)
    ensures Render(c) == "/" + Relative(c)
  {
    JoinedIsRendered([], c);
    assert [] + c == c;
  }

  /** Cutting an absolute path is taking its last name off. */
  lemma CutOfRendered(c: seq<string>)
    requires ValidPath(c)
    ensures Means(Target(ParentPath(Render(c)), Basename(Render(c))), c)
    ensures '/' in Render(c)[1..] <==> |c| > 1
  {
    SnocOf(c);
    ComponentsOfRender(c);
    ComponentsOfRender(c[..|c| - 1]);
    CleanGlue(Render(c[..|c| - 1]), c[|c| - 1]);
    AbsoluteIsRelative(c);
    RelativeIsPlain(c);
    assert Render(c)[1..] == Relative(c);
  }

  /** The last name is the basename, with the leading slash or without. */
  lemma BasenameOfRelative(c: seq<string>)
    requires ValidPath(c)
    ensures Basename(Relative(c)) == c[|c| - 1]
  {
    SnocOf(c);
    RelativeIsPlain(c);
    if |c| == 1 {
      assert Relative(c) == c[0];
    } else {
      LastSlashAfter("/", Relative(c));
      AbsoluteIsRelative(c);
      CutOfRendered(c);
      assert ("/" + Relative(c))[LastSlash(Relative(c)) + 2..] == Relative(c)[LastSlash(Relative(c)) + 1..];
      assert c == Components(ParentPath(Render(c))) + [Basename(Render(c))];
    }
  }

  // ----- the commands -----

  /** MKD and DELE take a single name in the working directory, and several from the root. */
  lemma MkdMeans(wd: string, c: seq<string>)
    requires Clean(wd) && ValidPath(c)
    ensures Means(MkdTarget(wd, Relative(c)), if |c| == 1 then Components(wd) + c else c)
  {
    RelativeIsPlain(c);
    OneSegmentIsSlashFree(Relative(c));
    if |c| == 1 {
      assert Relative(c) == c[0] && c == [c[0]];
    } else {
      AbsoluteIsRelative(c);
      CutOfRendered(c);
      BasenameOfRelative(c);
      CutName(c);
    }
  }

  /** Of an absolute path they find a single name; see MkdIsGood for longer ones. */
  lemma MkdMeansAbsolute(wd: string, name: string)
    requires ValidName(name)
    ensures Means(MkdTarget(wd, "/" + name), [name])
  {
    var arg := "/" + name;
    OneSegmentIsSlashFree(arg);
    LastSlashIs(arg, 0);
    LastSlashIs("/" + arg, 1);
    assert Components("/") + [name] == [name];
    assert arg[1..] == name;
  }

  lemma CutName(c: seq<string>)
    requires ValidPath(c)
    ensures Basename(Render(c)) == c[|c| - 1]
  {
    CutOfRendered(c);
    assert c == Components(ParentPath(Render(c))) + [Basename(Render(c))];
  }

  /** RMD reads a relative path like them. */
  lemma RmdMeans(wd: string, c: seq<string>)
    requires Clean(wd) && ValidPath(c)
    ensures Means(RmdTarget(wd, Relative(c)), if |c| == 1 then Components(wd) + c else c)
  {
    RelativeIsPlain(c);
    MkdMeans(wd, c);
  }

  /** And an absolute path as it stands, which they do not. */
  lemma RmdMeansAbsolute(wd: string, c: seq<string>)
    requires ValidPath(c)
    ensures Means(RmdTarget(wd, Render(c)), c)
  {
    AbsoluteIsRelative(c);
    OneSegmentIsSlashFree(Render(c));
    CutOfRendered(c);
  }

  lemma StorFileIs(wd: string, c: seq<string>)
    requires Clean(wd) && ValidPath(c)
    ensures StorFile(wd, Relative(c)) == Render(Components(wd) + c)
  {
    RelativeIsPlain(c);
    RenderOfComponents(wd);
    JoinedIsRendered(Components(wd), c);
  }

  lemma BelowIsValid(wd: string, c: seq<string>)
    requires Clean(wd) && ValidPath(c)
    ensures ValidPath(Components(wd) + c)
  {
    RenderOfComponents(wd);
    ValidNamesJoin(Components(wd), c);
  }

  /** STOR takes every relative path in the working directory. */
  lemma StorMeans(wd: string, c: seq<string>)
    requires Clean(wd) && ValidPath(c)
    ensures Means(StorTarget(wd, Relative(c)), Components(wd) + c)
  {
    StorFileIs(wd, c);
    BelowIsValid(wd, c);
    CutOfRendered(Components(wd) + c);
  }

  lemma StorMeansAbsolute(wd: string, c: seq<string>)
    requires ValidPath(c)
    ensures Means(StorTarget(wd, Render(c)), c)
  {
    AbsoluteIsRelative(c);
    CutOfRendered(c);
  }

  /** RETR takes a single name in the working directory, and an absolute path as it stands. */
  lemma RetrMeans(wd: string, c: seq<string>)
    requires Clean(wd) && ValidPath(c)
    ensures |c| == 1 ==> Means(RetrTarget(wd, Relative(c)), Components(wd) + c)
    ensures Means(RetrTarget(wd, Render(c)), c)
  {
    RelativeIsPlain(c);
    OneSegmentIsSlashFree(Relative(c));
    AbsoluteIsRelative(c);
    OneSegmentIsSlashFree(Render(c));
    CutOfRendered(c);
    if |c| == 1 {
      assert Relative(c) == c[0] && c == [c[0]];
    }
  }

  /** Several names are glued to the working directory: at the root they are the path; below
      it, the last name of the directory and the first of the argument become one. */
  lemma RetrMeansGlued(wd: string, c: seq<string>)
    requires Clean(wd) && ValidPath(c) && |c| > 1
    ensures Means(RetrTarget(wd, Relative(c)), Glued(Components(wd), c))
  {
    var g := Glued(Components(wd), c);
    RelativeIsPlain(c);
    OneSegmentIsSlashFree(Relative(c));
    BasenameOfRelative(c);
    RenderOfComponents(wd);
    GluedIsRendered(Components(wd), c);
    CutOfRendered(g);
    CutName(g);
    assert !StartsWith(Relative(c), "/") by {
      assert Relative(c)[..1] != "/";
    }
    assert RetrTarget(wd, Relative(c)) == Target(ParentPath(Render(g)), Basename(Render(g)));
  }

  function Glued(k: seq<string>, c: seq<string>): seq<string>
    requires |c| > 1
  {
    if k == [] then c else k[..|k| - 1] + ([k[|k| - 1] + c[0]] + c[1..])
  }

  lemma GluedIsRendered(k: seq<string>, c: seq<string>)
    requires ValidNames(k) && ValidPath(c) && |c| > 1
    ensures var g := Glued(k, c);
            ValidPath(g) && g[|g| - 1] == c[|c| - 1] && Render(k) + Relative(c) == Render(g)
  {
    if k == [] {
      AbsoluteIsRelative(c);
    } else {
      GluedBelow(k[..|k| - 1], k[|k| - 1], c, [k[|k| - 1] + c[0]] + c[1..]);
      SnocOf(k);
    }
  }

  lemma GluedBelow(d: seq<string>, last: string, c: seq<string>, h: seq<string>)
    requires ValidNames(d) && ValidName(last) && ValidPath(c) && |c| > 1 && h == [last + c[0]] + c[1..]
    ensures ValidPath(d + h) && (d + h)[|d + h| - 1] == c[|c| - 1]
    ensures Render(d + [last]) + Relative(c) == Render(d + h)
  {
    HeadIsGlued(last, c);
    ValidNamesJoin(d, h);
    JoinedIsRendered(d, h);
    RenderNext(d, last);
    DirJoinMore(Render(d), last, Relative(c));
  }

  lemma DirJoinMore(d: string, name: string, more: string)
    ensures DirJoin(d, name) + more == DirJoin(d, name + more)
  {
  }

  lemma HeadIsGlued(last: string, c: seq<string>)
    requires ValidName(last) && ValidPath(c) && |c| > 1
    ensures var h := [last + c[0]] + c[1..];
            ValidPath(h) && Relative(h) == last + Relative(c)
  {
    var h := [last + c[0]] + c[1..];
    assert ValidName(c[0]) && ValidName(last + c[0]);
    JoinCons(last + c[0], c[1..], "/");
    JoinCons(c[0], c[1..], "/");
    assert c == [c[0]] + c[1..];
  }

  /** SIZE takes an absolute path as it stands, and of a relative one the last name at the root. */
  lemma SizeMeans(c: seq<string>)
    requires ValidPath(c)
    ensures Means(SizeTarget(Render(c)), c)
    ensures Means(SizeTarget(Relative(c)), [c[|c| - 1]])
  {
    CutOfRendered(c);
    RelativeIsPlain(c);
    BasenameOfRelative(c);
    SnocOf(c);
    assert Components("/") + [c[|c| - 1]] == [c[|c| - 1]];
  }

  /** CWD takes a relative path from the working directory, name by name, and an absolute one
      from the root. */
  lemma CwdMeans(wd: string, c: seq<string>)
    requires ValidPath(c)
    ensures Base(wd, Relative(c)) == wd && Segments(Relative(c)) == c
    ensures Base(wd, Render(c)) == "/" && Segments(Render(c)) == c
  {
    RelativeIsPlain(c);
    AbsoluteIsRelative(c);
    assert c != [""] by {
      assert ValidName(c[0]);
    }
    SplitJoin(c, '/');
    PiecesOfCons("", Relative(c), '/');
    assert "" + ['/'] + Relative(c) == Render(c);
    PiecesOfJoin(c, '/');
    assert ([""] + c)[1..] == c;
  }
}
