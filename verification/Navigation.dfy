/** Which object a command's argument names, and where CWD leads
    (src/ftp/base_session.cpp:256-508, 569-586 and src/ftp/insecure_session.cpp:127-141). */
module Navigation {
  import opened Helpers
  import opened Paths
  import opened FsTable
  import opened FsRuns
  import opened Tree
  import opened PerUser

  /** An object as the table names it: the directory it is in, and its name there. */
  datatype Target = Target(path: string, name: string)

  predicate OneSegment(arg: string) {
    |Split(arg, "/")| == 1
  }

  /** MKD and DELE: a single name, or a path taken from the root. */
  function MkdTarget(wd: string, arg: string): Target {
    if OneSegment(arg) then Target(wd, arg) else Target(ParentPath("/" + arg), Basename(arg))
  }

  function RmdTarget(wd: string, arg: string): Target {
    if OneSegment(arg) then Target(wd, arg)
    else if arg != "" && arg[0] != '/' then Target(ParentPath("/" + arg), Basename(arg))
    else Target(ParentPath(arg), Basename(arg))
  }

  /** The full path STOR remembers. */
  function StorFile(wd: string, arg: string): string {
    if arg != "" && arg[0] == '/' then arg else DirJoin(wd, arg)
  }

  function StorTarget(wd: string, arg: string): Target {
    Target(ParentPath(StorFile(wd, arg)), Basename(StorFile(wd, arg)))
  }

  /** The third form glues without a separator. */
  function RetrTarget(wd: string, arg: string): Target {
    if OneSegment(arg) then Target(wd, arg)
    else if StartsWith(arg, "/") then Target(ParentPath(arg), Basename(arg))
    else Target(ParentPath(wd + arg), Basename(arg))
  }

  // ----- what the arguments name -----

  lemma OneSegmentIsSlashFree(arg: string)
    requires arg != ""
    ensures OneSegment(arg) <==> '/' !in arg
  {
    SplitSingle(arg, '/');
  }

  lemma LastSlashAfter(head: string, arg: string)
    requires LastSlash(arg) >= 0
    ensures LastSlash(head + arg) == |head| + LastSlash(arg)
  {
    LastSlashIs(head + arg, |head| + LastSlash(arg));
  }

  /** From the root the two ways of gluing coincide. */
  lemma AgreeAtRoot(arg: string)
    requires arg != "" && '/' in arg && (arg[0] != '/' || arg == "/")
    ensures StorTarget("/", arg) == Target(ParentPath("/" + arg), Basename(arg))
  {
    if arg == "/" {
      assert "/" + arg == "//";
      LastSlashIs("//", 1);
      LastSlashIs("/", 0);
    } else {
      LastSlashAfter("/", arg);
      assert ("/" + arg)[LastSlash(arg) + 2..] == arg[LastSlash(arg) + 1..];
    }
  }

  /** Below it, the missing separator makes the directory one character shorter. */
  lemma DifferBelowRoot(wd: string, arg: string)
    requires Absolute(wd) && wd != "/" && arg != "" && '/' in arg && (arg[0] != '/' || arg == "/")
    ensures StorTarget(wd, arg).path != ParentPath(wd + arg)
  {
    LastSlashAfter(wd, arg);
    var shorter := ParentPath(wd + arg);
    assert |shorter| == |wd| + LastSlash(arg);
    if arg != "/" {
      LastSlashAfter(wd + "/", arg);
      assert |StorTarget(wd, arg).path| == |wd| + 1 + LastSlash(arg);
    }
  }

  /** STOR and RETR of one argument from one directory reach the same row, except when the
      argument is a relative path of several segments, or "/", and the directory is not the root. */
  lemma StorAndRetrAgree(wd: string, arg: string)
    requires Absolute(wd) && arg != ""
    ensures StorTarget(wd, arg) == RetrTarget(wd, arg) <==>
            '/' !in arg || (arg[0] == '/' && |arg| > 1) || wd == "/"
  {
    OneSegmentIsSlashFree(arg);
    if '/' !in arg {
      CutOfGlue(wd, arg);
    } else if StartsWith(arg, "/") {
    } else {
      assert arg[0] != '/' || arg == "/" by {
        assert arg[0] == '/' ==> arg[..1] == "/";
      }
      if wd == "/" {
        AgreeAtRoot(arg);
      } else {
        DifferBelowRoot(wd, arg);
      }
    }
  }

  /** SIZE takes every argument from the root. */
  function SizeTarget(arg: string): Target {
    Target(ParentPath(arg), Basename(arg))
  }

  /** SIZE and RETR of one argument mean the same object only for absolute paths and, at the
      root, for single names. */
  lemma SizeAndRetrAgree(wd: string, arg: string)
    requires Absolute(wd) && arg != ""
    ensures SizeTarget(arg) == RetrTarget(wd, arg) <==>
            (arg[0] == '/' && |arg| > 1) || (wd == "/" && ('/' !in arg || arg == "/"))
  {
    OneSegmentIsSlashFree(arg);
    if '/' !in arg {
      assert Basename(arg) == arg;
    } else if !StartsWith(arg, "/") {
      assert arg[0] != '/' || arg == "/" by {
        assert arg[0] == '/' ==> arg[..1] == "/";
      }
      LastSlashAfter(wd, arg);
    }
  }

  /** Two slashes in all, the first of them leading: "/x/y". */
  predicate RootedPair(arg: string) {
    LastSlash(arg) > 0 && LastSlashBefore(arg, LastSlash(arg)) == 0
  }

  /** MKD keeps the tree clean exactly when its argument does not end in '/' and is not "/x/y". */
  lemma MkdIsGood(wd: string, arg: string)
    requires Clean(wd) && arg != ""
    ensures var at := MkdTarget(wd, arg);
            GoodTarget(at.name, at.path) <==> arg[|arg| - 1] != '/' && !RootedPair(arg)
  {
    OneSegmentIsSlashFree(arg);
    CleanSecond(wd);
    if '/' in arg {
      assert Basename(arg) == "" <==> LastSlash(arg) == |arg| - 1;
      ParentOfRooted(arg);
    }
  }

  /** The same for STOR, whose argument "/x/f" is fine and "//x/f" is not. */
  lemma StorIsGood(wd: string, arg: string)
    requires Clean(wd) && arg != ""
    ensures var at := StorTarget(wd, arg);
            GoodTarget(at.name, at.path) <==> arg[|arg| - 1] != '/' && !DoubleRooted(arg)
  {
    var file := StorFile(wd, arg);
    assert Basename(file) == "" <==> file[|file| - 1] == '/';
    if arg[0] != '/' {
      CleanCanonical(wd);
      JoinCanonical(wd, arg);
      CanonicalSlash(file);
      CanonicalSlash(ParentPath(file));
    }
  }

  /** "//x/f": an absolute argument whose parent path is "//x". */
  predicate DoubleRooted(arg: string) {
    Absolute(arg) && LastSlash(ParentPath(arg)) == 1
  }

  lemma CleanCanonical(p: string)
    requires Clean(p)
    ensures Canonical(p)
  {
    CleanSecond(p);
  }

  lemma JoinCanonical(wd: string, arg: string)
    requires Canonical(wd) && (wd == "/" ==> arg == "" || arg[0] != '/')
    ensures Canonical(DirJoin(wd, arg))
  {
  }

  lemma ParentOfRooted(arg: string)
    requires '/' in arg
    ensures Absolute(ParentPath("/" + arg))
    ensures LastSlash(ParentPath("/" + arg)) == 1 <==> RootedPair(arg)
  {
    var n, q := LastSlash(arg), ParentPath("/" + arg);
    LastSlashAfter("/", arg);
    if n > 0 {
      assert q == ("/" + arg)[..n + 1];
      LastSlashIs(q, LastSlashBefore(arg, n) + 1);
    } else {
      assert q == "/";
    }
  }

  lemma TargetsAreSlashFree(wd: string, arg: string)
    requires arg != ""
    ensures '/' !in MkdTarget(wd, arg).name && '/' !in RmdTarget(wd, arg).name
    ensures '/' !in RetrTarget(wd, arg).name && '/' !in StorTarget(wd, arg).name
  {
    OneSegmentIsSlashFree(arg);
  }

  // ----- CWD -----

  /** The string the walk has built after some segments, with the root written as "". */
  function Walked(base: string, segs: seq<string>): string {
    if segs == [] then (if base == "/" then "" else base)
    else Walked(base, segs[..|segs| - 1]) + "/" + segs[|segs| - 1]
  }

  /** The path in which the walk looks for segment `i`. */
  function LookedIn(base: string, segs: seq<string>, i: nat): string
    requires i < |segs|
  {
    if i == 0 then base else Walked(base, segs[..i])
  }

  predicate WalkFinds(rows: Rows, user: string, base: string, segs: seq<string>, i: nat)
    requires i < |segs|
  {
    Lookup(rows, user, segs[i], LookedIn(base, segs, i)).Some?
  }

  predicate WalkOk(rows: Rows, user: string, base: string, segs: seq<string>) {
    forall i :: 0 <= i < |segs| ==> WalkFinds(rows, user, base, segs, i)
  }

  function WalkEnd(base: string, segs: seq<string>): string {
    if segs == [] then base
    else
      var p := Walked(base, segs[..|segs| - 1]);
      (if p == "/" then p else p + "/") + segs[|segs| - 1]
  }

  function Base(wd: string, arg: string): string {
    if arg != "" && arg[0] == '/' then "/" else wd
  }

  function Segments(arg: string): seq<string> {
    var all := Split(arg, "/");
    if arg != "" && arg[0] == '/' && all != [] then all[1..] else all
  }

  /** The new working directory, or None for a refusal. */
  function ChangeDirectory(rows: Rows, user: string, wd: string, arg: string): Option<string> {
    if arg == "" then None
    else if arg == ".." then Some(ParentPath(wd))
    else if arg == "/" then Some("/")
    else if WalkOk(rows, user, Base(wd, arg), Segments(arg)) then Some(WalkEnd(Base(wd, arg), Segments(arg)))
    else None
  }

  lemma SegmentsExist(arg: string)
    requires arg != "" && arg != "/"
    ensures |Segments(arg)| > 0
    ensures forall k :: 0 <= k < |Segments(arg)| ==> '/' !in Segments(arg)[k]
  {
    var all := Split(arg, "/");
    SplitIsFree(arg, "/");
    forall k | 0 <= k < |all|
      ensures '/' !in all[k]
    {
      ContainsChar(all[k], '/');
    }
    PiecesNotEmpty(arg, "/", 0);
    SplitSingle(arg, '/');
  }

  function Strip(p: string): string {
    if p == "/" then "" else p
  }

  lemma RenderSnoc(c: seq<string>, name: string)
    ensures Render(c + [name]) == Strip(Render(c)) + "/" + name
  {
    var k := c + [name];
    assert k[..|k| - 1] == c && k[|k| - 1] == name;
    assert "/" + name == "" + "/" + name;
  }

  /** The components the walk has reached after `i` segments. */
  function At(base: string, segs: seq<string>, i: nat): seq<string>
    requires Clean(base) && i <= |segs|
  {
    Components(base) + segs[..i]
  }

  lemma AtNext(base: string, segs: seq<string>, i: nat, next: nat)
    requires Clean(base) && i < |segs| && next == i + 1
    ensures At(base, segs, next) == At(base, segs, i) + [segs[i]]
    ensures segs[..next] == segs[..i] + [segs[i]]
  {
  }

  lemma ValidNamesJoin(a: seq<string>, b: seq<string>)
    requires ValidNames(a) && ValidNames(b)
    ensures ValidNames(a + b)
  {
  }

  lemma AtIsValid(base: string, segs: seq<string>, i: nat)
    requires Clean(base) && i <= |segs| && ValidNames(segs)
    ensures ValidNames(At(base, segs, i)) && Clean(Render(At(base, segs, i)))
    ensures i > 0 ==> Render(At(base, segs, i)) != "/"
  {
    RenderOfComponents(base);
    var k := At(base, segs, i);
    ValidNamesJoin(Components(base), segs[..i]);
    ComponentsOfRender(k);
    assert Components("/") == [] && (i > 0 ==> k != []);
  }

  lemma WalkedSnoc(base: string, c: seq<string>, name: string)
    ensures Walked(base, c + [name]) == Walked(base, c) + "/" + name
  {
    var k := c + [name];
    assert k[..|k| - 1] == c && k[|k| - 1] == name;
  }

  /** Where the loop of the walk stands when segments 0 to `i` are found and `path` has the
      first `i` of them. */
  predicate Walking(rows: Rows, user: string, base: string, segs: seq<string>, i: nat, path: string) {
    && i < |segs| && path == Walked(base, segs[..i])
    && forall k :: 0 <= k <= i ==> WalkFinds(rows, user, base, segs, k)
  }

  lemma WalkBegins(rows: Rows, user: string, base: string, segs: seq<string>)
    requires segs != []
    ensures if Lookup(rows, user, segs[0], base).Some?
            then Walking(rows, user, base, segs, 0, if base == "/" then "" else base)
            else !WalkOk(rows, user, base, segs)
  {
    assert WalkFinds(rows, user, base, segs, 0) == Lookup(rows, user, segs[0], base).Some?;
  }

  lemma WalkGoesOn(rows: Rows, user: string, base: string, segs: seq<string>, i: nat, path: string, next: nat)
    requires Walking(rows, user, base, segs, i, path) && next == i + 1 && next < |segs|
    ensures if Lookup(rows, user, segs[next], path + "/" + segs[i]).Some?
            then Walking(rows, user, base, segs, next, path + "/" + segs[i])
            else !WalkOk(rows, user, base, segs)
  {
    assert segs[..next] == segs[..i] + [segs[i]];
    WalkedSnoc(base, segs[..i], segs[i]);
    assert WalkFinds(rows, user, base, segs, next) == Lookup(rows, user, segs[next], path + "/" + segs[i]).Some?;
  }

  lemma WalkArrives(rows: Rows, user: string, base: string, segs: seq<string>, i: nat, path: string)
    requires Walking(rows, user, base, segs, i, path) && i == |segs| - 1
    ensures WalkOk(rows, user, base, segs)
    ensures WalkEnd(base, segs) == (if path == "/" then path else path + "/") + segs[i]
  {
  }

  lemma {:induction false} WalkedIsRendered(base: string, segs: seq<string>, i: nat)
    requires Clean(base) && ValidNames(segs) && i <= |segs|
    ensures Walked(base, segs[..i]) == Strip(Render(At(base, segs, i)))
    decreases i
  {
    RenderOfComponents(base);
    if i == 0 {
      assert At(base, segs, 0) == Components(base);
    } else {
      var h := i - 1;
      WalkedIsRendered(base, segs, h);
      AtIsValid(base, segs, i);
      AtNext(base, segs, h, i);
      RenderSnoc(At(base, segs, h), segs[h]);
      WalkedSnoc(base, segs[..h], segs[h]);
    }
  }

  lemma LookedInIsRendered(base: string, segs: seq<string>, i: nat)
    requires Clean(base) && ValidNames(segs) && i < |segs|
    ensures LookedIn(base, segs, i) == Render(At(base, segs, i))
  {
    RenderOfComponents(base);
    AtIsValid(base, segs, i);
    WalkedIsRendered(base, segs, i);
    if i == 0 {
      assert At(base, segs, 0) == Components(base);
    }
  }

  lemma WalkEndIsRendered(base: string, segs: seq<string>)
    requires Clean(base) && ValidNames(segs) && segs != []
    ensures WalkEnd(base, segs) == Render(At(base, segs, |segs|))
  {
    var n := |segs| - 1;
    AtIsValid(base, segs, n);
    WalkedIsRendered(base, segs, n);
    AtNext(base, segs, n, |segs|);
    RenderSnoc(At(base, segs, n), segs[n]);
  }

  /** Finding a segment is finding a node of the tree. */
  lemma WalkFindsNode(rows: Rows, user: string, base: string, segs: seq<string>, i: nat, next: nat)
    requires Tabled(rows) && Clean(base) && ValidNames(segs) && i < |segs| && next == i + 1
    ensures WalkFinds(rows, user, base, segs, i) <==> At(base, segs, next) in TreeOf(rows, user)
  {
    LookedInIsRendered(base, segs, i);
    AtIsValid(base, segs, i);
    AtNext(base, segs, i, next);
    assert ValidName(segs[i]);
    LookupRefines(rows, user, At(base, segs, i), segs[i]);
  }

  /** A segment that is no name is never found. */
  lemma WalkFindsNames(rows: Rows, user: string, base: string, segs: seq<string>, i: nat)
    requires CleanRows(rows) && i < |segs| && WalkFinds(rows, user, base, segs, i)
    ensures ValidName(segs[i])
  {
    LookupFacts(rows, user, segs[i], LookedIn(base, segs, i));
  }

  lemma {:induction false} TreeHasPrefixes(t: Dirs, k: seq<string>, n: nat)
    requires IsTree(t) && k in t && 0 < n <= |k|
    ensures k[..n] in t && (n < |k| ==> t[k[..n]].isDir)
    decreases |k|
  {
    if n < |k| {
      var up := k[..|k| - 1];
      TreeHasPrefixes(t, up, n);
      assert up[..n] == k[..n];
      assert n == |up| ==> up[..n] == up;
    } else {
      assert k[..n] == k;
    }
  }

  /** If the end of the walk is a node then so is every stage, and all but the end are directories. */
  lemma StagesAreDirectories(rows: Rows, user: string, base: string, segs: seq<string>, i: nat)
    requires Tabled(rows) && Clean(base) && 0 < i <= |segs| && At(base, segs, |segs|) in TreeOf(rows, user)
    ensures At(base, segs, i) in TreeOf(rows, user)
    ensures i < |segs| ==> IsDirectory(TreeOf(rows, user), At(base, segs, i))
  {
    StagesOfTree(TreeOf(rows, user), base, segs, i) by {
      TableIsTree(rows, user);
    }
  }

  lemma StagesOfTree(t: Dirs, base: string, segs: seq<string>, i: nat)
    requires IsTree(t) && Clean(base) && 0 < i <= |segs| && At(base, segs, |segs|) in t
    ensures At(base, segs, i) in t && (i < |segs| ==> t[At(base, segs, i)].isDir)
  {
    var k, n := At(base, segs, |segs|), |Components(base)| + i;
    assert k[..n] == At(base, segs, i);
    TreeHasPrefixes(t, k, n);
  }

  lemma WalkAccepts(rows: Rows, user: string, base: string, segs: seq<string>)
    requires Tabled(rows) && Clean(base) && segs != []
    ensures WalkOk(rows, user, base, segs) <==> ValidNames(segs) && At(base, segs, |segs|) in TreeOf(rows, user)
  {
    if ValidNames(segs) {
      var last := |segs| - 1;
      WalkFindsNode(rows, user, base, segs, last, |segs|);
      if At(base, segs, |segs|) in TreeOf(rows, user) {
        forall i | 0 <= i < |segs|
          ensures WalkFinds(rows, user, base, segs, i)
        {
          StageIsFound(rows, user, base, segs, i);
        }
      }
    } else {
      var i :| 0 <= i < |segs| && !ValidName(segs[i]);
      if WalkFinds(rows, user, base, segs, i) {
        WalkFindsNames(rows, user, base, segs, i);
      }
    }
  }

  lemma StageIsFound(rows: Rows, user: string, base: string, segs: seq<string>, i: nat)
    requires Tabled(rows) && Clean(base) && ValidNames(segs) && i < |segs|
    requires At(base, segs, |segs|) in TreeOf(rows, user)
    ensures WalkFinds(rows, user, base, segs, i)
  {
    var next := i + 1;
    StagesAreDirectories(rows, user, base, segs, next);
    WalkFindsNode(rows, user, base, segs, i, next);
  }

  /** CWD walks the tree: it accepts exactly the paths that are nodes, whatever the
      intermediate lookups, moves to that node, and has passed through directories only. */
  lemma CwdRefines(rows: Rows, user: string, wd: string, arg: string)
    requires Tabled(Own(rows, user)) && Clean(wd) && arg != "" && arg != ".." && arg != "/"
    ensures var base, segs, t := Base(wd, arg), Segments(arg), UserTree(rows, user);
            var found := ValidNames(segs) && At(base, segs, |segs|) in t;
            && ChangeDirectory(rows, user, wd, arg) == (if found then Some(Render(At(base, segs, |segs|))) else None)
            && (found ==> forall i :: 0 < i < |segs| ==> IsDirectory(t, At(base, segs, i)))
  {
    var base, segs, t := Base(wd, arg), Segments(arg), UserTree(rows, user);
    SegmentsExist(arg);
    WalkIsOwn(rows, user, base, segs);
    WalkAccepts(Own(rows, user), user, base, segs);
    if ValidNames(segs) && At(base, segs, |segs|) in t {
      WalkEndIsRendered(base, segs);
      forall i | 0 < i < |segs|
        ensures IsDirectory(t, At(base, segs, i))
      {
        StagesAreDirectories(Own(rows, user), user, base, segs, i);
      }
    }
  }

  lemma {:induction false} WalkedIsAbsolute(base: string, segs: seq<string>)
    requires Absolute(base)
    ensures segs != [] ==> Absolute(Walked(base, segs))
    ensures Walked(base, segs) == "" || Absolute(Walked(base, segs))
  {
    if segs != [] {
      WalkedIsAbsolute(base, segs[..|segs| - 1]);
    }
  }

  /** The parent of what the walk finds is what it found one segment before, a directory. */
  lemma StageBefore(rows: Rows, user: string, base: string, segs: seq<string>, i: nat, next: nat)
    requires Distinct(rows) && Closed(Own(rows, user)) && Absolute(base) && ValidNames(segs)
    requires next == i + 1 < |segs| && WalkFinds(rows, user, base, segs, next)
    ensures PassesDirectory(rows, user, base, segs, i)
  {
    var path, name := LookedIn(base, segs, next), segs[next];
    LookupFacts(rows, user, name, path);
    StageIsJoined(base, segs, i, next);
    OwnMembers(rows, user);
    var r := Lookup(rows, user, name, path).value;
    assert r in Own(rows, user);
    var d :| d in Own(rows, user) && IsParent(d, r);
    LookupFinds(rows, d);
  }

  predicate PassesDirectory(rows: Rows, user: string, base: string, segs: seq<string>, i: nat)
    requires i < |segs|
  {
    var d := Lookup(rows, user, segs[i], LookedIn(base, segs, i));
    d.Some? && d.value.isDir
  }

  /** The paths the walk looks in, one made from the other. */
  lemma StageIsJoined(base: string, segs: seq<string>, i: nat, next: nat)
    requires Absolute(base) && ValidNames(segs) && next == i + 1 < |segs|
    ensures var path := LookedIn(base, segs, next);
            path != "/" && ParentPath(path) == LookedIn(base, segs, i) && Basename(path) == segs[i]
  {
    assert segs[..next] == segs[..i] + [segs[i]];
    WalkedSnoc(base, segs[..i], segs[i]);
    LookedInIsAbsolute(base, segs, i);
    assert ValidName(segs[i]) && "" + "/" + segs[i] == "/" + segs[i];
    assert LookedIn(base, segs, next) == DirJoin(LookedIn(base, segs, i), segs[i]);
    CutOfGlue(LookedIn(base, segs, i), segs[i]);
  }

  /** Past the first segment the walk is never at the root. */
  lemma LookedInIsAbsolute(base: string, segs: seq<string>, i: nat)
    requires Absolute(base) && ValidNames(segs) && i < |segs|
    ensures Absolute(LookedIn(base, segs, i)) && (i > 0 ==> LookedIn(base, segs, i) != "/")
  {
    WalkedIsAbsolute(base, segs[..i]);
    if i > 0 {
      var h := i - 1;
      assert segs[..i] == segs[..h] + [segs[h]];
      WalkedSnoc(base, segs[..h], segs[h]);
      assert ValidName(segs[h]);
    }
  }

  lemma WalkEndIsJoined(base: string, segs: seq<string>, n: nat)
    requires Absolute(base) && ValidNames(segs) && n + 1 == |segs|
    ensures WalkEnd(base, segs) == DirJoin(LookedIn(base, segs, n), segs[n])
  {
    assert n == 0 ==> segs[..n] == [];
    assert "" + "/" + segs[n] == "/" + segs[n];
  }

  lemma {:induction false} StagesBefore(rows: Rows, user: string, base: string, segs: seq<string>, i: nat, n: nat)
    requires Distinct(rows) && Closed(Own(rows, user)) && Absolute(base) && ValidNames(segs)
    requires i < n < |segs| && WalkFinds(rows, user, base, segs, n)
    ensures PassesDirectory(rows, user, base, segs, i)
    decreases n
  {
    var h := n - 1;
    StageBefore(rows, user, base, segs, h, n);
    if i < h {
      DirectoryIsFound(rows, user, base, segs, h);
      StagesBefore(rows, user, base, segs, i, h);
    }
  }

  lemma DirectoryIsFound(rows: Rows, user: string, base: string, segs: seq<string>, i: nat)
    requires i < |segs| && PassesDirectory(rows, user, base, segs, i)
    ensures WalkFinds(rows, user, base, segs, i)
  {
  }

  lemma AllFound(rows: Rows, user: string, base: string, segs: seq<string>, n: nat)
    requires n + 1 == |segs| && WalkFinds(rows, user, base, segs, n)
    requires forall i :: 0 <= i < n ==> PassesDirectory(rows, user, base, segs, i)
    ensures WalkOk(rows, user, base, segs)
  {
    forall i | 0 <= i < |segs|
      ensures WalkFinds(rows, user, base, segs, i)
    {
      if i < n {
        DirectoryIsFound(rows, user, base, segs, i);
      }
    }
  }

  lemma WalkReaches(rows: Rows, user: string, base: string, segs: seq<string>, n: nat)
    requires Distinct(rows) && Closed(Own(rows, user)) && Absolute(base) && ValidNames(segs) && n + 1 == |segs|
    requires WalkFinds(rows, user, base, segs, n)
    ensures WalkOk(rows, user, base, segs)
    ensures forall i :: 0 <= i < n ==> PassesDirectory(rows, user, base, segs, i)
  {
    forall i | 0 <= i < n
      ensures PassesDirectory(rows, user, base, segs, i)
    {
      StagesBefore(rows, user, base, segs, i, n);
    }
    AllFound(rows, user, base, segs, n);
  }

  /** Tree closure is all CWD needs: from any absolute directory, with non-empty segments, it
      accepts exactly when the last lookup finds an object, every lookup before it then found
      a directory, and it moves to that object. The table may have rows with empty names and
      rows at any paths. */
  lemma CwdWalks(rows: Rows, user: string, wd: string, arg: string, n: nat)
    requires Distinct(rows) && Closed(Own(rows, user)) && Absolute(wd) && arg != "" && arg != ".." && arg != "/"
    requires ValidNames(Segments(arg)) && n + 1 == |Segments(arg)|
    ensures var base, segs := Base(wd, arg), Segments(arg);
            var found, end := WalkFinds(rows, user, base, segs, n), DirJoin(LookedIn(base, segs, n), segs[n]);
            && ChangeDirectory(rows, user, wd, arg) == (if found then Some(end) else None)
            && (found ==> forall i :: 0 <= i < n ==> PassesDirectory(rows, user, base, segs, i))
            && (Clean(wd) ==> end == Render(At(base, segs, |segs|)))
  {
    var base, segs := Base(wd, arg), Segments(arg);
    WalkEndIsJoined(base, segs, n);
    if Clean(wd) {
      WalkEndIsRendered(base, segs);
    }
    if WalkFinds(rows, user, base, segs, n) {
      WalkReaches(rows, user, base, segs, n);
    }
  }

  lemma WalkIsOwn(rows: Rows, user: string, base: string, segs: seq<string>)
    ensures WalkOk(Own(rows, user), user, base, segs) <==> WalkOk(rows, user, base, segs)
  {
    forall i | 0 <= i < |segs|
      ensures WalkFinds(Own(rows, user), user, base, segs, i) <==> WalkFinds(rows, user, base, segs, i)
    {
      LookupOwn(rows, user, segs[i], LookedIn(base, segs, i));
    }
  }

  /** None of the user's rows has an empty name. */
  predicate Named(rows: Rows, user: string) {
    forall r :: r in rows && r.user == user ==> r.name != ""
  }

  /** Wherever CWD leads from a clean directory is a clean path. The rows may have any paths. */
  lemma CwdStaysClean(rows: Rows, user: string, wd: string, arg: string)
    requires Named(rows, user) && Clean(wd) && ChangeDirectory(rows, user, wd, arg).Some?
    ensures Clean(ChangeDirectory(rows, user, wd, arg).value)
  {
    if arg == ".." {
      CdupStaysClean(wd);
    } else if arg != "/" {
      var base, segs := Base(wd, arg), Segments(arg);
      SegmentsExist(arg);
      forall i | 0 <= i < |segs|
        ensures ValidName(segs[i])
      {
        assert WalkFinds(rows, user, base, segs, i);
        LookupFacts(rows, user, segs[i], LookedIn(base, segs, i));
      }
      WalkEndIsRendered(base, segs);
      AtIsValid(base, segs, |segs|);
    }
  }

  lemma CdupStaysClean(wd: string)
    requires Clean(wd)
    ensures Clean(ParentPath(wd))
  {
    if wd != "/" {
      CleanCut(wd);
    }
  }

  /** Into a directory by its name and up again is back where it started. */
  lemma CwdThenCdup(rows: Rows, user: string, wd: string, name: string)
    requires Absolute(wd) && ValidName(name) && name != ".."
    requires ChangeDirectory(rows, user, wd, name).Some?
    ensures ParentPath(ChangeDirectory(rows, user, wd, name).value) == wd
  {
    SplitSingle(name, '/');
    assert Segments(name) == [name] && Base(wd, name) == wd;
    assert Walked(wd, [name][..0]) == Strip(wd);
    assert "" + "/" + name == "/" + name;
    assert WalkEnd(wd, [name]) == DirJoin(wd, name);
    CutOfGlue(wd, name);
  }

  function Climb(wd: string, n: nat): string
    decreases n
  {
    if n == 0 then wd else Climb(ParentPath(wd), n - 1)
  }

  /** CDUP reaches the root in as many steps as the directory is deep, and no fewer. */
  lemma {:induction false} ClimbReachesRoot(wd: string, n: nat)
    requires Clean(wd)
    ensures Climb(wd, n) == "/" <==> n >= |Components(wd)|
    decreases n
  {
    if n > 0 {
      CdupStaysClean(wd);
      ClimbReachesRoot(ParentPath(wd), n - 1);
      if wd != "/" {
        assert |Components(wd)| == |Components(ParentPath(wd))| + 1;
      }
    }
  }
}
