/** What the commands that take a path do to the user's tree, the working directory and the
    listing, in terms of the names in their arguments (src/ftp/base_session.cpp:256-509,
    src/ftp/insecure_session.cpp:74-170). */
module Effects {
  import opened Helpers
  import opened Paths
  import opened FsTable
  import opened FsLaws
  import opened FsRuns
  import opened Tree
  import opened PerUser
  import opened TreeRuns
  import opened Navigation
  import opened SessionSpec
  import opened SessionRuns
  import opened Arguments
  import Transfers
  import FsObjects
  import RoundTrip

  /** Logged in, in a clean directory, and the rows of the user are a tree. */
  ghost predicate Ready(w: World) {
    && w.s.login.ok && Distinct(w.db.rows) && Tabled(Own(w.db.rows, w.s.login.userid))
    && Clean(w.s.workingDirectory)
  }

  ghost function TreeNow(w: World): Dirs
    requires Tabled(Own(w.db.rows, w.s.login.userid))
  {
    UserTree(w.db.rows, w.s.login.userid)
  }

  function Here(w: World): seq<string>
    requires Clean(w.s.workingDirectory)
  {
    Components(w.s.workingDirectory)
  }

  /** A name alone is in the working directory, several are a path from the root. */
  function NearOrRoot(w: World, c: seq<string>): seq<string>
    requires Clean(w.s.workingDirectory) && c != []
  {
    if |c| == 1 then Here(w) + c else c
  }

  function Up(node: seq<string>): seq<string> {
    if node == [] then [] else node[..|node| - 1]
  }

  lemma NodeIs(at: Target, node: seq<string>)
    requires Means(at, node)
    ensures node != [] && Up(node) == Components(at.path) && node[|node| - 1] == at.name
    ensures at.path == Render(Up(node)) && ValidNames(Up(node))
  {
    RenderOfComponents(at.path);
  }

  // ----- MKD -----

  lemma MkdStep(w: World, arg: string, env: Env)
    requires w.s.login.ok && arg != ""
    ensures var v, at := Step(w, Command(MKD, arg, env)), MkdTarget(w.s.workingDirectory, arg);
            v.db == w.db.(rows := Create(w.db.rows, w.s.login.userid, at.name, at.path, 0, true, env.id, env.now).0)
            && v.s.workingDirectory == w.s.workingDirectory && v.s.login == w.s.login
  {
    var u := Taken(w);
    MkdIs(u, arg, env);
    MkdRuns(u, arg, MakeDirectoryAt(u, MkdTarget(u.s.workingDirectory, arg), env));
  }

  lemma MkdIs(u: World, arg: string, env: Env)
    requires u.s.login.ok
    ensures HandleCommand(u, MKD, arg, env) ==
            RunMkd(u, arg, MakeDirectoryAt(u, MkdTarget(u.s.workingDirectory, arg), env))
  {
  }

  lemma MkdRuns(u: World, arg: string, made: (Rows, string))
    requires arg != ""
    ensures var v := RunMkd(u, arg, made);
            && v.db == u.db.(rows := made.0)
            && v.s.workingDirectory == u.s.workingDirectory && v.s.login == u.s.login
  {
  }

  /** MKD inserts an empty directory at the node its argument means, or nothing where the tree
      has no directory above it or something there already. */
  lemma MkdMakes(w: World, c: seq<string>, env: Env)
    requires Ready(w) && ValidPath(c)
    requires var node := NearOrRoot(w, c);
             env.id !in Ids(w.db.rows) &&
             !HeldByAnother(w.db.rows, w.s.login.userid, node[|node| - 1], Render(Up(node)))
    ensures var v, node := Step(w, Command(MKD, Relative(c), env)), NearOrRoot(w, c);
            && Ready(v) && v.s.login == w.s.login && v.db.blobs == w.db.blobs
            && v.s.workingDirectory == w.s.workingDirectory
            && TreeNow(v) == InsertNode(TreeNow(w), Up(node), node[|node| - 1], Tree.Entry.Entry(env.id, 0, true))
  {
    var at, node := MkdTarget(w.s.workingDirectory, Relative(c)), NearOrRoot(w, c);
    RelativeIsPlain(c);
    MkdMeans(w.s.workingDirectory, c);
    NodeIs(at, node);
    CleanSecond(at.path);
    MkdStep(w, Relative(c), env);
    InsertApplies(w.db.rows, w.s.login.userid, at.name, at.path, true, env.id, env.now);
    CreateDistinct(w.db.rows, w.s.login.userid, at.name, at.path, 0, true, env.id, env.now);
  }

  // ----- RMD and DELE -----

  /** The delete takes no row of the user's beyond the subtree. */
  ghost predicate DeletesExactly(w: World, at: Target) {
    var o := Lookup(w.db.rows, w.s.login.userid, at.name, at.path);
    o.Some? ==> Exact(Own(w.db.rows, w.s.login.userid), o.value)
  }

  lemma RemoveStep(w: World, verb: Verb, arg: string, env: Env, at: Target)
    requires w.s.login.ok && arg != ""
    requires if verb == RMD then at == RmdTarget(w.s.workingDirectory, arg)
             else verb == DELE && at == MkdTarget(w.s.workingDirectory, arg)
    ensures var v := Step(w, Command(verb, arg, env));
            v.db == Remove(w.db, w.s.login.userid, at.name, at.path).0
            && v.s.workingDirectory == w.s.workingDirectory && v.s.login == w.s.login
  {
  }

  lemma RemovalDeletes(w: World, verb: Verb, arg: string, env: Env, at: Target, node: seq<string>)
    requires Ready(w) && arg != "" && Means(at, node) && DeletesExactly(w, at)
    requires if verb == RMD then at == RmdTarget(w.s.workingDirectory, arg)
             else verb == DELE && at == MkdTarget(w.s.workingDirectory, arg)
    ensures var v := Step(w, Command(verb, arg, env));
            && Ready(v) && v.s.login == w.s.login && v.s.workingDirectory == w.s.workingDirectory
            && TreeNow(v) == DeleteSubtree(TreeNow(w), node)
  {
    RemoveStep(w, verb, arg, env, at);
    RemovedRows(w.db, w.s.login.userid, at, node);
  }

  lemma RemovedRows(s: Store, user: string, at: Target, node: seq<string>)
    requires Distinct(s.rows) && Tabled(Own(s.rows, user)) && Means(at, node)
    requires var o := Lookup(s.rows, user, at.name, at.path); o.Some? ==> Exact(Own(s.rows, user), o.value)
    ensures var after := Remove(s, user, at.name, at.path).0.rows;
            && Distinct(after) && Tabled(Own(after, user))
            && UserTree(after, user) == DeleteSubtree(UserTree(s.rows, user), node)
  {
    DeleteApplies(s, user, at.name, at.path);
    RemoveDistinct(s, user, at.name, at.path);
  }

  /** DELE deletes the subtree at the node its argument means, a directory like a file. */
  lemma DeleDeletes(w: World, c: seq<string>, env: Env)
    requires Ready(w) && ValidPath(c) && DeletesExactly(w, MkdTarget(w.s.workingDirectory, Relative(c)))
    ensures var v := Step(w, Command(DELE, Relative(c), env));
            && Ready(v) && v.s.login == w.s.login && v.s.workingDirectory == w.s.workingDirectory
            && TreeNow(v) == DeleteSubtree(TreeNow(w), NearOrRoot(w, c))
  {
    RelativeIsPlain(c);
    MkdMeans(w.s.workingDirectory, c);
    RemovalDeletes(w, DELE, Relative(c), env, MkdTarget(w.s.workingDirectory, Relative(c)), NearOrRoot(w, c));
  }

  /** RMD the same, for a relative path ... */
  lemma RmdDeletes(w: World, c: seq<string>, env: Env)
    requires Ready(w) && ValidPath(c) && DeletesExactly(w, RmdTarget(w.s.workingDirectory, Relative(c)))
    ensures var v := Step(w, Command(RMD, Relative(c), env));
            && Ready(v) && v.s.login == w.s.login && v.s.workingDirectory == w.s.workingDirectory
            && TreeNow(v) == DeleteSubtree(TreeNow(w), NearOrRoot(w, c))
  {
    RelativeIsPlain(c);
    RmdMeans(w.s.workingDirectory, c);
    RemovalDeletes(w, RMD, Relative(c), env, RmdTarget(w.s.workingDirectory, Relative(c)), NearOrRoot(w, c));
  }

  /** ... and for an absolute one. */
  lemma RmdDeletesAbsolute(w: World, c: seq<string>, env: Env)
    requires Ready(w) && ValidPath(c) && DeletesExactly(w, RmdTarget(w.s.workingDirectory, Render(c)))
    ensures var v := Step(w, Command(RMD, Render(c), env));
            && Ready(v) && v.s.login == w.s.login && v.s.workingDirectory == w.s.workingDirectory
            && TreeNow(v) == DeleteSubtree(TreeNow(w), c)
  {
    BelowIsNotRoot(c);
    RmdMeansAbsolute(w.s.workingDirectory, c);
    RemovalDeletes(w, RMD, Render(c), env, RmdTarget(w.s.workingDirectory, Render(c)), c);
  }

  // ----- CWD and CDUP -----

  lemma CwdStep(w: World, arg: string, env: Env)
    requires w.s.login.ok && arg != ""
    ensures var v := Step(w, Command(CWD, arg, env));
            var to := ChangeDirectory(w.db.rows, w.s.login.userid, w.s.workingDirectory, arg);
            && v.s.workingDirectory == (if to.Some? then to.value else w.s.workingDirectory)
            && v.db == w.db && v.s.login == w.s.login
  {
  }

  /** CWD goes down the names from the working directory if that is a node of the tree, and
      stays where it is if not ... */
  lemma CwdGoes(w: World, c: seq<string>, env: Env)
    requires Ready(w) && ValidPath(c) && c != [".."]
    ensures var v, node := Step(w, Command(CWD, Relative(c), env)), Here(w) + c;
            v.s.workingDirectory == if node in TreeNow(w) then Render(node) else w.s.workingDirectory
  {
    RelativeIsPlain(c);
    CwdMeans(w.s.workingDirectory, c);
    NotUp(c);
    CwdRefines(w.db.rows, w.s.login.userid, w.s.workingDirectory, Relative(c));
    assert At(w.s.workingDirectory, c, |c|) == Here(w) + c;
    CwdStep(w, Relative(c), env);
  }

  lemma NotUp(c: seq<string>)
    requires ValidPath(c) && c != [".."]
    ensures Relative(c) != ".."
  {
    RelativeIsPlain(c);
    if |c| == 1 {
      assert Relative(c) == c[0] && c == [c[0]];
    }
  }

  /** ... and down the names from the root for an absolute path. */
  lemma CwdGoesAbsolute(w: World, c: seq<string>, env: Env)
    requires Ready(w) && ValidPath(c)
    ensures var v := Step(w, Command(CWD, Render(c), env));
            v.s.workingDirectory == if c in TreeNow(w) then Render(c) else w.s.workingDirectory
  {
    BelowIsNotRoot(c);
    CwdMeans(w.s.workingDirectory, c);
    CwdRefines(w.db.rows, w.s.login.userid, w.s.workingDirectory, Render(c));
    assert At("/", c, |c|) == c;
    CwdStep(w, Render(c), env);
  }

  /** CDUP, and CWD to "..", go to the parent, and stay at the root. */
  lemma GoesUp(w: World, arg: string, env: Env)
    requires w.s.login.ok && Clean(w.s.workingDirectory)
    ensures Step(w, Command(CDUP, arg, env)).s.workingDirectory == Render(Up(Here(w)))
    ensures Step(w, Command(CWD, "..", env)).s.workingDirectory == Render(Up(Here(w)))
  {
    ParentIsUp(w.s.workingDirectory);
    CwdStep(w, "..", env);
  }

  lemma ParentIsUp(wd: string)
    requires Clean(wd)
    ensures ParentPath(wd) == Render(Up(Components(wd)))
  {
    if wd != "/" {
      CleanCut(wd);
      RenderOfComponents(ParentPath(wd));
      assert Up(Components(wd)) == Components(ParentPath(wd));
    }
  }

  /** CWD to "/" goes to the root. */
  lemma GoesToRoot(w: World, env: Env)
    requires w.s.login.ok
    ensures Step(w, Command(CWD, "/", env)).s.workingDirectory == Render([])
  {
    CwdStep(w, "/", env);
  }

  // ----- LIST -----

  /** The entry of a listing shows this node of the tree, with its row's time. */
  ghost predicate Shows(e: SessionSpec.Entry, w: World, d: seq<string>)
    requires Tabled(Own(w.db.rows, w.s.login.userid))
  {
    var t, node := TreeNow(w), d + [e.name];
    && node in t && e.directory == t[node].isDir && e.owner == w.s.login.username
    && IsDecimal(e.size) && ParseDecimal(e.size) == t[node].size
    && exists r :: r in w.db.rows && r.id == t[node].id && r.modified == e.modified
  }

  predicate Dots(es: seq<SessionSpec.Entry>, owner: string) {
    && |es| == 2 && es[0].name == "." && es[1].name == ".."
    && forall i :: 0 <= i < 2 ==>
         es[i].directory && es[i].owner == owner && es[i].size == "0" && es[i].modified == "Jan 1 00:00"
  }

  /** After "." and ".." if they are wanted, one entry for each child of the directory. */
  ghost predicate ListsChildren(es: seq<SessionSpec.Entry>, w: World, d: seq<string>, all: bool)
    requires Tabled(Own(w.db.rows, w.s.login.userid))
  {
    var n := if all then 2 else 0;
    && n <= |es|
    && (all ==> Dots(es[..2], w.s.login.username))
    && (forall i :: n <= i < |es| ==> Shows(es[i], w, d))
    && (forall i, j :: n <= i < j < |es| ==> es[i].name != es[j].name)
    && (forall name :: d + [name] in TreeNow(w) ==> exists i :: n <= i < |es| && es[i].name == name)
  }

  lemma ListedRows(w: World, d: seq<string>, listed: Rows)
    requires Tabled(Own(w.db.rows, w.s.login.userid)) && ValidNames(d)
    requires listed == Select(w.db.rows, InDirectory(w.s.login.userid, Render(d)))
    ensures var t := TreeNow(w);
            && (forall r :: r in listed ==> r in w.db.rows && d + [r.name] in t && t[d + [r.name]] == EntryOf(r))
            && (forall name :: d + [name] in t ==> exists r :: r in listed && r.name == name)
            && (forall i, j :: 0 <= i < j < |listed| ==> listed[i].name != listed[j].name)
  {
    var user, own := w.s.login.userid, Own(w.db.rows, w.s.login.userid);
    SelectSelect(w.db.rows, OwnedBy(user), InDirectory(user, Render(d)));
    SelectMembers(w.db.rows, InDirectory(user, Render(d)));
    ListingRefines(own, user, d);
    forall name | d + [name] in TreeNow(w)
      ensures exists r :: r in listed && r.name == name
    {
      assert IsChild(TreeOf(own, user), d, name);
    }
    forall r | r in listed
      ensures d + [r.name] in TreeNow(w)
    {
      assert IsChild(TreeOf(own, user), d, r.name);
    }
  }

  lemma EntryShows(w: World, d: seq<string>, r: Row)
    requires Tabled(Own(w.db.rows, w.s.login.userid)) && r in w.db.rows
    requires d + [r.name] in TreeNow(w) && TreeNow(w)[d + [r.name]] == EntryOf(r)
    ensures Shows(EntryFor(FsObjects.ToObject(r), w.s.login.username), w, d)
  {
    DecimalRoundTrip(r.size);
  }

  /** What SendListing puts together shows the pending directory as it is in the tree now. */
  lemma ListingIsChildren(w: World, d: seq<string>, listed: Rows, es: seq<SessionSpec.Entry>, n: nat)
    requires Tabled(Own(w.db.rows, w.s.login.userid)) && ValidNames(d)
    requires listed == Select(w.db.rows, InDirectory(w.s.login.userid, Render(d)))
    requires es == Listing(FsObjects.Objects(listed), w.s.login.username, w.s.pending.listAll)
    requires n == if w.s.pending.listAll then 2 else 0
    ensures ListsChildren(es, w, d, w.s.pending.listAll)
  {
    ListedRows(w, d, listed);
    EntriesAre(listed, w.s.login.username, w.s.pending.listAll, es, n);
    AllShow(w, d, listed, es, n);
    AllApart(listed, es, n, w.s.login.username);
    AllThere(w, d, listed, es, n);
  }

  predicate EntriesOf(listed: Rows, owner: string, es: seq<SessionSpec.Entry>, n: nat) {
    && |es| == n + |listed|
    && forall k :: 0 <= k < |listed| ==> es[n + k] == EntryFor(FsObjects.ToObject(listed[k]), owner)
  }

  lemma AllShow(w: World, d: seq<string>, listed: Rows, es: seq<SessionSpec.Entry>, n: nat)
    requires Tabled(Own(w.db.rows, w.s.login.userid)) && EntriesOf(listed, w.s.login.username, es, n)
    requires forall r :: r in listed ==>
               r in w.db.rows && d + [r.name] in TreeNow(w) && TreeNow(w)[d + [r.name]] == EntryOf(r)
    ensures forall i :: n <= i < |es| ==> Shows(es[i], w, d)
  {
    forall i | n <= i < |es|
      ensures Shows(es[i], w, d)
    {
      var k := i - n;
      assert listed[k] in listed && es[n + k] == es[i];
      EntryShows(w, d, listed[k]);
    }
  }

  lemma AllApart(listed: Rows, es: seq<SessionSpec.Entry>, n: nat, owner: string)
    requires EntriesOf(listed, owner, es, n)
    requires forall i, j :: 0 <= i < j < |listed| ==> listed[i].name != listed[j].name
    ensures forall i, j :: n <= i < j < |es| ==> es[i].name != es[j].name
  {
    forall i, j | n <= i < j < |es|
      ensures es[i].name != es[j].name
    {
      var k, m := i - n, j - n;
      assert es[n + k] == es[i] && es[n + m] == es[j];
      assert listed[k].name != listed[m].name;
    }
  }

  lemma AllThere(w: World, d: seq<string>, listed: Rows, es: seq<SessionSpec.Entry>, n: nat)
    requires Tabled(Own(w.db.rows, w.s.login.userid)) && EntriesOf(listed, w.s.login.username, es, n)
    requires forall name :: d + [name] in TreeNow(w) ==> exists r :: r in listed && r.name == name
    ensures forall name :: d + [name] in TreeNow(w) ==> exists i :: n <= i < |es| && es[i].name == name
  {
    forall name | d + [name] in TreeNow(w)
      ensures exists i :: n <= i < |es| && es[i].name == name
    {
      var r :| r in listed && r.name == name;
      var k :| 0 <= k < |listed| && listed[k] == r;
      assert es[n + k].name == name;
    }
  }

  lemma EntriesAre(listed: Rows, owner: string, all: bool, es: seq<SessionSpec.Entry>, n: nat)
    requires es == Listing(FsObjects.Objects(listed), owner, all) && n == if all then 2 else 0
    ensures EntriesOf(listed, owner, es, n) && (all ==> Dots(es[..2], owner))
  {
    var special := if all then SpecialEntries(owner) else [];
    var objects := FsObjects.Objects(listed);
    assert |special| == n;
    forall k | 0 <= k < |listed|
      ensures es[n + k] == EntryFor(FsObjects.ToObject(listed[k]), owner)
    {
      assert objects[k] == FsObjects.ToObject(listed[k]);
    }
    if all {
      assert es[..2] == special;
    }
  }

  lemma SentListing(w: World, d: seq<string>)
    requires Tabled(Own(w.db.rows, w.s.login.userid)) && ValidNames(d) && w.s.pending.list == Render(d)
    ensures var v := SendListing(w);
            && v.db == w.db && v.s.login == w.s.login
            && ListsChildren(v.s.listing, w, d, w.s.pending.listAll)
  {
    var listed := Select(w.db.rows, InDirectory(w.s.login.userid, Render(d)));
    ListingIsChildren(w, d, listed, SendListing(w).s.listing, if w.s.pending.listAll then 2 else 0);
  }

  /** LIST over a connection that is there sends the children of the working directory, "."
      and ".." first exactly for "-la". */
  lemma LateListShows(w: World, arg: string, env: Env)
    requires Ready(w) && w.s.data.open && w.s.pending.list == "" && !w.s.pending.listAll
    ensures var v := Step(w, Command(LIST, arg, env));
            ListsChildren(v.s.listing, w, Here(w), arg == "-la") && v.s.data.listOps == w.s.data.listOps + 1
  {
    ListStep(w, arg, env);
    ListNow(Taken(w), arg);
    SameListing(RunList(Taken(w), arg).s.listing, Taken(w), w, Here(w), arg == "-la");
  }

  lemma ListStep(w: World, arg: string, env: Env)
    requires w.s.login.ok
    ensures Step(w, Command(LIST, arg, env)) == RunList(Taken(w), arg)
  {
  }

  lemma ListNow(w: World, arg: string)
    requires Ready(w) && w.s.data.open && w.s.pending.list == "" && !w.s.pending.listAll
    ensures var v := RunList(w, arg);
            ListsChildren(v.s.listing, w, Here(w), arg == "-la") && v.s.data.listOps == w.s.data.listOps + 1
  {
    var s := w.s.(pending := w.s.pending.(list := w.s.workingDirectory, listAll := arg == "-la"));
    var u := w.(s := Say(s, 150, "Opening connection."));
    RenderOfComponents(w.s.workingDirectory);
    SentListing(u, Here(w));
    SameListing(SendListing(u).s.listing, u, w, Here(w), arg == "-la");
  }

  lemma SameListing(es: seq<SessionSpec.Entry>, u: World, w: World, d: seq<string>, all: bool)
    requires u.db == w.db && u.s.login == w.s.login && Tabled(Own(w.db.rows, w.s.login.userid))
    requires ListsChildren(es, u, d, all)
    ensures ListsChildren(es, w, d, all)
  {
    forall i | (if all then 2 else 0) <= i < |es|
      ensures Shows(es[i], w, d)
    {
      assert Shows(es[i], u, d);
    }
  }

  /** LIST without a connection remembers the working directory and what is wanted; the accept
      that follows, whenever it comes, sends the children of that directory at that time. */
  lemma ListWaits(w: World, arg: string, env: Env)
    requires Ready(w) && !w.s.data.open && w.s.pending.list == "" && !w.s.pending.listAll
    ensures var v := Step(w, Command(LIST, arg, env));
            v.s.pending.list == Render(Here(w)) && v.s.pending.listAll == (arg == "-la") && v.db == w.db
  {
    RenderOfComponents(w.s.workingDirectory);
  }

  lemma AcceptedListShows(w: World, env: Env, d: seq<string>)
    requires Tabled(Own(w.db.rows, w.s.login.userid)) && ValidNames(d) && w.s.pending.list == Render(d)
    ensures ListsChildren(Step(w, Accepted(env)).s.listing, w, d, w.s.pending.listAll)
  {
    var u := Connect(w);
    ComponentsOfRender(d);
    SentListing(u, d);
    SameListing(SendListing(u).s.listing, u, w, d, w.s.pending.listAll);
  }

  /** "-la" is remembered for a pending listing only. */
  predicate DotsBelong(s: Session) {
    Absolute(s.workingDirectory) && (s.pending.list == "" ==> !s.pending.listAll)
  }

  predicate SameList(s: Session, u: Session) {
    u.pending.list == s.pending.list && u.pending.listAll == s.pending.listAll
  }

  lemma StepDots(w: World, e: Event)
    requires DotsBelong(w.s)
    ensures DotsBelong(Step(w, e).s)
  {
    if e.Command? {
      CommandMoves(w, e.verb, e.arg, e.env);
      Transfers.CwdStaysAbsolute(w.db.rows, w.s.login.userid, w.s.workingDirectory, e.arg);
      CommandDots(Taken(w), e.verb, e.arg, e.env);
    } else {
      CallbackMoves(w, e);
      CallbackDots(w, e);
    }
  }

  lemma CommandDots(w: World, verb: Verb, arg: string, env: Env)
    requires DotsBelong(w.s)
    ensures var s := HandleCommand(w, verb, arg, env).s; s.pending.list == "" ==> !s.pending.listAll
  {
    if NeedsNoLogin(verb) {
      OpenDots(w, verb, arg);
    } else if w.s.login.ok {
      if verb == LIST {
        ListDots(w, arg);
      } else if verb == STOR {
        StorDots(w, arg, StorFile(w.s.workingDirectory, arg), env);
      } else if verb == RETR {
        RetrDots(w, arg, RetrTarget(w.s.workingDirectory, arg), env.opens);
      } else if verb == MKD || verb == RMD || verb == DELE {
        ChangeDots(w, verb, arg, env);
      } else {
        AnswerDots(w, verb, arg, env);
      }
    }
  }

  lemma OpenDots(w: World, verb: Verb, arg: string)
    requires NeedsNoLogin(verb)
    ensures SameList(w.s, RunOpen(w, verb, arg).s)
  {
  }

  lemma ListDots(w: World, arg: string)
    requires DotsBelong(w.s)
    ensures var s := RunList(w, arg).s; s.pending.list == "" ==> !s.pending.listAll
  {
  }

  lemma StorDots(w: World, arg: string, file: string, env: Env)
    ensures SameList(w.s, RunStor(w, arg, file, env).s)
  {
    BeginDots(w.(s := w.s.(pending := w.s.pending.(write := file))), env);
  }

  lemma BeginDots(w: World, env: Env)
    ensures SameList(w.s, BeginStor(w, env).s)
  {
  }

  lemma RetrDots(w: World, arg: string, at: Target, opens: bool)
    ensures SameList(w.s, RunRetr(ParseRetr(w, arg, at), opens).s)
  {
    var p := ParseRetr(w, arg, at);
    assert SameList(w.s, p.s);
    SendDots(p, opens);
  }

  lemma SendDots(w: World, opens: bool)
    ensures SameList(w.s, RunRetr(w, opens).s)
  {
  }

  lemma ChangeDots(w: World, verb: Verb, arg: string, env: Env)
    requires verb == MKD || verb == RMD || verb == DELE
    ensures SameList(w.s, RunCommand(w, verb, arg, env).s)
  {
  }

  lemma AnswerDots(w: World, verb: Verb, arg: string, env: Env)
    requires !NeedsNoLogin(verb) && verb !in {LIST, STOR, RETR, MKD, RMD, DELE}
    ensures SameList(w.s, RunCommand(w, verb, arg, env).s)
  {
  }

  lemma CallbackDots(w: World, e: Event)
    requires !e.Command? && DotsBelong(w.s)
    ensures var s := Step(w, e).s; s.pending.list == "" ==> !s.pending.listAll
  {
    if e.Received? {
      ReceivedDots(w, e.bytes, e.outcome, e.written, e.now);
    }
  }

  lemma ReceivedDots(w: World, bytes: seq<Byte>, outcome: Outcome, written: nat, now: string)
    ensures SameList(w.s, ReceiveStep(w, bytes, outcome, written, now).s)
  {
  }

  /** So over every run of a new session a LIST that finds none pending finds "-la" forgotten,
      as LateListShows and ListWaits take for granted. */
  lemma {:induction false} RunDots(w: World, es: seq<Event>)
    requires DotsBelong(w.s)
    ensures DotsBelong(Steps(w, es).s)
    decreases |es|
  {
    if es != [] {
      StepDots(w, es[0]);
      RunDots(Step(w, es[0]), es[1..]);
    }
  }

  // ----- STOR -----

  /** The parent of a node is the root or in the tree. */
  ghost predicate ParentInTree(w: World, node: seq<string>)
    requires Tabled(Own(w.db.rows, w.s.login.userid)) && node != []
  {
    Up(node) == [] || Up(node) in TreeNow(w)
  }

  lemma StorCheckIs(w: World, node: seq<string>)
    requires Tabled(Own(w.db.rows, w.s.login.userid)) && ValidPath(node)
    ensures StorParentMissing(w, Render(node)) <==> !ParentInTree(w, node)
  {
    var up, user := Up(node), w.s.login.userid;
    CutOfRendered(node);
    NodeIs(Target(ParentPath(Render(node)), Basename(Render(node))), node);
    if up != [] {
      CutOfRendered(up);
      NodeIs(Target(ParentPath(Render(up)), Basename(Render(up))), up);
      BelowIsNotRoot(up);
      LookupOwn(w.db.rows, user, up[|up| - 1], Render(Up(up)));
      LookupRefines(Own(w.db.rows, user), user, Up(up), up[|up| - 1]);
      assert Up(up) + [up[|up| - 1]] == up;
    }
  }

  lemma StorStep(w: World, arg: string, file: string, env: Env)
    requires w.s.login.ok && arg != "" && w.s.pending.write == "" && file == StorFile(w.s.workingDirectory, arg)
    ensures var v, on := Step(w, Command(STOR, arg, env)), !StorParentMissing(w, file);
            && v.s.pending.write == file
            && v.s.control.armed == Dec(w.s.control.armed) + (if on then 1 else 0)
            && (if on then v.s.control.replies.Then? && v.s.control.replies.earlier == w.s.control.replies
                           && v.s.control.replies.last.code == 150
                else v.s.control.replies == w.s.control.replies && v.db == w.db && v.s.data == w.s.data)
  {
    StorRuns(Taken(w), arg, file, env);
  }

  lemma StorRuns(w: World, arg: string, file: string, env: Env)
    requires arg != "" && w.s.pending.write == ""
    ensures var v, on := RunStor(w, arg, file, env), !StorParentMissing(w, file);
            && v.s.pending.write == file
            && v.s.control.armed == w.s.control.armed + (if on then 1 else 0)
            && (if on then v.s.control.replies.Then? && v.s.control.replies.earlier == w.s.control.replies
                           && v.s.control.replies.last.code == 150
                else v.s.control.replies == w.s.control.replies && v.db == w.db && v.s.data == w.s.data)
  {
  }

  /** STOR goes on, with a 150 and another command read, if and only if the parent of the file
      is the root or a node of the tree. If not it says nothing and reads nothing, and leaves
      the transfer pending. */
  ghost predicate GoesOnIfParent(w: World, v: World, node: seq<string>)
    requires Tabled(Own(w.db.rows, w.s.login.userid)) && node != []
  {
    var on := ParentInTree(w, node);
    && v.s.pending.write == Render(node)
    && v.s.control.armed == Dec(w.s.control.armed) + (if on then 1 else 0)
    && (if on then v.s.control.replies.Then? && v.s.control.replies.earlier == w.s.control.replies
                   && v.s.control.replies.last.code == 150
        else v.s.control.replies == w.s.control.replies && v.db == w.db && v.s.data == w.s.data)
  }

  lemma StorGoesOn(w: World, c: seq<string>, env: Env)
    requires Ready(w) && ValidPath(c) && w.s.pending.write == ""
    ensures GoesOnIfParent(w, Step(w, Command(STOR, Relative(c), env)), Here(w) + c)
  {
    RelativeIsPlain(c);
    StorFileIs(w.s.workingDirectory, c);
    BelowIsValid(w.s.workingDirectory, c);
    StorCheckIs(w, Here(w) + c);
    StorStep(w, Relative(c), Render(Here(w) + c), env);
  }

  lemma StorGoesOnAbsolute(w: World, c: seq<string>, env: Env)
    requires Ready(w) && ValidPath(c) && w.s.pending.write == ""
    ensures GoesOnIfParent(w, Step(w, Command(STOR, Render(c), env)), c)
  {
    BelowIsNotRoot(c);
    StorCheckIs(w, c);
    StorStep(w, Render(c), Render(c), env);
  }
}
