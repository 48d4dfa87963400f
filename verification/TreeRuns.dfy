/** One user's files over whole runs: what any sequence of operations by any sessions, and any
    run of a session, does to the flat table is what it does to a tree. */
module TreeRuns {
  import opened Paths
  import opened FsTable
  import opened FsLaws
  import opened FsRuns
  import opened Tree
  import opened PerUser
  import opened SessionSpec
  import opened SessionRuns
  import Navigation

  type Node = Tree.Entry

  /** The operation on a user's tree. Other users' leave it alone, and so does what names no
      place in a tree. */
  function TreeOp(t: Dirs, op: Op, user: string): Dirs {
    if !By(op, user) then t
    else
      match op
      case MakeDirectory(_, name, path, id, _) => TreeInsert(t, name, path, Node.Entry(id, 0, true))
      case StartUpload(_, name, path, id, _, _, _) => TreeInsert(t, name, path, Node.Entry(id, 0, false))
      case FinishUpload(_, name, path, size, _, _) =>
        if Clean(path) && ValidName(name) then ResizeNode(t, Components(path) + [name], size) else t
      case Delete(_, name, path) =>
        if Clean(path) && ValidName(name) then DeleteSubtree(t, Components(path) + [name]) else t
      case Receive(_, _, _) => t
  }

  function TreeInsert(t: Dirs, name: string, path: string, e: Node): Dirs {
    if Clean(path) then InsertNode(t, Components(path), name, e) else t
  }

  function TreeRun(t: Dirs, ops: seq<Op>, user: string): Dirs
    decreases |ops|
  {
    if ops == [] then t else TreeRun(TreeOp(t, ops[0], user), ops[1..], user)
  }

  /** What this user makes is at real targets, under fresh ids and pairs nobody else holds, and
      deletes take no row of the user's beyond the subtree. Other users do what they like. */
  predicate Faithful(s: Store, op: Op, user: string) {
    By(op, user) ==>
      && GoodOp(s, op)
      && (Creates(s, op) ==> op.id !in Ids(s.rows) && !HeldByAnother(s.rows, user, op.name, op.path))
      && (op.Delete? ==>
            var o := Lookup(s.rows, user, op.name, op.path);
            o.Some? ==> Exact(Own(s.rows, user), o.value))
  }

  predicate AllFaithful(s: Store, ops: seq<Op>, user: string)
    decreases |ops|
  {
    ops == [] || (Faithful(s, ops[0], user) && AllFaithful(Apply(s, ops[0]), ops[1..], user))
  }

  lemma InsertApplies(rows: Rows, user: string, name: string, path: string, isDir: bool, id: Uuid, now: string)
    requires Tabled(Own(rows, user)) && GoodTarget(name, path)
    requires id !in Ids(rows) && !HeldByAnother(rows, user, name, path)
    ensures var after := Create(rows, user, name, path, 0, isDir, id, now).0;
            Tabled(Own(after, user)) &&
            UserTree(after, user) == TreeInsert(UserTree(rows, user), name, path, Node.Entry(id, 0, isDir))
  {
    var own := Own(rows, user);
    CreateOwn(rows, user, name, path, 0, isDir, id, now);
    OwnMembers(rows, user);
    if Clean(path) {
      RenderOfComponents(path);
      CreateRefines(own, user, Components(path), name, 0, isDir, id, now);
    } else if ParentAllows(own, user, path) {
      AllowedIsClean(own, user, path);
    }
  }

  lemma ResizeApplies(rows: Rows, user: string, name: string, path: string, size: nat, now: string,
                      into: Option<string>)
    requires Tabled(Own(rows, user))
    ensures var after := Resize(rows, user, name, path, size, now).0;
            Tabled(Own(after, user)) &&
            UserTree(after, user) == TreeOp(UserTree(rows, user), FinishUpload(user, name, path, size, now, into), user)
  {
    var own := Own(rows, user);
    ResizeOwn(rows, user, name, path, size, now);
    if Clean(path) && ValidName(name) {
      RenderOfComponents(path);
      ResizeRefines(own, user, Components(path), name, size, now);
    } else {
      LookupFacts(own, user, name, path);
    }
  }

  lemma DeleteApplies(s: Store, user: string, name: string, path: string)
    requires Tabled(Own(s.rows, user)) && Faithful(s, Delete(user, name, path), user)
    ensures var after := Remove(s, user, name, path).0.rows;
            Tabled(Own(after, user)) &&
            UserTree(after, user) == TreeOp(UserTree(s.rows, user), Delete(user, name, path), user)
  {
    RemoveOwn(s, user, name, path);
    LookupOwn(s.rows, user, name, path);
    DeleteFrom(s.(rows := Own(s.rows, user)), user, name, path);
  }

  lemma DeleteFrom(s: Store, user: string, name: string, path: string)
    requires Tabled(s.rows)
    requires var o := Lookup(s.rows, user, name, path); o.Some? ==> Exact(s.rows, o.value)
    ensures var after := Remove(s, user, name, path).0.rows;
            Tabled(after) && TreeOf(after, user) == TreeOp(TreeOf(s.rows, user), Delete(user, name, path), user)
  {
    if !Clean(path) || !ValidName(name) {
      LookupFacts(s.rows, user, name, path);
    } else if Lookup(s.rows, user, name, path).Some? {
      DeleteFound(s, user, name, path);
    } else {
      NothingToDelete(s.rows, user, name, path);
    }
  }

  lemma DeleteFound(s: Store, user: string, name: string, path: string)
    requires Tabled(s.rows) && Clean(path) && ValidName(name)
    requires Lookup(s.rows, user, name, path).Some? && Exact(s.rows, Lookup(s.rows, user, name, path).value)
    ensures var after := Remove(s, user, name, path).0.rows;
            Tabled(after) && TreeOf(after, user) == DeleteSubtree(TreeOf(s.rows, user), Components(path) + [name])
  {
    RenderOfComponents(path);
    RemoveRefines(s, user, Components(path), name);
  }

  lemma NothingToDelete(rows: Rows, user: string, name: string, path: string)
    requires Tabled(rows) && Clean(path) && ValidName(name) && Lookup(rows, user, name, path).None?
    ensures DeleteSubtree(TreeOf(rows, user), Components(path) + [name]) == TreeOf(rows, user)
  {
    RenderOfComponents(path);
    LookupRefines(rows, user, Components(path), name);
    NothingBelow(TreeOf(rows, user), Components(path) + [name]) by {
      TableIsTree(rows, user);
    }
  }

  /** Below a node that is not there is nothing. */
  lemma NothingBelow(t: Dirs, at: seq<string>)
    requires IsTree(t) && at != [] && at !in t
    ensures DeleteSubtree(t, at) == t
  {
    forall k | k in t
      ensures !(at <= k)
    {
      if at <= k {
        assert k[..|at|] == at;
        Navigation.TreeHasPrefixes(t, k, |at|);
      }
    }
  }

  /** One operation, whoever's it is. */
  lemma ApplyRefines(s: Store, op: Op, user: string)
    requires Distinct(s.rows) && Tabled(Own(s.rows, user)) && Faithful(s, op, user)
    ensures var after := Apply(s, op).rows;
            Tabled(Own(after, user)) && UserTree(after, user) == TreeOp(UserTree(s.rows, user), op, user)
  {
    if !By(op, user) {
      ApplyIsolated(s, op, user);
    } else if op.MakeDirectory? || op.StartUpload? {
      CreationRefines(s, op, user);
    } else if op.FinishUpload? {
      ResizeApplies(s.rows, user, op.name, op.path, op.size, op.now, op.into);
    } else {
      DeleteApplies(s, user, op.name, op.path);
    }
  }

  lemma CreationRefines(s: Store, op: Op, user: string)
    requires Tabled(Own(s.rows, user)) && (op.MakeDirectory? || op.StartUpload?) && By(op, user) &&
             Faithful(s, op, user)
    ensures var after := Apply(s, op).rows;
            Tabled(Own(after, user)) && UserTree(after, user) == TreeOp(UserTree(s.rows, user), op, user)
  {
    if Creates(s, op) {
      InsertApplies(s.rows, user, op.name, op.path, op.MakeDirectory?, op.id, op.now);
    } else {
      RefusedChangesNoRow(s, op);
      RefusedByTree(s.rows, user, op.name, op.path, Node.Entry(op.id, 0, op.MakeDirectory?));
    }
  }

  /** What create_object refuses, the tree refuses. */
  lemma RefusedByTree(rows: Rows, user: string, name: string, path: string, e: Node)
    requires Tabled(Own(rows, user)) && !CanCreate(rows, user, name, path)
    ensures TreeInsert(UserTree(rows, user), name, path, e) == UserTree(rows, user)
  {
    if Clean(path) {
      var own := Own(rows, user);
      RenderOfComponents(path);
      LookupOwn(rows, user, name, path);
      LookupOwn(rows, user, Basename(path), ParentPath(path));
      AllowedRefines(own, user, Components(path));
      if Lookup(own, user, name, path).Some? {
        LookupFacts(own, user, name, path);
        LookupRefines(own, user, Components(path), name);
      }
    }
  }

  /** Over every sequence of operations by all users, the tree of one user is what the same
      sequence makes of it as tree operations. Nothing is asked of the other users. */
  lemma {:induction false} RunRefines(s: Store, ops: seq<Op>, user: string)
    requires Distinct(s.rows) && Tabled(Own(s.rows, user)) && AllFaithful(s, ops, user)
    ensures Tabled(Own(Run(s, ops).rows, user))
    ensures UserTree(Run(s, ops).rows, user) == TreeRun(UserTree(s.rows, user), ops, user)
    decreases |ops|
  {
    if ops != [] {
      ApplyRefines(s, ops[0], user);
      ApplyDistinct(s, ops[0]);
      RunRefines(Apply(s, ops[0]), ops[1..], user);
    }
  }

  /** The same for a session with the others beside it, event by event. */
  lemma SessionRefines(w: World, es: seq<Event>, user: string)
    requires Distinct(w.db.rows) && Tabled(Own(w.db.rows, user)) && AllFaithful(w.db, AllOps(w, es), user)
    ensures Tabled(Own(Steps(w, es).db.rows, user))
    ensures UserTree(Steps(w, es).db.rows, user) == TreeRun(UserTree(w.db.rows, user), AllOps(w, es), user)
  {
    RunDb(w, es);
    RunRefines(w.db, AllOps(w, es), user);
  }

  /** A user who makes nothing at a path like "//x" in a run never has an orphan. */
  lemma SessionRooted(w: World, es: seq<Event>, user: string)
    requires Distinct(w.db.rows) && Rooted(Own(w.db.rows, user))
    requires AllRooted(w.db, AllOps(w, es), user)
    ensures Rooted(Own(Steps(w, es).db.rows, user))
  {
    RunDb(w, es);
    RunRooted(w.db, AllOps(w, es), user);
  }

  /** Every blob on disk is a live row's after every run of a session in which no upload
      creates a pair another user holds. */
  lemma SessionBlobsLive(w: World, es: seq<Event>)
    requires BlobsLive(w.db) && Distinct(w.db.rows) && NoBlobLost(w.db, AllOps(w, es))
    ensures BlobsLive(Steps(w, es).db) && Distinct(Steps(w, es).db.rows)
  {
    RunDb(w, es);
    RunBlobsLive(w.db, AllOps(w, es));
    RunDistinct(w.db, AllOps(w, es));
  }
}
