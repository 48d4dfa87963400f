/** Everything any session does to one database, as a sequence of operations, and what holds
    after every such sequence: uniqueness, isolation, the directory tree, and no stray blobs. */
module FsRuns {
  import opened Paths
  import opened FsTable
  import opened FsLaws
  import opened Tree
  import opened PerUser
  import Like

  /** `carried` is what the session's buffer still holds when an upload starts; a read brings
      `arrived`, and `inserted` goes into the file. */
  datatype Op =
    | MakeDirectory(user: string, name: string, path: string, id: Uuid, now: string)
    | StartUpload(user: string, name: string, path: string, id: Uuid, now: string, opens: bool, carried: seq<Byte>)
    | Receive(target: string, arrived: seq<Byte>, inserted: seq<Byte>)
    | FinishUpload(user: string, name: string, path: string, size: nat, now: string, into: Option<string>)
    | Delete(user: string, name: string, path: string)

  /** What data_receive_file leaves behind: the store, the blob it opened for writing if it
      could open one, and the size the counter starts from. */
  datatype Opened = Opened(store: Store, target: Option<string>, size: nat)

  /** A new file is opened for appending, an existing one truncating while the counter starts
      from its recorded size. No file has the empty name "data/", so a refused create_object
      leaves nothing to open. `opens` is whether the operating system opens the file. */
  function OpenUpload(s: Store, user: string, name: string, path: string, id: Uuid, now: string, opens: bool): Opened {
    match Lookup(s.rows, user, name, path)
    case None =>
      var (rows, created) := Create(s.rows, user, name, path, 0, false, id, now);
      if created == "" || !opens then Opened(Store(rows, s.blobs), None, 0)
      else Opened(Store(rows, if created in s.blobs then s.blobs else s.blobs[created := []]), Some(created), 0)
    case Some(o) =>
      if opens then Opened(Store(s.rows, s.blobs[o.id := []]), Some(o.id), o.size)
      else Opened(s, None, o.size)
  }

  /** Writing to an open stream; a file removed meanwhile has no name to be found under. */
  function WriteBlob(s: Store, id: string, bytes: seq<Byte>): Store {
    if id in s.blobs then s.(blobs := s.blobs[id := s.blobs[id] + bytes]) else s
  }

  function Prefix(bytes: seq<Byte>, n: nat): seq<Byte> {
    if n <= |bytes| then bytes[..n] else bytes
  }

  function Rest(bytes: seq<Byte>, n: nat): seq<Byte> {
    if n <= |bytes| then bytes[n..] else []
  }

  /** What is written and what is kept are all there was. */
  lemma PrefixAndRest(bytes: seq<Byte>, n: nat)
    ensures Prefix(bytes, n) + Rest(bytes, n) == bytes
  {
  }

  function Apply(s: Store, op: Op): Store {
    match op
    case MakeDirectory(user, name, path, id, now) =>
      s.(rows := Create(s.rows, user, name, path, 0, true, id, now).0)
    case StartUpload(user, name, path, id, now, opens, _) =>
      OpenUpload(s, user, name, path, id, now, opens).store
    case Receive(target, _, inserted) => WriteBlob(s, target, inserted)
    case FinishUpload(user, name, path, size, now, _) =>
      s.(rows := Resize(s.rows, user, name, path, size, now).0)
    case Delete(user, name, path) => Remove(s, user, name, path).0
  }

  function Run(s: Store, ops: seq<Op>): Store
    decreases |ops|
  {
    if ops == [] then s else Run(Apply(s, ops[0]), ops[1..])
  }

  lemma {:induction false} RunAppend(s: Store, a: seq<Op>, b: seq<Op>)
    ensures Run(s, a + b) == Run(Run(s, a), b)
    decreases |a|
  {
    if a == [] {
      assert a + b == b;
    } else {
      var op, rest := a[0], a[1..];
      assert (a + b)[0] == op && (a + b)[1..] == rest + b;
      RunAppend(Apply(s, op), rest, b);
    }
  }

  lemma RunOne(s: Store, op: Op)
    ensures Run(s, [op]) == Apply(s, op)
  {
    assert [op][1..] == [];
  }

  // ----- uniqueness -----

  lemma ApplyDistinct(s: Store, op: Op)
    requires Distinct(s.rows)
    ensures Distinct(Apply(s, op).rows)
  {
    match op
    case MakeDirectory(user, name, path, id, now) => CreateDistinct(s.rows, user, name, path, 0, true, id, now);
    case StartUpload(user, name, path, id, now, opens, _) =>
      CreateDistinct(s.rows, user, name, path, 0, false, id, now);
    case Receive(_, _, _) =>
    case FinishUpload(user, name, path, size, now, _) => ResizeDistinct(s.rows, user, name, path, size, now);
    case Delete(user, name, path) => RemoveDistinct(s, user, name, path);
  }

  /** Ids and (name, path) pairs stay unique over every run, whatever ids are generated. */
  lemma {:induction false} RunDistinct(s: Store, ops: seq<Op>)
    requires Distinct(s.rows)
    ensures Distinct(Run(s, ops).rows)
    decreases |ops|
  {
    if ops != [] {
      ApplyDistinct(s, ops[0]);
      RunDistinct(Apply(s, ops[0]), ops[1..]);
    }
  }

  // ----- isolation -----

  predicate By(op: Op, user: string) {
    match op
    case Receive(_, _, _) => false
    case _ => op.user == user
  }

  lemma ApplyIsolated(s: Store, op: Op, user: string)
    requires Distinct(s.rows) && !By(op, user)
    ensures Select(Apply(s, op).rows, OwnedBy(user)) == Select(s.rows, OwnedBy(user))
  {
    match op {
      case MakeDirectory(u, name, path, id, now) => CreateIsolated(s.rows, u, name, path, 0, true, id, now);
      case StartUpload(u, name, path, id, now, opens, _) => CreateIsolated(s.rows, u, name, path, 0, false, id, now);
      case Receive(_, _, _) =>
      case FinishUpload(u, name, path, size, now, _) => ResizeIsolated(s.rows, u, name, path, size, now);
      case Delete(u, name, path) => RemoveIsolated(s, u, name, path);
    }
    if !op.Receive? {
      SelectSelect(s.rows, Not(OwnedBy(op.user)), OwnedBy(user));
      SelectSelect(Apply(s, op).rows, Not(OwnedBy(op.user)), OwnedBy(user));
    }
  }

  /** A run of other users' operations leaves every row of a user as it was. */
  lemma {:induction false} RunIsolated(s: Store, ops: seq<Op>, user: string)
    requires Distinct(s.rows)
    requires forall op :: op in ops ==> !By(op, user)
    ensures Select(Run(s, ops).rows, OwnedBy(user)) == Select(s.rows, OwnedBy(user))
    decreases |ops|
  {
    if ops != [] {
      assert ops[0] in ops;
      ApplyIsolated(s, ops[0], user);
      ApplyDistinct(s, ops[0]);
      RunIsolated(Apply(s, ops[0]), ops[1..], user);
    }
  }

  // ----- the tree -----

  /** Where a session may create: a real name, in an absolute path that is not "//x". */
  predicate GoodTarget(name: string, path: string) {
    ValidName(name) && Absolute(path) && LastSlash(path) != 1
  }

  /** The operation makes an object, and is not refused. */
  predicate Creates(s: Store, op: Op) {
    (op.MakeDirectory? || op.StartUpload?) && CanCreate(s.rows, op.user, op.name, op.path)
  }

  /** What it makes, if anything, is at a real target. */
  predicate GoodOp(s: Store, op: Op) {
    Creates(s, op) ==> GoodTarget(op.name, op.path)
  }

  predicate AllGood(s: Store, ops: seq<Op>, user: string)
    decreases |ops|
  {
    ops == [] || ((By(ops[0], user) ==> GoodOp(s, ops[0])) && AllGood(Apply(s, ops[0]), ops[1..], user))
  }

  lemma RefusedChangesNoRow(s: Store, op: Op)
    requires (op.MakeDirectory? || op.StartUpload?) && !Creates(s, op)
    ensures Apply(s, op).rows == s.rows
  {
  }

  lemma ApplyTabled(s: Store, op: Op, user: string)
    requires Distinct(s.rows) && Tabled(Own(s.rows, user)) && (By(op, user) ==> GoodOp(s, op))
    ensures Tabled(Own(Apply(s, op).rows, user))
  {
    var rows := Own(s.rows, user);
    if !By(op, user) {
      ApplyIsolated(s, op, user);
    } else if (op.MakeDirectory? || op.StartUpload?) && !Creates(s, op) {
      RefusedChangesNoRow(s, op);
    } else {
      match op
      case MakeDirectory(_, name, path, id, now) =>
        CreateOwn(s.rows, user, name, path, 0, true, id, now);
        CreateKeepsTabled(rows, user, name, path, 0, true, id, now);
      case StartUpload(_, name, path, id, now, _, _) =>
        CreateOwn(s.rows, user, name, path, 0, false, id, now);
        CreateKeepsTabled(rows, user, name, path, 0, false, id, now);
      case FinishUpload(_, name, path, size, now, _) =>
        ResizeOwn(s.rows, user, name, path, size, now);
        ResizeKeepsTabled(rows, user, name, path, size, now);
      case Delete(_, name, path) =>
        RemoveOwn(s, user, name, path);
        RemoveKeepsTabled(s.(rows := rows), user, name, path);
    }
  }

  /** A user whose objects are made at real targets has a tree after every run, with whatever
      wildcards in the names, whatever the LIKE deletes took, and whatever the others do. */
  lemma {:induction false} RunTabled(s: Store, ops: seq<Op>, user: string)
    requires Distinct(s.rows) && Tabled(Own(s.rows, user)) && AllGood(s, ops, user)
    ensures Tabled(Own(Run(s, ops).rows, user))
    decreases |ops|
  {
    if ops != [] {
      ApplyTabled(s, ops[0], user);
      ApplyDistinct(s, ops[0]);
      RunTabled(Apply(s, ops[0]), ops[1..], user);
    }
  }

  // ----- every row has its parent -----

  /** What it makes, if anything, is at an absolute path that is not "//x". */
  predicate RootedOp(s: Store, op: Op) {
    Creates(s, op) ==> Absolute(op.path) && LastSlash(op.path) != 1
  }

  predicate AllRooted(s: Store, ops: seq<Op>, user: string)
    decreases |ops|
  {
    ops == [] || ((By(ops[0], user) ==> RootedOp(s, ops[0])) && AllRooted(Apply(s, ops[0]), ops[1..], user))
  }

  lemma ApplyRooted(s: Store, op: Op, user: string)
    requires Distinct(s.rows) && Rooted(Own(s.rows, user)) && (By(op, user) ==> RootedOp(s, op))
    ensures Rooted(Own(Apply(s, op).rows, user))
  {
    var rows := Own(s.rows, user);
    if !By(op, user) {
      ApplyIsolated(s, op, user);
    } else if (op.MakeDirectory? || op.StartUpload?) && !Creates(s, op) {
      RefusedChangesNoRow(s, op);
    } else {
      match op
      case MakeDirectory(_, name, path, id, now) =>
        CreateOwn(s.rows, user, name, path, 0, true, id, now);
        CreateRooted(rows, user, name, path, 0, true, id, now);
      case StartUpload(_, name, path, id, now, _, _) =>
        CreateOwn(s.rows, user, name, path, 0, false, id, now);
        CreateRooted(rows, user, name, path, 0, false, id, now);
      case FinishUpload(_, name, path, size, now, _) =>
        ResizeOwn(s.rows, user, name, path, size, now);
        ResizeRooted(rows, user, name, path, size, now);
      case Delete(_, name, path) =>
        RemoveOwn(s, user, name, path);
        SelectDistinct(s.rows, OwnedBy(user));
        RemoveRooted(s.(rows := rows), user, name, path);
    }
  }

  /** A user whose objects are made at such paths, under any names, empty ones included, never
      has a row without its parent, whatever the deletes take and the other users do. */
  lemma {:induction false} RunRooted(s: Store, ops: seq<Op>, user: string)
    requires Distinct(s.rows) && Rooted(Own(s.rows, user)) && AllRooted(s, ops, user)
    ensures Rooted(Own(Run(s, ops).rows, user))
    decreases |ops|
  {
    if ops != [] {
      ApplyRooted(s, ops[0], user);
      ApplyDistinct(s, ops[0]);
      RunRooted(Apply(s, ops[0]), ops[1..], user);
    }
  }

  /** And if all users' are, the whole table is closed. */
  lemma RunClosed(s: Store, ops: seq<Op>)
    requires Distinct(s.rows) && Rooted(s.rows)
    requires forall user :: AllRooted(s, ops, user)
    ensures Closed(Run(s, ops).rows)
  {
    ClosedPerUser(s.rows);
    forall user
      ensures Closed(Own(Run(s, ops).rows, user))
    {
      OwnMembers(s.rows, user);
      assert AllRooted(s, ops, user);
      RunRooted(s, ops, user);
    }
    ClosedPerUser(Run(s, ops).rows);
  }

  /** The hypothesis is needed: "MKD a", "MKD /a/b", "RMD a" by one user. The second call
      makes the row (b, "//a"), and the third leaves it behind without its directory. */
  lemma StrandedRun(user: string, id: Uuid, other: Uuid, now: string)
    requires id != other
    ensures !Closed(Run(Store([], map[]),
                        [MakeDirectory(user, "a", "/", id, now), MakeDirectory(user, "b", "//a", other, now),
                         Delete(user, "a", "/")]).rows)
  {
    RunThree(Store([], map[]), MakeDirectory(user, "a", "/", id, now), MakeDirectory(user, "b", "//a", other, now),
             Delete(user, "a", "/"));
    StrandedSetup(user, id, other, now);
    StrandedEnd(Row(id, "a", "/", 0, now, true, user), Row(other, "b", "//a", 0, now, true, user));
  }

  lemma RunThree(s: Store, a: Op, b: Op, c: Op)
    ensures Run(s, [a, b, c]) == Apply(Apply(Apply(s, a), b), c)
  {
    assert [a, b, c][1..] == [b, c] && [b, c][1..] == [c];
    RunOne(Apply(Apply(s, a), b), c);
  }

  lemma StrandedSetup(user: string, id: Uuid, other: Uuid, now: string)
    requires id != other
    ensures var a, b := Row(id, "a", "/", 0, now, true, user), Row(other, "b", "//a", 0, now, true, user);
            && Create([], user, "a", "/", 0, true, id, now).0 == [a]
            && Create([a], user, "b", "//a", 0, true, other, now).0 == [a, b]
  {
    var a, b := Row(id, "a", "/", 0, now, true, user), Row(other, "b", "//a", 0, now, true, user);
    LookupFacts([], user, "a", "/");
    assert a in [a];
    LookupFinds([a], a);
    LookupFacts([a], user, "b", "//a");
    LastSlashIs("//a", 1);
    LastSlashAtOne("//a");
  }

  lemma StrandedEnd(a: Row, b: Row)
    requires a.id != b.id && a.user == b.user && a.isDir
    requires a.path == "/" && a.name == "a" && b.path == "//a" && b.name == "b"
    ensures !Closed(Remove(Store([a, b], map[]), a.user, "a", "/").0.rows)
  {
    var rows := [a, b];
    assert a in rows && b in rows;
    LastSlashIs("//a", 1);
    LastSlashAtOne("//a");
    assert IsParent(a, b);
    LookupFinds(rows, a);
    var pat := Pattern("a", "/");
    assert pat == "/a%";
    assert pat[1..] == "a%" && "//a"[1..] == "/a";
    assert !Like.Matches(pat[1..], "//a"[1..]);
    assert Strands(rows, a);
    RemoveClosed(Store(rows, map[]), a.user, "a", "/");
  }

  // ----- blobs -----

  /** Every blob on disk belongs to a live row. */
  predicate BlobsLive(s: Store) {
    forall id :: id in s.blobs ==> id in Ids(s.rows)
  }

  /** An upload that would leave a blob without a row: the pair belongs to another user, so
      the insert is ignored, and the id create_object still returns is nobody's. */
  predicate LosesBlob(s: Store, user: string, name: string, path: string, id: Uuid, opens: bool) {
    CanCreate(s.rows, user, name, path) && opens && HeldByAnother(s.rows, user, name, path) && id !in Ids(s.rows)
  }

  lemma UploadBlobsLive(s: Store, user: string, name: string, path: string, id: Uuid, now: string, opens: bool)
    requires BlobsLive(s)
    ensures BlobsLive(OpenUpload(s, user, name, path, id, now, opens).store) <==>
            !LosesBlob(s, user, name, path, id, opens)
  {
    LookupFacts(s.rows, user, name, path);
    var after := OpenUpload(s, user, name, path, id, now, opens).store;
    if Lookup(s.rows, user, name, path).None? && CanCreate(s.rows, user, name, path) {
      var r := Row(id, name, path, 0, now, false, user);
      InsertedIds(s.rows, r);
      if opens {
        assert after.blobs.Keys == s.blobs.Keys + {id};
        assert id in after.blobs;
      }
    }
  }

  lemma InsertedIds(rows: Rows, r: Row)
    requires Lookup(rows, r.user, r.name, r.path).None?
    ensures Ids(rows) <= Ids(Insert(rows, r))
    ensures r.id in Ids(Insert(rows, r)) <==> r.id in Ids(rows) || !HeldByAnother(rows, r.user, r.name, r.path)
  {
    LookupFacts(rows, r.user, r.name, r.path);
    assert forall q :: q in rows ==> q in Insert(rows, r);
    if Clashes(rows, r) {
      var q :| q in rows && Alike(q, r);
      assert q.id in Ids(rows);
    } else {
      assert r in rows + [r];
    }
  }

  lemma RemoveBlobs(s: Store, user: string, name: string, path: string)
    requires BlobsLive(s) && Distinct(s.rows)
    ensures var after := Remove(s, user, name, path).0;
            && BlobsLive(after)
            && (forall r :: r in s.rows && r !in after.rows ==> r.id !in after.blobs)
            && (forall r :: r in after.rows && r.id in s.blobs ==>
                  r.id in after.blobs && after.blobs[r.id] == s.blobs[r.id])
  {
    var o := Lookup(s.rows, user, name, path);
    LookupFacts(s.rows, user, name, path);
    if o.Some? {
      var after := Remove(s, user, name, path).0;
      SelectMembers(s.rows, Dropped(o.value));
      SelectMembers(s.rows, Not(Dropped(o.value)));
      forall r, q | r in after.rows && q in s.rows && Dropped(o.value)(q)
        ensures r.id != q.id
      {
        if r.id == q.id {
          DistinctRows(s.rows, r, q);
        }
      }
      forall id | id in after.blobs
        ensures id in Ids(after.rows)
      {
        var r :| r in s.rows && r.id == id;
        assert r in Select(s.rows, Dropped(o.value)) || r in after.rows;
      }
    }
  }

  lemma ApplyBlobsLive(s: Store, op: Op)
    requires BlobsLive(s) && Distinct(s.rows)
    requires op.StartUpload? ==> !LosesBlob(s, op.user, op.name, op.path, op.id, op.opens)
    ensures BlobsLive(Apply(s, op))
  {
    match op
    case MakeDirectory(user, name, path, id, now) =>
      assert forall r :: r in s.rows ==> r in Apply(s, op).rows;
    case StartUpload(user, name, path, id, now, opens, _) => UploadBlobsLive(s, user, name, path, id, now, opens);
    case Receive(_, _, _) =>
    case FinishUpload(user, name, path, size, now, _) => ResizeIds(s.rows, user, name, path, size, now);
    case Delete(user, name, path) => RemoveBlobs(s, user, name, path);
  }

  lemma ResizeIds(rows: Rows, user: string, name: string, path: string, size: nat, now: string)
    ensures Ids(Resize(rows, user, name, path, size, now).0) == Ids(rows)
  {
    var o := Lookup(rows, user, name, path);
    if o.Some? {
      var after := SetSize(rows, o.value.id, size, now);
      forall id
        ensures id in Ids(rows) <==> id in Ids(after)
      {
        if id in Ids(rows) {
          var r :| r in rows && r.id == id;
          var i :| 0 <= i < |rows| && rows[i] == r;
          assert after[i] in after && after[i].id == id;
        }
        if id in Ids(after) {
          var r :| r in after && r.id == id;
          var i :| 0 <= i < |after| && after[i] == r;
          assert rows[i] in rows && rows[i].id == id;
        }
      }
    }
  }

  predicate NoBlobLost(s: Store, ops: seq<Op>)
    decreases |ops|
  {
    ops == [] ||
    (var op := ops[0];
     (op.StartUpload? ==> !LosesBlob(s, op.user, op.name, op.path, op.id, op.opens)) &&
     NoBlobLost(Apply(s, op), ops[1..]))
  }

  /** With no upload under a pair another user holds, every blob on disk is a live row's. */
  lemma {:induction false} RunBlobsLive(s: Store, ops: seq<Op>)
    requires BlobsLive(s) && Distinct(s.rows) && NoBlobLost(s, ops)
    ensures BlobsLive(Run(s, ops))
    decreases |ops|
  {
    if ops != [] {
      ApplyBlobsLive(s, ops[0]);
      ApplyDistinct(s, ops[0]);
      RunBlobsLive(Apply(s, ops[0]), ops[1..]);
    }
  }
}
