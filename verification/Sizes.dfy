/** The recorded size of a file against what uploads received and what is on disk
    (src/ftp/base_session.cpp:626-714), for any number of uploads at a time. Overwriting
    truncates the blob but counts on from the recorded size, and bytes an earlier upload left
    in a session's buffer go into the next file uncounted. */
module Sizes {
  import opened FsTable
  import opened FsLaws
  import opened FsRuns

  /** One upload: what the session's buffer held at its start, the bytes the connection
      delivered, and those that went into the file. */
  datatype Transfer = Transfer(carried: seq<Byte>, arrived: seq<Byte>, written: seq<Byte>)

  datatype Uploading = Uploading(user: string, name: string, path: string, start: nat, transfer: Transfer)

  /** The finished uploads of every row id, oldest first, and the one in progress. */
  datatype Track = Track(history: map<string, seq<Transfer>>, active: map<string, Uploading>)

  function Past(t: Track, id: string): seq<Transfer> {
    if id in t.history then t.history[id] else []
  }

  /** All bytes that arrived for a row. */
  function Total(h: seq<Transfer>): nat {
    if h == [] then 0 else Total(h[..|h| - 1]) + |h[|h| - 1].arrived|
  }

  /** Nothing is written but the bytes there were, from the first on. */
  predicate InOrder(tr: Transfer) {
    tr.written <= tr.carried + tr.arrived
  }

  function Extend(a: Uploading, arrived: seq<Byte>, inserted: seq<Byte>): Uploading {
    a.(transfer := a.transfer.(arrived := a.transfer.arrived + arrived, written := a.transfer.written + inserted))
  }

  /** How an operation moves the record along. */
  function Follow(t: Track, s: Store, op: Op): Track {
    match op
    case StartUpload(user, name, path, id, now, opens, carried) =>
      var o := OpenUpload(s, user, name, path, id, now, opens);
      if o.target.Some? then
        t.(active := t.active[o.target.value := Uploading(user, name, path, o.size, Transfer(carried, [], []))])
      else t
    case Receive(target, arrived, inserted) =>
      if target in t.active then t.(active := t.active[target := Extend(t.active[target], arrived, inserted)]) else t
    case FinishUpload(_, _, _, _, _, into) =>
      if into.Some? && into.value in t.active then
        Track(t.history[into.value := Past(t, into.value) + [t.active[into.value].transfer]], t.active - {into.value})
      else t
    case _ => t
  }

  predicate Unused(t: Track, s: Store, id: string) {
    id !in Ids(s.rows) && id !in s.blobs && id !in t.history && id !in t.active
  }

  /** The upload is to this user's object. */
  predicate To(a: Uploading, user: string, name: string, path: string) {
    a.user == user && a.name == name && a.path == path
  }

  predicate Busy(t: Track, user: string, name: string, path: string) {
    exists id :: id in t.active && To(t.active[id], user, name, path)
  }

  /** Uploads that do not overlap on one object: an object is not uploaded to, nor made anew,
      while an upload to it runs, and new ids are fresh. Uploads to other objects, and
      removals, come at any time. The rest is what a session's own bookkeeping gives; whose
      name an upload ends under is not part of it, see EndsWell. */
  predicate InTurn(t: Track, s: Store, op: Op) {
    match op
    case MakeDirectory(user, name, path, id, _) =>
      CanCreate(s.rows, user, name, path) ==> Unused(t, s, id) && !Busy(t, user, name, path)
    case StartUpload(user, name, path, id, _, _, _) =>
      !Busy(t, user, name, path) && (CanCreate(s.rows, user, name, path) ==> Unused(t, s, id))
    case Receive(target, arrived, inserted) =>
      target in t.active && InOrder(Extend(t.active[target], arrived, inserted).transfer)
    case FinishUpload(_, name, path, size, _, into) =>
      into.Some? && into.value in t.active &&
      (var a := t.active[into.value]; a.name == name && a.path == path && size == a.start + |a.transfer.arrived|)
    case Delete(_, _, _) => true
  }

  /** An upload that ends is recorded under the user the session has by then. That is well
      when it is the user it began for; or when nothing arrived; or, the row being gone, when
      the other user has no object of that name and path, or one of that size. */
  predicate EndsWell(t: Track, s: Store, op: Op) {
    op.FinishUpload? && op.into.Some? && op.into.value in t.active ==>
      var a := t.active[op.into.value];
      || op.user == a.user
      || (if op.into.value in Ids(s.rows) then a.transfer.arrived == []
          else
            var o := Lookup(s.rows, op.user, op.name, op.path);
            o.Some? ==> o.value.size == op.size)
  }

  /** What the file of row id `id` holds. */
  predicate BlobIs(s: Store, t: Track, id: string) {
    if id in t.active then id in s.blobs && s.blobs[id] == t.active[id].transfer.written
    else if Past(t, id) == [] then id !in s.blobs
    else id in s.blobs && s.blobs[id] == Past(t, id)[|Past(t, id)| - 1].written
  }

  predicate RowOk(s: Store, t: Track, r: Row) {
    r.size == Total(Past(t, r.id)) && BlobIs(s, t, r.id)
  }

  /** The row of an upload, as long as it is there, is the object the upload is to. */
  predicate UploadOk(rows: Rows, id: string, a: Uploading) {
    && InOrder(a.transfer)
    && forall r :: r in rows ==>
         (r.id == id <==> To(a, r.user, r.name, r.path)) && (r.id == id ==> r.size == a.start)
  }

  predicate PastInOrder(t: Track) {
    forall id, k :: id in t.history && 0 <= k < |t.history[id]| ==> InOrder(t.history[id][k])
  }

  predicate SizesOk(s: Store, t: Track) {
    && Distinct(s.rows)
    && (forall r :: r in s.rows ==> RowOk(s, t, r))
    && (forall id :: id in t.active ==> UploadOk(s.rows, id, t.active[id]))
    && PastInOrder(t)
  }

  lemma TotalSnoc(h: seq<Transfer>, x: Transfer)
    ensures Total(h + [x]) == Total(h) + |x.arrived|
  {
    assert (h + [x])[..|h|] == h;
  }

  // ----- preservation, operation by operation -----

  /** A row added under an unused id, whether or not the insert is ignored. */
  lemma InsertSizes(s: Store, t: Track, r: Row)
    requires SizesOk(s, t) && Unused(t, s, r.id) && r.size == 0 && !Busy(t, r.user, r.name, r.path)
    ensures SizesOk(Store(Insert(s.rows, r), s.blobs), t)
  {
    var after := Insert(s.rows, r);
    InsertDistinct(s.rows, r);
    forall q | q in after
      ensures RowOk(Store(after, s.blobs), t, q)
    {
      if q in s.rows {
        assert RowOk(s, t, q);
      }
    }
    forall id | id in t.active
      ensures UploadOk(after, id, t.active[id])
    {
      assert UploadOk(s.rows, id, t.active[id]);
      assert !To(t.active[id], r.user, r.name, r.path);
    }
  }

  lemma StartNewSizes(s: Store, t: Track, user: string, name: string, path: string, id: Uuid, now: string,
                      carried: seq<Byte>)
    requires SizesOk(s, t) && Unused(t, s, id) && !Busy(t, user, name, path)
    requires CanCreate(s.rows, user, name, path)
    ensures var op := StartUpload(user, name, path, id, now, true, carried);
            SizesOk(Apply(s, op), Follow(t, s, op))
  {
    var r := Row(id, name, path, 0, now, false, user);
    var after := Insert(s.rows, r);
    var a := Uploading(user, name, path, 0, Transfer(carried, [], []));
    var t', s' := t.(active := t.active[id := a]), Store(after, s.blobs[id := []]);
    LookupFacts(s.rows, user, name, path);
    InsertSizes(s, t, r);
    forall q | q in after
      ensures RowOk(s', t', q)
    {
      assert RowOk(Store(after, s.blobs), t, q);
    }
    assert UploadOk(after, id, a);
    assert SizesOk(s', t');
  }

  lemma StartOldSizes(s: Store, t: Track, o: Row, id: Uuid, now: string, carried: seq<Byte>)
    requires SizesOk(s, t) && o in s.rows && !Busy(t, o.user, o.name, o.path)
    ensures var op := StartUpload(o.user, o.name, o.path, id, now, true, carried);
            SizesOk(Apply(s, op), Follow(t, s, op))
  {
    LookupFinds(s.rows, o);
    ActiveIsBusy(s, t, o);
    var a := Uploading(o.user, o.name, o.path, o.size, Transfer(carried, [], []));
    var t', s' := t.(active := t.active[o.id := a]), Store(s.rows, s.blobs[o.id := []]);
    forall q | q in s.rows
      ensures RowOk(s', t', q)
    {
      assert RowOk(s, t, q);
    }
    OnlyRow(s.rows, o);
    assert UploadOk(s.rows, o.id, a);
    assert SizesOk(s', t');
  }

  lemma ActiveIsBusy(s: Store, t: Track, o: Row)
    requires SizesOk(s, t) && o in s.rows
    ensures o.id in t.active ==> Busy(t, o.user, o.name, o.path)
  {
    if o.id in t.active {
      assert UploadOk(s.rows, o.id, t.active[o.id]);
    }
  }

  /** A row's id and its (user, name, path) stand for each other. */
  lemma OnlyRow(rows: Rows, o: Row)
    requires Distinct(rows) && o in rows
    ensures forall r :: r in rows && (r.id == o.id || (r.name == o.name && r.path == o.path)) ==> r == o
  {
    forall r | r in rows && (r.id == o.id || (r.name == o.name && r.path == o.path))
      ensures r == o
    {
      DistinctRows(rows, r, o);
    }
  }

  lemma StartSizes(s: Store, t: Track, op: Op)
    requires SizesOk(s, t) && op.StartUpload? && InTurn(t, s, op)
    ensures SizesOk(Apply(s, op), Follow(t, s, op))
  {
    var o := Lookup(s.rows, op.user, op.name, op.path);
    LookupFacts(s.rows, op.user, op.name, op.path);
    if o.Some? {
      if op.opens {
        StartOldSizes(s, t, o.value, op.id, op.now, op.carried);
      }
    } else if CanCreate(s.rows, op.user, op.name, op.path) {
      if op.opens {
        StartNewSizes(s, t, op.user, op.name, op.path, op.id, op.now, op.carried);
      } else {
        InsertSizes(s, t, Row(op.id, op.name, op.path, 0, op.now, false, op.user));
      }
    }
  }

  lemma ReceiveSizes(s: Store, t: Track, op: Op)
    requires SizesOk(s, t) && op.Receive? && InTurn(t, s, op)
    ensures SizesOk(Apply(s, op), Follow(t, s, op))
  {
    var s', t' := Apply(s, op), Follow(t, s, op);
    forall q | q in s'.rows
      ensures RowOk(s', t', q)
    {
      assert RowOk(s, t, q);
    }
    forall id | id in t'.active
      ensures UploadOk(s'.rows, id, t'.active[id])
    {
      assert UploadOk(s.rows, id, t.active[id]);
    }
  }

  lemma FinishedInOrder(t: Track, id: string)
    requires PastInOrder(t) && id in t.active && InOrder(t.active[id].transfer)
    ensures PastInOrder(t.(history := t.history[id := Past(t, id) + [t.active[id].transfer]]))
  {
    var h := Past(t, id) + [t.active[id].transfer];
    assert forall k :: 0 <= k < |h| ==> InOrder(h[k]);
  }

  /** The end of an upload, recorded as it should be or not. */
  lemma FinishSizes(s: Store, t: Track, op: Op)
    requires SizesOk(s, t) && op.FinishUpload? && InTurn(t, s, op)
    ensures SizesOk(Apply(s, op), Follow(t, s, op)) <==> EndsWell(t, s, op)
  {
    var id, a := op.into.value, t.active[op.into.value];
    assert UploadOk(s.rows, id, a);
    FinishedInOrder(t, id);
    if op.user == a.user {
      FinishOwnSizes(s, t, op);
    } else if id in Ids(s.rows) {
      FinishAliveSizes(s, t, op);
    } else {
      FinishGoneSizes(s, t, op);
    }
  }

  lemma FinishOwnSizes(s: Store, t: Track, op: Op)
    requires SizesOk(s, t) && op.FinishUpload? && InTurn(t, s, op) && op.user == t.active[op.into.value].user
    ensures SizesOk(Apply(s, op), Follow(t, s, op))
  {
    var id, a := op.into.value, t.active[op.into.value];
    assert UploadOk(s.rows, id, a);
    LookupFacts(s.rows, op.user, op.name, op.path);
    FinishedInOrder(t, id);
    if Lookup(s.rows, op.user, op.name, op.path).Some? {
      FinishRowSizes(s, t, op, Lookup(s.rows, op.user, op.name, op.path).value);
    } else {
      var t' := Follow(t, s, op);
      forall q | q in s.rows
        ensures RowOk(s, t', q)
      {
        assert RowOk(s, t, q) && q.id != id;
      }
    }
  }

  /** Under another user the update finds nothing, and the row keeps the size it had. */
  lemma FinishAliveSizes(s: Store, t: Track, op: Op)
    requires SizesOk(s, t) && op.FinishUpload? && InTurn(t, s, op)
    requires op.user != t.active[op.into.value].user && op.into.value in Ids(s.rows)
    ensures Apply(s, op) == s
    ensures SizesOk(s, Follow(t, s, op)) <==> t.active[op.into.value].transfer.arrived == []
  {
    var id, a := op.into.value, t.active[op.into.value];
    var r :| r in s.rows && r.id == id;
    assert UploadOk(s.rows, id, a);
    LookupFacts(s.rows, op.user, op.name, op.path);
    OnlyRow(s.rows, r);
    UnrecordedSizes(s, t, op, r);
  }

  /** The record counts an upload the table does not. */
  lemma UnrecordedSizes(s: Store, t: Track, op: Op, r: Row)
    requires SizesOk(s, t) && op.FinishUpload? && InTurn(t, s, op) && r in s.rows && r.id == op.into.value
    ensures SizesOk(s, Follow(t, s, op)) <==> t.active[r.id].transfer.arrived == []
  {
    var a, t' := t.active[r.id], Follow(t, s, op);
    assert RowOk(s, t, r) && UploadOk(s.rows, r.id, a);
    TotalSnoc(Past(t, r.id), a.transfer);
    FinishedInOrder(t, r.id);
    if a.transfer.arrived == [] {
      forall q | q in s.rows
        ensures RowOk(s, t', q)
      {
        assert RowOk(s, t, q);
      }
    } else {
      assert !RowOk(s, t', r);
    }
  }

  /** With its row gone, the update finds nothing or somebody else's object. */
  lemma FinishGoneSizes(s: Store, t: Track, op: Op)
    requires SizesOk(s, t) && op.FinishUpload? && InTurn(t, s, op)
    requires op.user != t.active[op.into.value].user && op.into.value !in Ids(s.rows)
    ensures SizesOk(Apply(s, op), Follow(t, s, op)) <==> EndsWell(t, s, op)
  {
    var id, t' := op.into.value, Follow(t, s, op);
    var o := Lookup(s.rows, op.user, op.name, op.path);
    LookupFacts(s.rows, op.user, op.name, op.path);
    assert UploadOk(s.rows, id, t.active[id]);
    FinishedInOrder(t, id);
    forall q | q in s.rows
      ensures RowOk(s, t', q) && q.id != id
    {
      assert RowOk(s, t, q) && q.id in Ids(s.rows);
    }
    assert SizesOk(s, t');
    if o.Some? {
      SetSizeSizes(s, t', o.value, op.size, op.now);
    }
  }

  /** Writing a size into a row is right exactly when it is the one the row has. */
  lemma SetSizeSizes(s: Store, t: Track, o: Row, size: nat, now: string)
    requires SizesOk(s, t) && o in s.rows
    ensures SizesOk(s.(rows := SetSize(s.rows, o.id, size, now)), t) <==> size == o.size
  {
    var after := s.(rows := SetSize(s.rows, o.id, size, now));
    SetSizeDistinct(s.rows, o.id, size, now);
    assert RowOk(s, t, o);
    if size == o.size {
      forall i | 0 <= i < |after.rows|
        ensures RowOk(after, t, after.rows[i])
      {
        assert s.rows[i] in s.rows && RowOk(s, t, s.rows[i]);
        SameSize(s.rows, o, i);
      }
      forall id | id in t.active
        ensures UploadOk(after.rows, id, t.active[id])
      {
        assert UploadOk(s.rows, id, t.active[id]);
        forall i | 0 <= i < |after.rows|
          ensures after.rows[i].id == id <==>
                  To(t.active[id], after.rows[i].user, after.rows[i].name, after.rows[i].path)
          ensures after.rows[i].id == id ==> after.rows[i].size == t.active[id].start
        {
          assert s.rows[i] in s.rows;
          SameSize(s.rows, o, i);
        }
      }
    } else {
      var k :| 0 <= k < |s.rows| && s.rows[k] == o;
      assert after.rows[k] in after.rows && !RowOk(after, t, after.rows[k]);
    }
  }

  lemma SameSize(rows: Rows, o: Row, i: nat)
    requires Distinct(rows) && o in rows && i < |rows|
    ensures rows[i].id == o.id ==> rows[i].size == o.size
  {
    if rows[i].id == o.id {
      DistinctRows(rows, rows[i], o);
    }
  }

  lemma FinishRowSizes(s: Store, t: Track, op: Op, o: Row)
    requires SizesOk(s, t) && op.FinishUpload? && InTurn(t, s, op)
    requires Lookup(s.rows, op.user, op.name, op.path) == Some(o) && o in s.rows && o.id == op.into.value
    ensures var s', t' := Apply(s, op), Follow(t, s, op);
            && Distinct(s'.rows)
            && (forall r :: r in s'.rows ==> RowOk(s', t', r))
            && (forall id :: id in t'.active ==> UploadOk(s'.rows, id, t'.active[id]))
  {
    var s', t' := Apply(s, op), Follow(t, s, op);
    var a := t.active[o.id];
    assert UploadOk(s.rows, o.id, a) && RowOk(s, t, o);
    SetSizeDistinct(s.rows, o.id, op.size, op.now);
    forall i | 0 <= i < |s'.rows|
      ensures RowOk(s', t', s'.rows[i])
    {
      assert s.rows[i] in s.rows && RowOk(s, t, s.rows[i]);
      if s.rows[i].id == o.id {
        DistinctRows(s.rows, s.rows[i], o);
        TotalSnoc(Past(t, o.id), a.transfer);
      }
    }
    forall id | id in t'.active
      ensures UploadOk(s'.rows, id, t'.active[id])
    {
      assert UploadOk(s.rows, id, t.active[id]);
      forall i | 0 <= i < |s'.rows|
        ensures s'.rows[i].id == id <==> To(t.active[id], s'.rows[i].user, s'.rows[i].name, s'.rows[i].path)
        ensures s'.rows[i].id == id ==> s'.rows[i].size == t.active[id].start
      {
        assert s.rows[i] in s.rows;
      }
    }
  }

  lemma DeleteSizes(s: Store, t: Track, user: string, name: string, path: string)
    requires SizesOk(s, t)
    ensures SizesOk(Remove(s, user, name, path).0, t)
  {
    var found := Lookup(s.rows, user, name, path);
    LookupFacts(s.rows, user, name, path);
    if found.Some? {
      var o, after := found.value, Remove(s, user, name, path).0;
      RemoveDistinct(s, user, name, path);
      SelectMembers(s.rows, Not(Dropped(o)));
      forall r | r in after.rows
        ensures RowOk(after, t, r)
      {
        assert RowOk(s, t, r);
        SurvivorKeepsBlob(s, o, r);
      }
      forall id | id in t.active
        ensures UploadOk(after.rows, id, t.active[id])
      {
        assert UploadOk(s.rows, id, t.active[id]);
      }
    }
  }

  lemma SurvivorKeepsBlob(s: Store, o: Row, r: Row)
    requires Distinct(s.rows) && o in s.rows && r in s.rows && !Dropped(o)(r)
    ensures r.id !in Ids(Select(s.rows, Dropped(o))) && r.id != o.id
  {
    SelectMembers(s.rows, Dropped(o));
    if r.id in Ids(Select(s.rows, Dropped(o))) {
      var q :| q in Select(s.rows, Dropped(o)) && q.id == r.id;
      DistinctRows(s.rows, q, r);
    }
  }

  lemma ApplySizes(s: Store, t: Track, op: Op)
    requires SizesOk(s, t) && InTurn(t, s, op)
    ensures SizesOk(Apply(s, op), Follow(t, s, op)) <==> EndsWell(t, s, op)
  {
    match op
    case MakeDirectory(user, name, path, id, now) =>
      if CanCreate(s.rows, user, name, path) {
        InsertSizes(s, t, Row(id, name, path, 0, now, true, user));
      }
    case StartUpload(_, _, _, _, _, _, _) => StartSizes(s, t, op);
    case Receive(_, _, _) => ReceiveSizes(s, t, op);
    case FinishUpload(_, _, _, _, _, _) => FinishSizes(s, t, op);
    case Delete(user, name, path) => DeleteSizes(s, t, user, name, path);
  }

  // ----- runs -----

  function Tracked(t: Track, s: Store, ops: seq<Op>): Track
    decreases |ops|
  {
    if ops == [] then t else Tracked(Follow(t, s, ops[0]), Apply(s, ops[0]), ops[1..])
  }

  predicate AllInTurn(t: Track, s: Store, ops: seq<Op>)
    decreases |ops|
  {
    ops == [] || (InTurn(t, s, ops[0]) && AllInTurn(Follow(t, s, ops[0]), Apply(s, ops[0]), ops[1..]))
  }

  predicate AllEndWell(t: Track, s: Store, ops: seq<Op>)
    decreases |ops|
  {
    ops == [] || (EndsWell(t, s, ops[0]) && AllEndWell(Follow(t, s, ops[0]), Apply(s, ops[0]), ops[1..]))
  }

  /** The sizes are right after every operation. */
  predicate SizesThroughout(s: Store, t: Track, ops: seq<Op>)
    decreases |ops|
  {
    SizesOk(s, t) && (ops == [] || SizesThroughout(Apply(s, ops[0]), Follow(t, s, ops[0]), ops[1..]))
  }

  /** Over every run in which no object is uploaded to twice at a time: each recorded size is
      the total of all bytes that arrived for that row, each file is what the last upload
      wrote, and that is nothing but what the buffer held and what arrived, in order; as long
      as, and only as long as, every upload ends well. */
  lemma {:induction false} RunSizes(s: Store, t: Track, ops: seq<Op>)
    requires SizesOk(s, t) && AllInTurn(t, s, ops)
    ensures SizesThroughout(s, t, ops) <==> AllEndWell(t, s, ops)
    ensures AllEndWell(t, s, ops) ==> SizesOk(Run(s, ops), Tracked(t, s, ops))
    decreases |ops|
  {
    if ops != [] {
      ApplySizes(s, t, ops[0]);
      if EndsWell(t, s, ops[0]) {
        RunSizes(Apply(s, ops[0]), Follow(t, s, ops[0]), ops[1..]);
      }
    }
  }

  /** Where only the last operation may end an upload, one look at the end is enough. */
  lemma {:induction false} RunSizesAtEnd(s: Store, t: Track, ops: seq<Op>)
    requires SizesOk(s, t) && AllInTurn(t, s, ops)
    requires forall i :: 0 <= i < |ops| - 1 ==> !ops[i].FinishUpload?
    ensures SizesOk(Run(s, ops), Tracked(t, s, ops)) <==> AllEndWell(t, s, ops)
    decreases |ops|
  {
    if ops != [] {
      ApplySizes(s, t, ops[0]);
      if |ops| == 1 {
        assert ops[1..] == [];
      } else {
        RunSizesAtEnd(Apply(s, ops[0]), Follow(t, s, ops[0]), ops[1..]);
      }
    }
  }

  /** With no upload to it running, the length of a file against its recorded size. An upload
      that found its session's buffer empty leaves a file no longer than the size, and as long
      exactly when all earlier uploads were empty and this one was written in full. An upload
      written in full leaves a file no longer than the size exactly when it found no more in
      the buffer than all earlier uploads had brought. */
  lemma QuiescentSizes(s: Store, t: Track, r: Row)
    requires SizesOk(s, t) && r in s.rows && r.id !in t.active && Past(t, r.id) != []
    ensures r.id in s.blobs
    ensures var h, length := Past(t, r.id), |s.blobs[r.id]|;
            var last, earlier := h[|h| - 1], Total(h[..|h| - 1]);
            && r.size == Total(h)
            && s.blobs[r.id] == last.written && InOrder(last)
            && (last.carried == [] ==>
                  length <= r.size && (length == r.size <==> earlier == 0 && last.written == last.arrived))
            && (last.written == last.carried + last.arrived ==>
                  (length <= r.size <==> |last.carried| <= earlier))
  {
    assert RowOk(s, t, r);
    var h := Past(t, r.id);
    var last := h[|h| - 1];
    assert InOrder(last);
    if last.carried == [] {
      assert last.carried + last.arrived == last.arrived;
    }
  }

  /** So for a first upload written in full, recorded as it should be, the bound is exactly
      that the buffer was empty. */
  lemma FirstUploadSize(s: Store, t: Track, r: Row)
    requires SizesOk(s, t) && r in s.rows && r.id !in t.active && |Past(t, r.id)| == 1
    requires var only := Past(t, r.id)[0]; only.written == only.carried + only.arrived
    ensures r.id in s.blobs
    ensures |s.blobs[r.id]| <= r.size <==> Past(t, r.id)[0].carried == []
  {
    QuiescentSizes(s, t, r);
    assert Past(t, r.id)[..0] == [];
  }

  /** The sizes being right is needed: a first upload that found the buffer empty and was
      written in full, but ended under another user, leaves a file longer than its size. */
  lemma EndedForAnother(s: Store, t: Track, op: Op, r: Row)
    requires SizesOk(s, t) && op.FinishUpload? && InTurn(t, s, op)
    requires r in s.rows && r.id == op.into.value && Past(t, r.id) == [] && op.user != t.active[r.id].user
    requires var tr := t.active[r.id].transfer; tr.carried == [] && tr.written == tr.arrived && tr.arrived != []
    ensures r in Apply(s, op).rows && r.id in Apply(s, op).blobs && |Apply(s, op).blobs[r.id]| > r.size
  {
    FinishAliveSizes(s, t, op);
    assert RowOk(s, t, r);
  }
}
