/** The `fs_objects` table and the blob directory as values: what each query of
    src/database/fs_objects.hpp and each operation of src/database/fs_objects.cpp does. */
module FsTable {
  import opened Helpers
  import opened Paths
  import Like

  newtype Byte = b: int | 0 <= b < 256

  /** What generate_uuid_string(64) can return; nothing is assumed about its randomness. */
  type Uuid = s: string | |s| == 64 witness seq(64, _ => '0')

  datatype Option<+T> = None | Some(value: T)

  datatype Row = Row(id: Uuid, name: string, path: string, size: nat, modified: string, isDir: bool, user: string)

  type Rows = seq<Row>
  type Blobs = map<string, seq<Byte>>

  /** The table and the files under "data/", each named by a row id. */
  datatype Store = Store(rows: Rows, blobs: Blobs)

  // ----- queries -----

  function Select(rows: Rows, p: Row -> bool): Rows {
    if rows == [] then []
    else (if p(rows[0]) then [rows[0]] else []) + Select(rows[1..], p)
  }

  function IsObject(user: string, name: string, path: string): Row -> bool {
    (r: Row) => r.user == user && r.name == name && r.path == path
  }

  function InDirectory(user: string, path: string): Row -> bool {
    (r: Row) => r.user == user && r.path == path
  }

  function LikePath(user: string, pattern: string): Row -> bool {
    (r: Row) => r.user == user && Like.Matches(pattern, r.path)
  }

  function HasId(id: string): Row -> bool {
    (r: Row) => r.id == id
  }

  function OwnedBy(user: string): Row -> bool {
    (r: Row) => r.user == user
  }

  function Not(p: Row -> bool): Row -> bool {
    (r: Row) => !p(r)
  }

  /** UNIQUE (name, path) ON CONFLICT IGNORE spans all users; a clash on the primary key is an
      error that run_param_query does not report. Either way nothing is inserted. */
  function Insert(rows: Rows, r: Row): Rows {
    if Clashes(rows, r) then rows else rows + [r]
  }

  predicate Clashes(rows: Rows, r: Row) {
    exists q :: q in rows && (q.id == r.id || (q.name == r.name && q.path == r.path))
  }

  function SetSize(rows: Rows, id: string, size: nat, now: string): Rows {
    seq(|rows|, i requires 0 <= i < |rows| =>
      if rows[i].id == id then rows[i].(size := size, modified := now) else rows[i])
  }

  function Ids(rows: Rows): set<string> {
    set r | r in rows :: r.id
  }

  // ----- operations -----

  function Lookup(rows: Rows, user: string, name: string, path: string): Option<Row> {
    var found := Select(rows, IsObject(user, name, path));
    if found == [] then None else Some(found[0])
  }

  predicate ParentAllows(rows: Rows, user: string, path: string) {
    || path == "/"
    || (var d := Lookup(rows, user, Basename(path), ParentPath(path)); d.Some? && d.value.isDir)
  }

  predicate CanCreate(rows: Rows, user: string, name: string, path: string) {
    ParentAllows(rows, user, path) && Lookup(rows, user, name, path).None?
  }

  /** The table after create_object, and the id it returns ("" for a refusal). */
  function Create(rows: Rows, user: string, name: string, path: string, size: nat, isDir: bool, id: Uuid, now: string)
    : (Rows, string)
  {
    if CanCreate(rows, user, name, path) then
      (Insert(rows, Row(id, name, path, size, now, isDir, user)), id)
    else
      (rows, "")
  }

  function Resize(rows: Rows, user: string, name: string, path: string, size: nat, now: string): (Rows, string) {
    match Lookup(rows, user, name, path)
    case None => (rows, "")
    case Some(o) => (SetSize(rows, o.id, size, now), o.id)
  }

  /** The LIKE pattern remove_fs_object deletes with. */
  function Pattern(name: string, path: string): string {
    DirJoin(path, name) + "%"
  }

  /** Which rows remove_fs_object drops, given the object it found. */
  function Dropped(o: Row): Row -> bool {
    (r: Row) => r.id == o.id || (o.isDir && r.user == o.user && Like.Matches(Pattern(o.name, o.path), r.path))
  }

  function Remove(s: Store, user: string, name: string, path: string): (Store, bool) {
    match Lookup(s.rows, user, name, path)
    case None => (s, false)
    case Some(o) =>
      (Store(Select(s.rows, Not(Dropped(o))), s.blobs - Ids(Select(s.rows, Dropped(o))) - {o.id}), true)
  }

  // ----- facts about queries -----

  lemma {:induction false} SelectMembers(rows: Rows, p: Row -> bool)
    ensures forall r :: r in Select(rows, p) <==> r in rows && p(r)
  {
    if rows != [] {
      SelectMembers(rows[1..], p);
      assert forall r :: r in rows <==> r == rows[0] || r in rows[1..];
    }
  }

  lemma {:induction false} SelectAppend(a: Rows, b: Rows, p: Row -> bool)
    ensures Select(a + b, p) == Select(a, p) + Select(b, p)
  {
    if a == [] {
      assert a + b == b;
    } else {
      var head := if p(a[0]) then [a[0]] else [];
      SelectAppend(a[1..], b, p);
      assert (a + b)[0] == a[0] && (a + b)[1..] == a[1..] + b;
      Regroup(head, Select(a[1..], p), Select(b, p));
    }
  }

  /** Selecting twice, when the first condition only drops what the second drops too. */
  lemma {:induction false} SelectSelect(rows: Rows, p: Row -> bool, q: Row -> bool)
    requires forall r :: r in rows && q(r) ==> p(r)
    ensures Select(Select(rows, p), q) == Select(rows, q)
  {
    if rows != [] {
      var head, tail := rows[0], rows[1..];
      assert head in rows;
      SelectSelect(tail, p, q);
      SelectAppend(if p(head) then [head] else [], Select(tail, p), q);
    }
  }

  lemma {:induction false} SelectSame(a: Rows, b: Rows, p: Row -> bool, q: Row -> bool)
    requires |a| == |b|
    requires forall i :: 0 <= i < |a| ==> (p(a[i]) == q(b[i])) && (p(a[i]) ==> a[i] == b[i])
    ensures Select(a, p) == Select(b, q)
  {
    if a != [] {
      SelectSame(a[1..], b[1..], p, q);
    }
  }

  lemma LookupFacts(rows: Rows, user: string, name: string, path: string)
    ensures match Lookup(rows, user, name, path)
            case Some(o) => o in rows && o.user == user && o.name == name && o.path == path
            case None => forall r :: r in rows ==> !(r.user == user && r.name == name && r.path == path)
  {
    var p := IsObject(user, name, path);
    SelectMembers(rows, p);
    if Select(rows, p) == [] {
      forall r | r in rows
        ensures !p(r)
      {
        assert p(r) ==> r in Select(rows, p);
      }
    } else {
      assert Select(rows, p)[0] in Select(rows, p);
    }
  }

  // ----- what every table keeps -----

  predicate Alike(q: Row, r: Row) {
    q.id == r.id || (q.name == r.name && q.path == r.path)
  }

  /** Ids are unique, and so are (name, path) pairs. */
  predicate Distinct(rows: Rows) {
    forall i, j :: 0 <= i < j < |rows| ==> !Alike(rows[i], rows[j])
  }

  lemma DistinctRows(rows: Rows, q: Row, r: Row)
    requires Distinct(rows) && q in rows && r in rows && Alike(q, r)
    ensures q == r
  {
    var i :| 0 <= i < |rows| && rows[i] == q;
    var j :| 0 <= j < |rows| && rows[j] == r;
  }

  lemma LookupFinds(rows: Rows, r: Row)
    requires Distinct(rows) && r in rows
    ensures Lookup(rows, r.user, r.name, r.path) == Some(r)
  {
    LookupFacts(rows, r.user, r.name, r.path);
    var o := Lookup(rows, r.user, r.name, r.path);
    if o.Some? {
      DistinctRows(rows, o.value, r);
    }
  }

  lemma DistinctCons(head: Row, tail: Rows)
    ensures Distinct([head] + tail) <==> Distinct(tail) && forall r :: r in tail ==> !Alike(head, r)
  {
    var rows := [head] + tail;
    if Distinct(rows) {
      forall i, j | 0 <= i < j < |tail| ensures !Alike(tail[i], tail[j]) {
        assert !Alike(rows[i + 1], rows[j + 1]);
      }
      forall r | r in tail ensures !Alike(head, r) {
        var k :| 0 <= k < |tail| && tail[k] == r;
        assert !Alike(rows[0], rows[k + 1]);
      }
    }
  }

  lemma {:induction false} SelectDistinct(rows: Rows, p: Row -> bool)
    requires Distinct(rows)
    ensures Distinct(Select(rows, p))
  {
    if rows != [] {
      var head, tail := rows[0], rows[1..];
      assert rows == [head] + tail;
      DistinctCons(head, tail);
      SelectDistinct(tail, p);
      SelectMembers(tail, p);
      DistinctCons(head, Select(tail, p));
    }
  }

  lemma InsertDistinct(rows: Rows, r: Row)
    requires Distinct(rows)
    ensures Distinct(Insert(rows, r))
  {
    if !Clashes(rows, r) {
      forall i | 0 <= i < |rows| ensures !Alike(rows[i], r) {
        assert rows[i] in rows;
      }
    }
  }

  lemma SetSizeDistinct(rows: Rows, id: string, size: nat, now: string)
    requires Distinct(rows)
    ensures Distinct(SetSize(rows, id, size, now))
  {
    var s := SetSize(rows, id, size, now);
    forall i, j | 0 <= i < j < |s| ensures !Alike(s[i], s[j]) {
      assert !Alike(rows[i], rows[j]);
    }
  }

  /** Row `d` is the directory that row `r` lies in. */
  predicate IsParent(d: Row, r: Row) {
    d.user == r.user && d.name == Basename(r.path) && d.path == ParentPath(r.path) && d.isDir
  }

  predicate HasParent(rows: Rows, r: Row) {
    r.path == "/" || exists d :: d in rows && IsParent(d, r)
  }

  /** Every row not at the root has its parent row present and marked as a directory. */
  predicate Closed(rows: Rows) {
    forall r :: r in rows ==> Absolute(r.path) && HasParent(rows, r)
  }

  /** Names and paths that make the string tree a real one. */
  predicate CleanRows(rows: Rows) {
    forall r :: r in rows ==> Clean(r.path) && ValidName(r.name)
  }
}
