/** One user's part of the flat table. Every query but the last delete and the update names
    the user, so what an operation does to the user's rows is what it does to a table of
    these rows alone (src/database/fs_objects.hpp:10-32). */
module PerUser {
  import opened Paths
  import opened FsTable
  import opened FsLaws
  import opened Tree

  function Own(rows: Rows, user: string): Rows {
    Select(rows, OwnedBy(user))
  }

  /** The tree of one user's rows, whatever the rest of the table is like. */
  ghost function UserTree(rows: Rows, user: string): Dirs
    requires Tabled(Own(rows, user))
  {
    TreeOf(Own(rows, user), user)
  }

  lemma OwnMembers(rows: Rows, user: string)
    ensures forall r :: r in Own(rows, user) <==> r in rows && r.user == user
  {
    SelectMembers(rows, OwnedBy(user));
  }

  lemma LookupOwn(rows: Rows, user: string, name: string, path: string)
    ensures Lookup(Own(rows, user), user, name, path) == Lookup(rows, user, name, path)
  {
    SelectSelect(rows, OwnedBy(user), IsObject(user, name, path));
  }

  /** The new row would clash with another user's. */
  predicate ClashesElsewhere(rows: Rows, r: Row) {
    exists q :: q in rows && q.user != r.user && (q.id == r.id || (q.name == r.name && q.path == r.path))
  }

  lemma CreateOwn(rows: Rows, user: string, name: string, path: string, size: nat, isDir: bool, id: Uuid, now: string)
    ensures var r := Row(id, name, path, size, now, isDir, user);
            Own(Create(rows, user, name, path, size, isDir, id, now).0, user) ==
            if ClashesElsewhere(rows, r) then Own(rows, user)
            else Create(Own(rows, user), user, name, path, size, isDir, id, now).0
  {
    LookupOwn(rows, user, name, path);
    LookupOwn(rows, user, Basename(path), ParentPath(path));
    InsertOwn(rows, Row(id, name, path, size, now, isDir, user));
  }

  lemma InsertOwn(rows: Rows, r: Row)
    ensures Own(Insert(rows, r), r.user) ==
            if ClashesElsewhere(rows, r) then Own(rows, r.user) else Insert(Own(rows, r.user), r)
  {
    ClashOwn(rows, r);
    SelectAppend(rows, [r], OwnedBy(r.user));
    assert [r][1..] == [];
  }

  lemma ClashOwn(rows: Rows, r: Row)
    ensures Clashes(rows, r) <==> Clashes(Own(rows, r.user), r) || ClashesElsewhere(rows, r)
  {
    OwnMembers(rows, r.user);
  }

  lemma {:induction false} SetSizeOwn(rows: Rows, user: string, id: string, size: nat, now: string)
    ensures Own(SetSize(rows, id, size, now), user) == SetSize(Own(rows, user), id, size, now)
  {
    if rows != [] {
      SetSizeOwn(rows[1..], user, id, size, now);
      assert SetSize(rows, id, size, now)[1..] == SetSize(rows[1..], id, size, now);
    }
  }

  lemma ResizeOwn(rows: Rows, user: string, name: string, path: string, size: nat, now: string)
    ensures Own(Resize(rows, user, name, path, size, now).0, user) ==
            Resize(Own(rows, user), user, name, path, size, now).0
  {
    LookupOwn(rows, user, name, path);
    var o := Lookup(rows, user, name, path);
    if o.Some? {
      SetSizeOwn(rows, user, o.value.id, size, now);
    }
  }

  lemma {:induction false} SelectCommutes(rows: Rows, p: Row -> bool, q: Row -> bool)
    ensures Select(Select(rows, p), q) == Select(Select(rows, q), p)
  {
    if rows != [] {
      var head, tail := rows[0], rows[1..];
      SelectCommutes(tail, p, q);
      SelectHead(head, Select(tail, p), q);
      SelectHead(head, Select(tail, q), p);
      assert rows == [head] + tail && forall x: Rows :: [] + x == x;
      SelectHead(head, tail, p);
      SelectHead(head, tail, q);
    }
  }

  lemma SelectHead(head: Row, tail: Rows, p: Row -> bool)
    ensures Select([head] + tail, p) == (if p(head) then [head] else []) + Select(tail, p)
  {
    assert ([head] + tail)[1..] == tail;
  }

  lemma RemoveOwn(s: Store, user: string, name: string, path: string)
    ensures Own(Remove(s, user, name, path).0.rows, user) ==
            Remove(s.(rows := Own(s.rows, user)), user, name, path).0.rows
  {
    LookupOwn(s.rows, user, name, path);
    var o := Lookup(s.rows, user, name, path);
    if o.Some? {
      SelectCommutes(s.rows, Not(Dropped(o.value)), OwnedBy(user));
    }
  }

  /** The tree of all users is closed exactly when each user's is. */
  lemma ClosedPerUser(rows: Rows)
    ensures Closed(rows) <==> forall user :: Closed(Own(rows, user))
  {
    if Closed(rows) {
      forall user
        ensures Closed(Own(rows, user))
      {
        OwnMembers(rows, user);
        forall r | r in Own(rows, user)
          ensures Absolute(r.path) && HasParent(Own(rows, user), r)
        {
          if r.path != "/" {
            var d :| d in rows && IsParent(d, r);
            assert d in Own(rows, user);
          }
        }
      }
    }
    if forall user :: Closed(Own(rows, user)) {
      forall r | r in rows
        ensures Absolute(r.path) && HasParent(rows, r)
      {
        OwnMembers(rows, r.user);
        assert Closed(Own(rows, r.user)) && r in Own(rows, r.user);
        ParentStays(Own(rows, r.user), rows, r);
      }
    }
  }

  // ----- what the user's own operations keep -----

  /** A path that starts with one slash and not with two. */
  predicate Canonical(p: string) {
    Absolute(p) && (|p| > 1 ==> p[1] != '/')
  }

  lemma CanonicalSlash(p: string)
    requires Canonical(p)
    ensures LastSlash(p) != 1 && Canonical(ParentPath(p))
  {
  }

  /** Every row has its parent, at a canonical path. Names may be anything, empty ones included. */
  predicate Rooted(rows: Rows) {
    Closed(rows) && forall r :: r in rows ==> Canonical(r.path)
  }

  /** A path with two slashes in front and more behind has a parent like itself, which no row
      has; so nothing is created there. */
  lemma CreateRooted(rows: Rows, user: string, name: string, path: string, size: nat, isDir: bool, id: Uuid,
                     now: string)
    requires Rooted(rows) && Absolute(path) && LastSlash(path) != 1
    ensures Rooted(Create(rows, user, name, path, size, isDir, id, now).0)
  {
    CreateClosed(rows, user, name, path, size, isDir, id, now);
    if !Canonical(path) {
      LookupFacts(rows, user, Basename(path), ParentPath(path));
    }
  }

  lemma ResizeRooted(rows: Rows, user: string, name: string, path: string, size: nat, now: string)
    requires Rooted(rows)
    ensures Rooted(Resize(rows, user, name, path, size, now).0)
  {
    ResizeClosed(rows, user, name, path, size, now);
    var o := Lookup(rows, user, name, path);
    if o.Some? {
      var after := SetSize(rows, o.value.id, size, now);
      forall i | 0 <= i < |after|
        ensures Canonical(after[i].path)
      {
        assert rows[i] in rows;
      }
    }
  }

  lemma RemoveRooted(s: Store, user: string, name: string, path: string)
    requires Distinct(s.rows) && Rooted(s.rows)
    ensures Rooted(Remove(s, user, name, path).0.rows)
  {
    var o := Lookup(s.rows, user, name, path);
    if o.Some? {
      SelectMembers(s.rows, Not(Dropped(o.value)));
      RemoveKeepsClosed(s, user, name, path);
    }
  }
}
