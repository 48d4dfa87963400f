/** What the operations on the flat table keep: uniqueness, isolation between users, and the
    directory tree that exists only as strings (src/database/fs_objects.cpp:76-164). */
module FsLaws {
  import opened Paths
  import opened FsTable
  import Like

  // ----- uniqueness, whatever ids the generator returns -----

  lemma CreateDistinct(rows: Rows, user: string, name: string, path: string, size: nat, isDir: bool, id: Uuid,
                       now: string)
    requires Distinct(rows)
    ensures Distinct(Create(rows, user, name, path, size, isDir, id, now).0)
  {
    InsertDistinct(rows, Row(id, name, path, size, now, isDir, user));
  }

  lemma ResizeDistinct(rows: Rows, user: string, name: string, path: string, size: nat, now: string)
    requires Distinct(rows)
    ensures Distinct(Resize(rows, user, name, path, size, now).0)
  {
    var o := Lookup(rows, user, name, path);
    if o.Some? {
      SetSizeDistinct(rows, o.value.id, size, now);
    }
  }

  lemma RemoveDistinct(s: Store, user: string, name: string, path: string)
    requires Distinct(s.rows)
    ensures Distinct(Remove(s, user, name, path).0.rows)
  {
    var o := Lookup(s.rows, user, name, path);
    if o.Some? {
      SelectDistinct(s.rows, Not(Dropped(o.value)));
    }
  }

  /** The returned id names the object just created exactly when the id is fresh and no other
      user holds the same (name, path); create_object itself returns it in every case. */
  lemma CreatedIdIsLive(rows: Rows, user: string, name: string, path: string, size: nat, isDir: bool, id: Uuid,
                        now: string)
    requires Distinct(rows) && CanCreate(rows, user, name, path)
    ensures var (after, returned) := Create(rows, user, name, path, size, isDir, id, now);
            && returned == id
            && (Lookup(after, user, name, path) == Some(Row(id, name, path, size, now, isDir, user)) <==>
                id !in Ids(rows) && !HeldByAnother(rows, user, name, path))
  {
    var r := Row(id, name, path, size, now, isDir, user);
    LookupFacts(rows, user, name, path);
    if Clashes(rows, r) {
      var q :| q in rows && (q.id == r.id || (q.name == r.name && q.path == r.path));
      if q.name == name && q.path == path {
        assert HeldByAnother(rows, user, name, path);
      }
    } else {
      InsertDistinct(rows, r);
      LookupFinds(rows + [r], r);
    }
  }

  predicate HeldByAnother(rows: Rows, user: string, name: string, path: string) {
    exists q :: q in rows && q.user != user && q.name == name && q.path == path
  }

  // ----- isolation -----

  function Others(rows: Rows, user: string): Rows {
    Select(rows, Not(OwnedBy(user)))
  }

  lemma CreateIsolated(rows: Rows, user: string, name: string, path: string, size: nat, isDir: bool, id: Uuid,
                       now: string)
    ensures Others(Create(rows, user, name, path, size, isDir, id, now).0, user) == Others(rows, user)
  {
    var r := Row(id, name, path, size, now, isDir, user);
    SelectAppend(rows, [r], Not(OwnedBy(user)));
    assert [r][1..] == [];
  }

  lemma ResizeIsolated(rows: Rows, user: string, name: string, path: string, size: nat, now: string)
    requires Distinct(rows)
    ensures Others(Resize(rows, user, name, path, size, now).0, user) == Others(rows, user)
  {
    LookupFacts(rows, user, name, path);
    var o := Lookup(rows, user, name, path);
    if o.Some? {
      var p, after := Not(OwnedBy(user)), SetSize(rows, o.value.id, size, now);
      forall i | 0 <= i < |rows|
        ensures p(rows[i]) == p(after[i]) && (p(rows[i]) ==> rows[i] == after[i])
      {
        assert rows[i] in rows;
        if rows[i].id == o.value.id {
          DistinctRows(rows, rows[i], o.value);
        }
      }
      SelectSame(rows, after, p, p);
    }
  }

  lemma RemoveIsolated(s: Store, user: string, name: string, path: string)
    requires Distinct(s.rows)
    ensures Others(Remove(s, user, name, path).0.rows, user) == Others(s.rows, user)
  {
    LookupFacts(s.rows, user, name, path);
    var o := Lookup(s.rows, user, name, path);
    if o.Some? {
      forall r | r in s.rows && Not(OwnedBy(user))(r)
        ensures Not(Dropped(o.value))(r)
      {
        if r.id == o.value.id {
          DistinctRows(s.rows, r, o.value);
        }
      }
      SelectSelect(s.rows, Not(Dropped(o.value)), Not(OwnedBy(user)));
    }
  }

  // ----- the tree is never broken -----

  lemma CreateClosed(rows: Rows, user: string, name: string, path: string, size: nat, isDir: bool, id: Uuid,
                     now: string)
    requires Closed(rows) && Absolute(path)
    ensures Closed(Create(rows, user, name, path, size, isDir, id, now).0)
  {
    var after := Create(rows, user, name, path, size, isDir, id, now).0;
    forall r | r in after
      ensures Absolute(r.path) && HasParent(after, r)
    {
      if r in rows {
        ParentStays(rows, after, r);
      } else {
        AllowedHasParent(rows, r);
        ParentStays(rows, after, r);
      }
    }
  }

  lemma ParentStays(rows: Rows, after: Rows, r: Row)
    requires HasParent(rows, r)
    requires forall d :: d in rows ==> d in after
    ensures HasParent(after, r)
  {
  }

  lemma AllowedHasParent(rows: Rows, r: Row)
    requires ParentAllows(rows, r.user, r.path)
    ensures HasParent(rows, r)
  {
    LookupFacts(rows, r.user, Basename(r.path), ParentPath(r.path));
    if r.path != "/" {
      assert IsParent(Lookup(rows, r.user, Basename(r.path), ParentPath(r.path)).value, r);
    }
  }

  lemma ResizeClosed(rows: Rows, user: string, name: string, path: string, size: nat, now: string)
    requires Closed(rows)
    ensures Closed(Resize(rows, user, name, path, size, now).0)
  {
    var o := Lookup(rows, user, name, path);
    if o.Some? {
      forall r | r in SetSize(rows, o.value.id, size, now)
        ensures Absolute(r.path) && HasParent(SetSize(rows, o.value.id, size, now), r)
      {
        ResizedHasParent(rows, o.value.id, size, now, r);
      }
    }
  }

  lemma ResizedHasParent(rows: Rows, id: string, size: nat, now: string, r: Row)
    requires Closed(rows) && r in SetSize(rows, id, size, now)
    ensures Absolute(r.path) && HasParent(SetSize(rows, id, size, now), r)
  {
    var after := SetSize(rows, id, size, now);
    var i :| 0 <= i < |after| && after[i] == r;
    var was := rows[i];
    assert was in rows && HasParent(rows, was);
    if r.path != "/" {
      var d :| d in rows && IsParent(d, was);
      ResizedParent(rows, id, size, now, d, r);
    }
  }

  lemma ResizedParent(rows: Rows, id: string, size: nat, now: string, d: Row, r: Row)
    requires d in rows && IsParent(d, r)
    ensures HasParent(SetSize(rows, id, size, now), r)
  {
    var after := SetSize(rows, id, size, now);
    var k :| 0 <= k < |rows| && rows[k] == d;
    assert after[k] in after && IsParent(after[k], r);
  }

  /** A row whose directory goes while it stays: its path is "//" and the removed name, which
      the pattern "/name%" does not reach. MKD creates such rows from "/name/child". */
  predicate Strands(rows: Rows, o: Row) {
    o.isDir && o.path == "/" &&
    exists r :: r in rows && r.user == o.user && r.path == "//" + o.name && !Like.Matches(Pattern(o.name, "/"), r.path)
  }

  /** A removal leaves no orphan, except precisely those. Names with '%' and '_' in them, and
      the rows they delete beyond the subtree, are covered: a LIKE delete is closed under
      going deeper. */
  lemma RemoveClosed(s: Store, user: string, name: string, path: string)
    requires Distinct(s.rows) && Closed(s.rows) && '/' !in name
    requires Lookup(s.rows, user, name, path).Some?
    ensures Closed(Remove(s, user, name, path).0.rows) <==>
            !Strands(s.rows, Lookup(s.rows, user, name, path).value)
  {
    LookupFacts(s.rows, user, name, path);
    var o := Lookup(s.rows, user, name, path).value;
    if Strands(s.rows, o) {
      SelectMembers(s.rows, Not(Dropped(o)));
      StrandedIsOrphan(s.rows, o, Remove(s, user, name, path).0.rows);
    } else {
      RemoveKeepsClosed(s, user, name, path);
    }
  }

  /** Whatever the name. */
  lemma RemoveKeepsClosed(s: Store, user: string, name: string, path: string)
    requires Distinct(s.rows) && Closed(s.rows)
    requires Lookup(s.rows, user, name, path).Some? ==> !Strands(s.rows, Lookup(s.rows, user, name, path).value)
    ensures Closed(Remove(s, user, name, path).0.rows)
  {
    LookupFacts(s.rows, user, name, path);
    if Lookup(s.rows, user, name, path).Some? {
      var o := Lookup(s.rows, user, name, path).value;
      var after := Remove(s, user, name, path).0.rows;
      SelectMembers(s.rows, Not(Dropped(o)));
      forall r | r in after
        ensures Absolute(r.path) && HasParent(after, r)
      {
        if r.path != "/" {
          var d :| d in s.rows && IsParent(d, r);
          SurvivorKeepsParent(s.rows, o, r, d);
        }
      }
    }
  }

  lemma StrandedIsOrphan(rows: Rows, o: Row, after: Rows)
    requires Distinct(rows) && o in rows && '/' !in o.name && Strands(rows, o)
    requires forall r :: r in after <==> r in rows && !Dropped(o)(r)
    ensures !Closed(after)
  {
    var r :| r in rows && r.user == o.user && r.path == "//" + o.name && !Like.Matches(Pattern(o.name, "/"), r.path);
    if r.id == o.id {
      DistinctRows(rows, r, o);
    }
    assert r in after;
    LastSlashIs(r.path, 1);
    assert Basename(r.path) == o.name && ParentPath(r.path) == "/";
    forall d | d in after
      ensures !IsParent(d, r)
    {
      if IsParent(d, r) {
        DistinctRows(rows, d, o);
      }
    }
  }

  lemma SurvivorKeepsParent(rows: Rows, o: Row, r: Row, d: Row)
    requires Distinct(rows) && o in rows && d in rows && r in rows
    requires Absolute(r.path) && IsParent(d, r) && r.path != "/"
    requires !Dropped(o)(r) && !Strands(rows, o)
    ensures !Dropped(o)(d)
  {
    var full := DirJoin(o.path, o.name);
    if d.id == o.id {
      DistinctRows(rows, d, o);
      GlueOfCut(r.path);
      if LastSlash(r.path) == 1 {
        LastSlashAtOne(r.path);
      } else {
        assert full + "" == r.path;
        Like.SelfMatches(full, "");
      }
    } else if Dropped(o)(d) {
      ParentIsPrefix(r.path);
      var more := r.path[|d.path|..];
      assert d.path + more == r.path;
      Like.MatchesExtended(full, d.path, more);
    }
  }

  /** Everything below a removed directory goes, at any depth. */
  lemma SubtreeIsDropped(o: Row, r: Row)
    requires o.isDir && r.user == o.user && Under(DirJoin(o.path, o.name), r.path)
    ensures Dropped(o)(r)
  {
    var full := DirJoin(o.path, o.name);
    var tail := r.path[|full|..];
    assert full + tail == r.path;
    Like.SelfMatches(full, tail);
  }

  /** With no '%' in the full path the rows dropped are those whose path starts with something
      that fits it: '_' fits any character, and ASCII letters fit in either case. So the
      contents of siblings with a longer or differently cased name go too. */
  lemma FittingDelete(o: Row, r: Row)
    requires o.isDir && '%' !in DirJoin(o.path, o.name)
    ensures Dropped(o)(r) <==>
            r.id == o.id || (r.user == o.user && Like.PrefixFits(DirJoin(o.path, o.name), r.path))
  {
    Like.PrefixPattern(DirJoin(o.path, o.name), r.path);
  }

  /** With no '_' either, it is starting with it up to case. */
  lemma LiteralDelete(o: Row, r: Row)
    requires o.isDir && Like.NoWildcards(DirJoin(o.path, o.name))
    ensures Dropped(o)(r) <==>
            r.id == o.id || (r.user == o.user && Like.PrefixIgnoringCase(DirJoin(o.path, o.name), r.path))
  {
    Like.LiteralPattern(DirJoin(o.path, o.name), r.path);
  }

  /** A file's removal takes its row only. */
  lemma FileDelete(o: Row, r: Row)
    requires !o.isDir
    ensures Dropped(o)(r) <==> r.id == o.id
  {
  }

  // ----- clean tables -----

  /** In a clean table a directory that may be created in has a clean path, "//x" apart. */
  lemma AllowedIsClean(rows: Rows, user: string, path: string)
    requires CleanRows(rows) && Absolute(path) && ParentAllows(rows, user, path)
    ensures Clean(path) <==> LastSlash(path) != 1
  {
    LookupFacts(rows, user, Basename(path), ParentPath(path));
    if Clean(path) {
      CleanSecond(path);
    } else if LastSlash(path) != 1 {
      GlueOfCut(path);
      var d := Lookup(rows, user, Basename(path), ParentPath(path)).value;
      CleanGlue(d.path, d.name);
    }
  }

  /** A created row is clean exactly when its name is not empty and its path is not "//x". */
  lemma CreateClean(rows: Rows, user: string, name: string, path: string, size: nat, isDir: bool, id: Uuid, now: string)
    requires CleanRows(rows) && Absolute(path) && '/' !in name
    requires CanCreate(rows, user, name, path)
    requires !Clashes(rows, Row(id, name, path, size, now, isDir, user))
    ensures CleanRows(Create(rows, user, name, path, size, isDir, id, now).0) <==>
            name != "" && LastSlash(path) != 1
  {
    var r := Row(id, name, path, size, now, isDir, user);
    AllowedIsClean(rows, user, path);
    assert r in rows + [r];
  }

  lemma CreateKeepsClean(rows: Rows, user: string, name: string, path: string, size: nat, isDir: bool, id: Uuid,
                         now: string)
    requires CleanRows(rows) && Absolute(path) && ValidName(name) && LastSlash(path) != 1
    ensures CleanRows(Create(rows, user, name, path, size, isDir, id, now).0)
  {
    if CanCreate(rows, user, name, path) {
      AllowedIsClean(rows, user, path);
    }
  }

  lemma ResizeKeepsClean(rows: Rows, user: string, name: string, path: string, size: nat, now: string)
    requires CleanRows(rows)
    ensures CleanRows(Resize(rows, user, name, path, size, now).0)
  {
    var o := Lookup(rows, user, name, path);
    if o.Some? {
      var after := SetSize(rows, o.value.id, size, now);
      forall i | 0 <= i < |after|
        ensures Clean(after[i].path) && ValidName(after[i].name)
      {
        assert rows[i] in rows;
      }
    }
  }

  /** In a clean table no row can be stranded. */
  lemma CleanNeverStrands(rows: Rows, o: Row)
    requires CleanRows(rows)
    ensures !Strands(rows, o)
  {
    forall r | r in rows
      ensures r.path != "//" + o.name
    {
      CleanSecond(r.path);
    }
  }
}
