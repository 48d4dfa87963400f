/** The directory tree the flat table stands for, and the proof that each operation on the
    table is the operation on the tree (src/database/fs_objects.cpp:24-164). */
module Tree {
  import opened Paths
  import opened FsTable
  import opened FsLaws
  import Like

  datatype Entry = Entry(id: string, size: nat, isDir: bool)

  /** A tree, given by its domain: the component sequence of every node but the root. */
  type Dirs = map<seq<string>, Entry>

  // ----- the reference: operations on trees -----

  predicate IsDirectory(t: Dirs, d: seq<string>) {
    d == [] || (d in t && t[d].isDir)
  }

  /** Every node hangs off the root or off a directory of the tree. */
  predicate IsTree(t: Dirs) {
    forall k :: k in t ==> k != [] && IsDirectory(t, k[..|k| - 1])
  }

  ghost predicate IsChild(t: Dirs, d: seq<string>, name: string) {
    d + [name] in t
  }

  function InsertNode(t: Dirs, d: seq<string>, name: string, e: Entry): Dirs {
    if IsDirectory(t, d) && d + [name] !in t then t[d + [name] := e] else t
  }

  function DeleteSubtree(t: Dirs, at: seq<string>): Dirs {
    map k | k in t && !(at <= k) :: t[k]
  }

  function ResizeNode(t: Dirs, at: seq<string>, size: nat): Dirs {
    if at in t then t[at := t[at].(size := size)] else t
  }

  // ----- the tree of a table -----

  /** What every table reachable with clean names and paths satisfies. */
  predicate Tabled(rows: Rows) {
    Distinct(rows) && CleanRows(rows) && Closed(rows)
  }

  function Key(r: Row): seq<string>
    requires Clean(r.path)
  {
    Components(r.path) + [r.name]
  }

  function EntryOf(r: Row): Entry {
    Entry(r.id, r.size, r.isDir)
  }

  lemma KeyDetermines(q: Row, r: Row)
    requires Clean(q.path) && Clean(r.path) && Key(q) == Key(r)
    ensures q.path == r.path && q.name == r.name
  {
    var a, b := Components(q.path), Components(r.path);
    assert (a + [q.name])[..|a|] == a && (b + [r.name])[..|b|] == b;
    assert |a| == |b| && (a + [q.name])[|a|] == (b + [r.name])[|b|];
    RenderOfComponents(q.path);
    RenderOfComponents(r.path);
  }

  lemma KeysAreDistinct(rows: Rows, q: Row, r: Row)
    requires Distinct(rows) && CleanRows(rows) && q in rows && r in rows && Key(q) == Key(r)
    ensures q == r
  {
    KeyDetermines(q, r);
    DistinctRows(rows, q, r);
  }

  lemma KeysAreInjective(rows: Rows)
    requires Distinct(rows) && CleanRows(rows)
    ensures forall q, r :: q in rows && r in rows && Key(q) == Key(r) ==> q == r
  {
    forall q, r | q in rows && r in rows && Key(q) == Key(r)
      ensures q == r
    {
      KeysAreDistinct(rows, q, r);
    }
  }

  ghost function TreeOf(rows: Rows, user: string): Dirs
    requires Distinct(rows) && CleanRows(rows)
  {
    KeysAreInjective(rows);
    map r | r in rows && r.user == user :: Key(r) := EntryOf(r)
  }

  ghost predicate Node(rows: Rows, user: string, r: Row, k: seq<string>)
    requires CleanRows(rows)
  {
    r in rows && r.user == user && Key(r) == k
  }

  /** Every node of `t` is a row of the user ... */
  ghost predicate Backed(rows: Rows, user: string, t: Dirs)
    requires CleanRows(rows)
  {
    forall k :: k in t ==> exists r :: Node(rows, user, r, k)
  }

  /** ... and every row of the user is a node of `t`, with the same contents. */
  ghost predicate Covers(rows: Rows, user: string, t: Dirs)
    requires CleanRows(rows)
  {
    forall r :: r in rows && r.user == user ==> Key(r) in t && t[Key(r)] == EntryOf(r)
  }

  lemma TreeNodes(rows: Rows, user: string)
    requires Distinct(rows) && CleanRows(rows)
    ensures Backed(rows, user, TreeOf(rows, user)) && Covers(rows, user, TreeOf(rows, user))
  {
    KeysAreInjective(rows);
    var t := TreeOf(rows, user);
    forall k | k in t
      ensures exists r :: Node(rows, user, r, k)
    {
      var r :| r in rows && r.user == user && k == Key(r);
      assert Node(rows, user, r, k);
    }
  }

  lemma TreeIs(rows: Rows, user: string, t: Dirs)
    requires Distinct(rows) && CleanRows(rows)
    requires Backed(rows, user, t) && Covers(rows, user, t)
    ensures TreeOf(rows, user) == t
  {
    var u := TreeOf(rows, user);
    TreeNodes(rows, user);
    forall k
      ensures k in t <==> k in u
      ensures k in t ==> t[k] == u[k]
    {
      if k in t {
        var r :| Node(rows, user, r, k);
      }
      if k in u {
        var r :| Node(rows, user, r, k);
      }
    }
  }

  /** The row at a key, and nothing else, is what Lookup finds for that name and path. */
  lemma LookupRefines(rows: Rows, user: string, c: seq<string>, name: string)
    requires Distinct(rows) && CleanRows(rows) && ValidNames(c) && ValidName(name)
    ensures var t, found := TreeOf(rows, user), Lookup(rows, user, name, Render(c));
            && (found.Some? <==> c + [name] in t)
            && (found.Some? ==> t[c + [name]] == EntryOf(found.value))
  {
    var t, found := TreeOf(rows, user), Lookup(rows, user, name, Render(c));
    TreeNodes(rows, user);
    LookupFacts(rows, user, name, Render(c));
    ComponentsOfRender(c);
    if c + [name] in t {
      var r :| Node(rows, user, r, c + [name]);
      SnocParts(Components(r.path), r.name, c, name);
      RenderOfComponents(r.path);
    }
  }

  lemma SnocParts(a: seq<string>, x: string, b: seq<string>, y: string)
    requires a + [x] == b + [y]
    ensures a == b && x == y
  {
    assert (a + [x])[..|a|] == a && (b + [y])[..|b|] == b;
    assert (a + [x])[|a|] == x && (b + [y])[|b|] == y;
  }

  /** A listing shows each child of the directory once, and nothing else. */
  lemma ListingRefines(rows: Rows, user: string, c: seq<string>)
    requires Distinct(rows) && CleanRows(rows) && ValidNames(c)
    ensures var t, listed := TreeOf(rows, user), Select(rows, InDirectory(user, Render(c)));
            && (forall r :: r in listed ==> IsChild(t, c, r.name) && t[c + [r.name]] == EntryOf(r))
            && (forall name :: IsChild(t, c, name) ==> exists r :: r in listed && r.name == name)
            && (forall i, j :: 0 <= i < j < |listed| ==> listed[i].name != listed[j].name)
  {
    var t, listed := TreeOf(rows, user), Select(rows, InDirectory(user, Render(c)));
    SelectMembers(rows, InDirectory(user, Render(c)));
    SelectDistinct(rows, InDirectory(user, Render(c)));
    TreeNodes(rows, user);
    ComponentsOfRender(c);
    forall name | IsChild(t, c, name)
      ensures exists r :: r in listed && r.name == name
    {
      var r :| Node(rows, user, r, c + [name]);
      SnocParts(Components(r.path), r.name, c, name);
      RenderOfComponents(r.path);
      assert r in listed;
    }
    forall i, j | 0 <= i < j < |listed|
      ensures listed[i].name != listed[j].name
    {
      assert listed[i] in listed && listed[j] in listed;
      assert !Alike(listed[i], listed[j]);
    }
  }

  lemma ParentRow(rows: Rows, r: Row) returns (p: Row)
    requires Tabled(rows) && r in rows && r.path != "/"
    ensures p in rows && p.user == r.user && p.isDir && |p.path| < |r.path|
    ensures Key(p) == Components(r.path)
  {
    CleanCut(r.path);
    p :| p in rows && IsParent(p, r);
  }

  /** Every directory on the way down to a row is a directory row of the same user. */
  lemma {:induction false} AncestorIsDirectory(rows: Rows, r: Row, k: seq<string>) returns (d: Row)
    requires Tabled(rows) && r in rows
    requires k != [] && k <= Components(r.path)
    ensures d in rows && d.user == r.user && d.isDir && Key(d) == k
    decreases |r.path|
  {
    var p := ParentRow(rows, r);
    var c := Components(r.path);
    if k == c {
      d := p;
    } else {
      ShorterPrefix(k, Components(p.path), p.name);
      d := AncestorIsDirectory(rows, p, k);
    }
  }

  lemma ShorterPrefix(k: seq<string>, init: seq<string>, last: string)
    requires k <= init + [last] && k != init + [last]
    ensures k <= init
  {
    assert k == (init + [last])[..|k|];
  }

  lemma TableIsTree(rows: Rows, user: string)
    requires Tabled(rows)
    ensures IsTree(TreeOf(rows, user))
  {
    var t := TreeOf(rows, user);
    TreeNodes(rows, user);
    forall k | k in t
      ensures k != [] && IsDirectory(t, k[..|k| - 1])
    {
      var r :| Node(rows, user, r, k);
      var c := Components(r.path);
      assert k[..|k| - 1] == c;
      if c != [] {
        var d := AncestorIsDirectory(rows, r, c);
      }
    }
  }

  // ----- the operations commute -----

  lemma AllowedRefines(rows: Rows, user: string, c: seq<string>)
    requires Tabled(rows) && ValidNames(c)
    ensures ParentAllows(rows, user, Render(c)) <==> IsDirectory(TreeOf(rows, user), c)
  {
    ComponentsOfRender(c);
    if c != [] {
      var init, last := c[..|c| - 1], c[|c| - 1];
      assert ValidName(last) && c == init + [last];
      ComponentsOfRender(init);
      CleanGlue(Render(init), last);
      LookupRefines(rows, user, init, last);
    }
  }

  /** Creating an object with a fresh id, where no other user holds the pair, is inserting a
      node; a refusal on one side is a refusal on the other. */
  lemma CreateRefines(rows: Rows, user: string, c: seq<string>, name: string, size: nat, isDir: bool, id: Uuid,
                      now: string)
    requires Tabled(rows) && ValidNames(c) && ValidName(name)
    requires id !in Ids(rows) && !HeldByAnother(rows, user, name, Render(c))
    ensures var (after, returned) := Create(rows, user, name, Render(c), size, isDir, id, now);
            var t := TreeOf(rows, user);
            && Tabled(after)
            && TreeOf(after, user) == InsertNode(t, c, name, Entry(id, size, isDir))
            && (returned == "" <==> !IsDirectory(t, c) || c + [name] in t)
  {
    var path := Render(c);
    var after := Create(rows, user, name, path, size, isDir, id, now).0;
    var t, r := TreeOf(rows, user), Row(id, name, path, size, now, isDir, user);
    ComponentsOfRender(c);
    CleanSecond(path);
    CreateKeepsTabled(rows, user, name, path, size, isDir, id, now);
    AllowedRefines(rows, user, c);
    LookupRefines(rows, user, c, name);
    if CanCreate(rows, user, name, path) {
      CreatedIdIsLive(rows, user, name, path, size, isDir, id, now);
      LookupFacts(after, user, name, path);
      assert after == rows + [r];
      TreeOfAppend(rows, r);
    }
  }

  lemma CreateKeepsTabled(rows: Rows, user: string, name: string, path: string, size: nat, isDir: bool, id: Uuid,
                          now: string)
    requires Tabled(rows) && Absolute(path) && ValidName(name) && LastSlash(path) != 1
    ensures Tabled(Create(rows, user, name, path, size, isDir, id, now).0)
  {
    CreateDistinct(rows, user, name, path, size, isDir, id, now);
    CreateClosed(rows, user, name, path, size, isDir, id, now);
    CreateKeepsClean(rows, user, name, path, size, isDir, id, now);
  }

  lemma TreeOfAppend(rows: Rows, r: Row)
    requires Distinct(rows + [r]) && CleanRows(rows + [r]) && Distinct(rows) && CleanRows(rows)
    ensures TreeOf(rows + [r], r.user) == TreeOf(rows, r.user)[Key(r) := EntryOf(r)]
  {
    var t := TreeOf(rows, r.user);
    var grown := t[Key(r) := EntryOf(r)];
    TreeNodes(rows, r.user);
    assert r in rows + [r];
    forall k | k in grown
      ensures exists q :: Node(rows + [r], r.user, q, k)
    {
      if k == Key(r) {
        assert Node(rows + [r], r.user, r, k);
      } else {
        var q :| Node(rows, r.user, q, k);
        assert Node(rows + [r], r.user, q, k);
      }
    }
    forall q | q in rows + [r] && q.user == r.user
      ensures Key(q) in grown && grown[Key(q)] == EntryOf(q)
    {
      if Key(q) == Key(r) {
        KeysAreDistinct(rows + [r], q, r);
      }
    }
    TreeIs(rows + [r], r.user, grown);
  }

  /** The LIKE delete takes nothing but the object and what lies below it. */
  predicate Exact(rows: Rows, o: Row) {
    forall r :: r in rows && Dropped(o)(r) ==> r == o || Under(DirJoin(o.path, o.name), r.path)
  }

  /** Removing an object is deleting its subtree, exactly when the LIKE delete is exact. */
  lemma RemoveRefines(s: Store, user: string, c: seq<string>, name: string)
    requires Tabled(s.rows) && ValidNames(c) && ValidName(name)
    requires Lookup(s.rows, user, name, Render(c)).Some?
    ensures var o := Lookup(s.rows, user, name, Render(c)).value;
            var after := Remove(s, user, name, Render(c)).0.rows;
            && Tabled(after)
            && (TreeOf(after, user) == DeleteSubtree(TreeOf(s.rows, user), c + [name]) <==> Exact(s.rows, o))
  {
    var rows, path := s.rows, Render(c);
    var o := Lookup(rows, user, name, path).value;
    var after := Remove(s, user, name, path).0.rows;
    LookupFacts(rows, user, name, path);
    ComponentsOfRender(c);
    assert Key(o) == c + [name];
    RemoveKeepsTabled(s, user, name, path);
    SelectMembers(rows, Not(Dropped(o)));
    if Exact(rows, o) {
      ExactRemovesSubtree(rows, after, o);
    } else {
      var r :| r in rows && Dropped(o)(r) && r != o && !Under(DirJoin(o.path, o.name), r.path);
      InexactRemovesMore(rows, after, o, r);
    }
  }

  lemma RemoveKeepsTabled(s: Store, user: string, name: string, path: string)
    requires Tabled(s.rows)
    ensures Tabled(Remove(s, user, name, path).0.rows)
  {
    RemoveDistinct(s, user, name, path);
    var o := Lookup(s.rows, user, name, path);
    if o.Some? {
      SelectMembers(s.rows, Not(Dropped(o.value)));
      CleanNeverStrands(s.rows, o.value);
      RemoveKeepsClosed(s, user, name, path);
    }
  }

  /** Lying below an object, on keys and on strings. */
  lemma BelowOnKeys(rows: Rows, o: Row, r: Row)
    requires CleanRows(rows) && Distinct(rows) && o in rows && r in rows
    ensures Key(o) <= Key(r) <==> (r.path == o.path && r.name == o.name) || Under(DirJoin(o.path, o.name), r.path)
  {
    ComponentsOfGlue(o.path, o.name);
    UnderIsPrefix(DirJoin(o.path, o.name), r.path);
    if Key(o) == Key(r) {
      KeyDetermines(o, r);
    } else {
      PrefixOfSnoc(Key(o), Components(r.path), r.name);
    }
  }

  lemma DroppedIsBelow(rows: Rows, o: Row, r: Row)
    requires Tabled(rows) && o in rows && r in rows && r.user == o.user && Exact(rows, o)
    ensures Dropped(o)(r) <==> Key(o) <= Key(r)
  {
    BelowOnKeys(rows, o, r);
    if Key(o) <= Key(r) {
      if r.path == o.path && r.name == o.name {
        DistinctRows(rows, r, o);
      } else {
        ComponentsOfGlue(o.path, o.name);
        UnderIsPrefix(DirJoin(o.path, o.name), r.path);
        var d := AncestorIsDirectory(rows, r, Key(o));
        KeysAreDistinct(rows, d, o);
        SubtreeIsDropped(o, r);
      }
    }
  }

  lemma ExactRemovesSubtree(rows: Rows, after: Rows, o: Row)
    requires Tabled(rows) && Tabled(after) && o in rows && Exact(rows, o)
    requires forall r :: r in after <==> r in rows && !Dropped(o)(r)
    ensures TreeOf(after, o.user) == DeleteSubtree(TreeOf(rows, o.user), Key(o))
  {
    var t := TreeOf(rows, o.user);
    var cut := DeleteSubtree(t, Key(o));
    TreeNodes(rows, o.user);
    forall k | k in cut
      ensures exists r :: Node(after, o.user, r, k)
    {
      var r :| Node(rows, o.user, r, k);
      DroppedIsBelow(rows, o, r);
      assert Node(after, o.user, r, k);
    }
    forall r | r in after && r.user == o.user
      ensures Key(r) in cut && cut[Key(r)] == EntryOf(r)
    {
      DroppedIsBelow(rows, o, r);
    }
    TreeIs(after, o.user, cut);
  }

  lemma InexactRemovesMore(rows: Rows, after: Rows, o: Row, r: Row)
    requires Tabled(rows) && Tabled(after) && o in rows && r in rows
    requires forall q :: q in after <==> q in rows && !Dropped(o)(q)
    requires Dropped(o)(r) && r != o && !Under(DirJoin(o.path, o.name), r.path)
    ensures TreeOf(after, o.user) != DeleteSubtree(TreeOf(rows, o.user), Key(o))
  {
    if r.id == o.id || (r.path == o.path && r.name == o.name) {
      DistinctRows(rows, r, o);
    }
    TreeNodes(rows, o.user);
    TreeNodes(after, o.user);
    BelowOnKeys(rows, o, r);
    assert Key(r) in DeleteSubtree(TreeOf(rows, o.user), Key(o));
    if Key(r) in TreeOf(after, o.user) {
      var q :| Node(after, o.user, q, Key(r));
      KeysAreDistinct(rows, q, r);
    }
  }

  /** When the full path has no '%', the delete is exact if and only if every row of the user
      whose path starts with something that fits it is at it or below it. */
  lemma ExactWhenFitting(rows: Rows, o: Row)
    requires Distinct(rows) && o in rows && o.isDir && '%' !in DirJoin(o.path, o.name)
    ensures var full := DirJoin(o.path, o.name);
            Exact(rows, o) <==>
            forall r :: r in rows && r.user == o.user && r != o && Like.PrefixFits(full, r.path) ==> Under(full, r.path)
  {
    var full := DirJoin(o.path, o.name);
    forall r | r in rows
      ensures Dropped(o)(r) <==> r == o || (r.user == o.user && Like.PrefixFits(full, r.path))
    {
      FittingDelete(o, r);
      if r.id == o.id {
        DistinctRows(rows, r, o);
      }
    }
  }

  /** With no '_' either, the same for starting with it up to case. */
  lemma ExactWhenLiteral(rows: Rows, o: Row)
    requires Distinct(rows) && o in rows && o.isDir && Like.NoWildcards(DirJoin(o.path, o.name))
    ensures var full := DirJoin(o.path, o.name);
            Exact(rows, o) <==>
            forall r :: r in rows && r.user == o.user && r != o && Like.PrefixIgnoringCase(full, r.path) ==>
              Under(full, r.path)
  {
    var full := DirJoin(o.path, o.name);
    forall r | r in rows
      ensures Dropped(o)(r) <==> r == o || (r.user == o.user && Like.PrefixIgnoringCase(full, r.path))
    {
      LiteralDelete(o, r);
      if r.id == o.id {
        DistinctRows(rows, r, o);
      }
    }
  }

  /** Removing a file is always exact. */
  lemma ExactForFile(rows: Rows, o: Row)
    requires Distinct(rows) && o in rows && !o.isDir
    ensures Exact(rows, o)
  {
    forall r | r in rows && Dropped(o)(r)
      ensures r == o
    {
      FileDelete(o, r);
      DistinctRows(rows, r, o);
    }
  }

  lemma ResizeRefines(rows: Rows, user: string, c: seq<string>, name: string, size: nat, now: string)
    requires Tabled(rows) && ValidNames(c) && ValidName(name)
    ensures var after := Resize(rows, user, name, Render(c), size, now).0;
            && Tabled(after)
            && TreeOf(after, user) == ResizeNode(TreeOf(rows, user), c + [name], size)
  {
    var path := Render(c);
    ResizeKeepsTabled(rows, user, name, path, size, now);
    LookupRefines(rows, user, c, name);
    LookupFacts(rows, user, name, path);
    ComponentsOfRender(c);
    var o := Lookup(rows, user, name, path);
    if o.Some? {
      ResizedTree(rows, o.value, size, now);
    }
  }

  lemma ResizeKeepsTabled(rows: Rows, user: string, name: string, path: string, size: nat, now: string)
    requires Tabled(rows)
    ensures Tabled(Resize(rows, user, name, path, size, now).0)
  {
    ResizeDistinct(rows, user, name, path, size, now);
    ResizeClosed(rows, user, name, path, size, now);
    ResizeKeepsClean(rows, user, name, path, size, now);
  }

  lemma ResizedTree(rows: Rows, o: Row, size: nat, now: string)
    requires Tabled(rows) && o in rows && Tabled(SetSize(rows, o.id, size, now))
    ensures TreeOf(SetSize(rows, o.id, size, now), o.user) == ResizeNode(TreeOf(rows, o.user), Key(o), size)
  {
    var t := TreeOf(rows, o.user);
    TreeNodes(rows, o.user);
    ResizedBacked(rows, o, size, now, t);
    ResizedCovers(rows, o, size, now, t);
    TreeIs(SetSize(rows, o.id, size, now), o.user, ResizeNode(t, Key(o), size));
  }

  lemma SameKey(q: Row, r: Row)
    requires q.path == r.path && q.name == r.name && Clean(q.path)
    ensures Key(q) == Key(r)
  {
  }

  lemma ResizedBacked(rows: Rows, o: Row, size: nat, now: string, t: Dirs)
    requires CleanRows(rows) && CleanRows(SetSize(rows, o.id, size, now)) && o in rows
    requires Backed(rows, o.user, t)
    ensures Backed(SetSize(rows, o.id, size, now), o.user, ResizeNode(t, Key(o), size))
  {
    var after, sized := SetSize(rows, o.id, size, now), ResizeNode(t, Key(o), size);
    forall k | k in sized
      ensures exists r :: Node(after, o.user, r, k)
    {
      var r: Row;
      if k == Key(o) {
        r := o;
      } else {
        r :| Node(rows, o.user, r, k);
      }
      var q := ResizedRow(rows, o.id, size, now, r);
      SameKey(r, q);
      assert Node(after, o.user, q, k);
    }
  }

  lemma ResizedRow(rows: Rows, id: string, size: nat, now: string, r: Row) returns (q: Row)
    requires r in rows
    ensures q in SetSize(rows, id, size, now)
    ensures q.user == r.user && q.path == r.path && q.name == r.name
  {
    var i :| 0 <= i < |rows| && rows[i] == r;
    q := SetSize(rows, id, size, now)[i];
  }

  lemma ResizedCovers(rows: Rows, o: Row, size: nat, now: string, t: Dirs)
    requires Tabled(rows) && CleanRows(SetSize(rows, o.id, size, now)) && o in rows
    requires Covers(rows, o.user, t)
    ensures Covers(SetSize(rows, o.id, size, now), o.user, ResizeNode(t, Key(o), size))
  {
    var after := SetSize(rows, o.id, size, now);
    forall r | r in after && r.user == o.user
      ensures Key(r) in ResizeNode(t, Key(o), size) && ResizeNode(t, Key(o), size)[Key(r)] == EntryOf(r)
    {
      var i :| 0 <= i < |after| && after[i] == r;
      assert rows[i] in rows;
      ResizedNode(rows, o, size, now, rows[i], r, t);
    }
  }

  lemma ResizedNode(rows: Rows, o: Row, size: nat, now: string, was: Row, r: Row, t: Dirs)
    requires Distinct(rows) && CleanRows(rows) && o in rows && was in rows && was.user == o.user
    requires Covers(rows, o.user, t)
    requires r == if was.id == o.id then was.(size := size, modified := now) else was
    ensures var sized := ResizeNode(t, Key(o), size);
            Key(r) in sized && sized[Key(r)] == EntryOf(r)
  {
    SameKey(was, r);
    if was == o {
    } else {
      if Key(was) == Key(o) {
        KeysAreDistinct(rows, was, o);
      }
      if was.id == o.id {
        DistinctRows(rows, was, o);
      }
    }
  }
}
