/** Two short runs from an empty table that end as nobody asked for
    (src/database/fs_objects.cpp:98-161, src/database/fs_objects.hpp:26-40). */
module Accidents {
  import opened Paths
  import opened FsTable
  import opened FsRuns
  import Like

  const EMPTY := Store([], map[])

  /** "MKD a", "MKD ab", "STOR /ab/f", "RMD a": the file is gone and its directory is there. */
  lemma SiblingIsEmptied(user: string, ids: seq<Uuid>, now: string, opens: bool)
    requires |ids| == 3 && ids[0] != ids[1] && ids[0] != ids[2] && ids[1] != ids[2]
    ensures var after := Run(EMPTY, Making(user, ids, now, opens) + [Delete(user, "a", "/")]).rows;
            Lookup(after, user, "f", "/ab").None? && Row(ids[1], "ab", "/", 0, now, true, user) in after
  {
    var making, gone := Making(user, ids, now, opens), Delete(user, "a", "/");
    RunAppend(EMPTY, making, [gone]);
    RunOne(Run(EMPTY, making), gone);
    Made(user, ids, now, opens);
    DeletesTwo(Run(EMPTY, making), Row(ids[0], "a", "/", 0, now, true, user),
               Row(ids[1], "ab", "/", 0, now, true, user), Row(ids[2], "f", "/ab", 0, now, false, user));
  }

  function Making(user: string, ids: seq<Uuid>, now: string, opens: bool): seq<Op>
    requires |ids| == 3
  {
    [MakeDirectory(user, "a", "/", ids[0], now), MakeDirectory(user, "ab", "/", ids[1], now),
     StartUpload(user, "f", "/ab", ids[2], now, opens, [])]
  }

  lemma Made(user: string, ids: seq<Uuid>, now: string, opens: bool)
    requires |ids| == 3 && ids[0] != ids[1] && ids[0] != ids[2] && ids[1] != ids[2]
    ensures Run(EMPTY, Making(user, ids, now, opens)).rows ==
            [Row(ids[0], "a", "/", 0, now, true, user), Row(ids[1], "ab", "/", 0, now, true, user),
             Row(ids[2], "f", "/ab", 0, now, false, user)]
  {
    var ops := Making(user, ids, now, opens);
    var dir, sibling := Row(ids[0], "a", "/", 0, now, true, user), Row(ids[1], "ab", "/", 0, now, true, user);
    RunThree(EMPTY, ops[0], ops[1], ops[2]);
    MakesFirst(dir);
    MakesSecond(dir, sibling);
    MakesThird(dir, sibling, Row(ids[2], "f", "/ab", 0, now, false, user));
    UploadedRows(Store([dir, sibling], map[]), ops[2]);
  }

  lemma UploadedRows(s: Store, op: Op)
    requires op.StartUpload?
    ensures Apply(s, op).rows == Create(s.rows, op.user, op.name, op.path, 0, false, op.id, op.now).0
  {
  }

  lemma MakesFirst(r: Row)
    requires r.path == "/"
    ensures Create([], r.user, r.name, r.path, r.size, r.isDir, r.id, r.modified).0 == [r]
  {
    LookupFacts([], r.user, r.name, r.path);
  }

  lemma MakesSecond(q: Row, r: Row)
    requires r.path == "/" && q.path == "/" && q.id != r.id && q.name != r.name
    ensures Create([q], r.user, r.name, r.path, r.size, r.isDir, r.id, r.modified).0 == [q, r]
  {
    LookupFacts([q], r.user, r.name, r.path);
  }

  lemma MakesThird(q: Row, d: Row, r: Row)
    requires q.id != d.id && q.id != r.id && d.id != r.id && q.name != d.name && d.user == r.user
    requires d.isDir && d.name == "ab" && d.path == "/" && q.path == "/" && r.path == "/ab"
    ensures Create([q, d], r.user, r.name, r.path, r.size, r.isDir, r.id, r.modified).0 == [q, d, r]
  {
    LookupFacts([q, d], r.user, r.name, r.path);
    LastSlashIs("/ab", 0);
    assert Basename("/ab") == "ab" && ParentPath("/ab") == "/";
    assert d in [q, d] && Distinct([q, d]);
    assert [q, d] + [r] == [q, d, r];
    LookupFinds([q, d], d);
  }

  lemma DeletesTwo(s: Store, dir: Row, sibling: Row, file: Row)
    requires s.rows == [dir, sibling, file]
    requires dir.id != sibling.id && dir.id != file.id && sibling.id != file.id
    requires dir.name == "a" && dir.path == "/" && dir.isDir && file.user == dir.user
    requires sibling.name == "ab" && sibling.path == "/" && file.path == "/ab"
    ensures var after := Remove(s, dir.user, "a", "/").0.rows;
            Lookup(after, file.user, file.name, "/ab").None? && sibling in after
  {
    var after := Remove(s, dir.user, "a", "/").0.rows;
    assert dir in s.rows && sibling in s.rows;
    LookupFinds(s.rows, dir);
    SelectMembers(s.rows, Not(Dropped(dir)));
    PatternOfA();
    assert Dropped(dir)(file) && !Dropped(dir)(sibling);
    LookupFacts(after, file.user, file.name, "/ab");
  }

  lemma PatternOfA()
    ensures Like.Matches(Pattern("a", "/"), "/ab") && !Like.Matches(Pattern("a", "/"), "/")
  {
    assert Pattern("a", "/") == "/a" + "%" && "/ab" == "/a" + "b";
    Like.SelfMatches("/a", "b");
    var p := "/a%";
    assert p[1..] == "a%" && "/"[1..] == "";
    assert !Like.Matches("a%", "");
  }

  /** Two users store "/f": the second one's row is refused, and its file stays without one. */
  lemma FileWithoutRow(user: string, other: string, id: Uuid, second: Uuid, now: string)
    requires user != other && id != second
    ensures var after := Run(EMPTY, [StartUpload(user, "f", "/", id, now, true, []),
                                     StartUpload(other, "f", "/", second, now, true, [])]);
            second in after.blobs && second !in Ids(after.rows)
  {
    var a, b := StartUpload(user, "f", "/", id, now, true, []), StartUpload(other, "f", "/", second, now, true, []);
    var r := Row(id, "f", "/", 0, now, false, user);
    assert [a, b][1..] == [b];
    RunOne(Apply(EMPTY, a), b);
    MakesFirst(r);
    LookupFacts([], user, "f", "/");
    LookupFacts([r], other, "f", "/");
    assert Clashes([r], Row(second, "f", "/", 0, now, false, other)) by {
      assert r in [r];
    }
  }
}
