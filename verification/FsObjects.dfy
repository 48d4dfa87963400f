/** The `fs_objects` class (src/database/fs_objects.cpp): each method, with the loops and the
    order of queries of the source, against the specification in FsTable. */
module FsObjects {
  import opened Helpers
  import opened Paths
  import opened FsTable

  /** A row as the sessions see it: every column is text except the directory flag. */
  datatype FsObject = FsObject(id: string, name: string, path: string, size: string, modified: string,
                               isDirectory: bool)

  const NO_OBJECT := FsObject("", "", "", "", "", false)

  function ToObject(r: Row): FsObject {
    FsObject(r.id, r.name, r.path, Decimal(r.size), r.modified, r.isDir)
  }

  function Objects(rows: Rows): seq<FsObject> {
    seq(|rows|, i requires 0 <= i < |rows| => ToObject(rows[i]))
  }

  function ObjectAt(rows: Rows, user: string, name: string, path: string): FsObject {
    match Lookup(rows, user, name, path)
    case None => NO_OBJECT
    case Some(r) => ToObject(r)
  }

  /** The six columns of a row, as run_param_query returns them. */
  function Columns(r: Row): seq<string> {
    [r.id, r.name, r.path, Decimal(r.size), r.modified, if r.isDir then "1" else "0"]
  }

  function Flatten(rows: Rows): (f: seq<string>)
    ensures |f| == 6 * |rows|
  {
    if rows == [] then [] else Flatten(rows[..|rows| - 1]) + Columns(rows[|rows| - 1])
  }

  lemma {:induction false} FlattenAt(rows: Rows, i: nat, j: nat)
    requires i < |rows| && j < 6
    ensures Flatten(rows)[6 * i + j] == Columns(rows[i])[j]
  {
    if i < |rows| - 1 {
      FlattenAt(rows[..|rows| - 1], i, j);
    }
  }

  /** Six columns from the right place make the object again. */
  lemma FlatRow(rows: Rows, k: nat, i: nat)
    requires k < |rows| && i == 6 * k
    ensures var f := Flatten(rows);
            i + 6 <= |f| && FsObject(f[i], f[i + 1], f[i + 2], f[i + 3], f[i + 4], f[i + 5] == "1") == ToObject(rows[k])
  {
    FlattenAt(rows, k, 0);
    FlattenAt(rows, k, 1);
    FlattenAt(rows, k, 2);
    FlattenAt(rows, k, 3);
    FlattenAt(rows, k, 4);
    FlattenAt(rows, k, 5);
  }

  lemma SelectSnoc(rows: Rows, n: nat, p: Row -> bool)
    requires n < |rows|
    ensures Select(rows[..n + 1], p) == if p(rows[n]) then Select(rows[..n], p) + [rows[n]] else Select(rows[..n], p)
  {
    assert rows[..n + 1] == rows[..n] + [rows[n]];
    SelectAppend(rows[..n], [rows[n]], p);
    assert [rows[n]][1..] == [];
  }

  /** Stepping a prepared SELECT: the columns of all matching rows in one flat vector. */
  method RunSelect(rows: Rows, p: Row -> bool) returns (result: seq<string>)
    ensures result == Flatten(Select(rows, p))
  {
    result := [];
    var i := 0;
    while i < |rows|
      invariant 0 <= i <= |rows|
      invariant result == Flatten(Select(rows[..i], p))
    {
      SelectSnoc(rows, i, p);
      if p(rows[i]) {
        ghost var s := Select(rows[..i], p) + [rows[i]];
        assert s[..|s| - 1] == Select(rows[..i], p);
        result := result + Columns(rows[i]);
      }
      i := i + 1;
    }
    assert rows[..i] == rows;
  }

  /** SELECT object_id: one column a row. */
  method RunSelectIds(rows: Rows, p: Row -> bool) returns (ids: seq<string>)
    ensures |ids| == |Select(rows, p)|
    ensures forall i :: 0 <= i < |ids| ==> ids[i] == Select(rows, p)[i].id
  {
    ids := [];
    var i := 0;
    while i < |rows|
      invariant 0 <= i <= |rows|
      invariant |ids| == |Select(rows[..i], p)|
      invariant forall k :: 0 <= k < |ids| ==> ids[k] == Select(rows[..i], p)[k].id
    {
      SelectSnoc(rows, i, p);
      if p(rows[i]) {
        ids := ids + [rows[i].id];
      }
      i := i + 1;
    }
    assert rows[..i] == rows;
  }

  /** Deleting by one condition and then another is deleting by either. */
  lemma {:induction false} SelectTwice(rows: Rows, p: Row -> bool, q: Row -> bool, both: Row -> bool)
    requires forall r :: r in rows ==> (both(r) <==> p(r) && q(r))
    ensures Select(Select(rows, p), q) == Select(rows, both)
  {
    if rows != [] {
      assert rows[0] in rows;
      SelectTwice(rows[1..], p, q, both);
      SelectAppend(if p(rows[0]) then [rows[0]] else [], Select(rows[1..], p), q);
    }
  }

  /** The two DELETE queries of remove_fs_object together drop what `Dropped` says. */
  lemma DeletesTogether(rows: Rows, o: Row)
    requires o.isDir
    ensures var like := LikePath(o.user, Pattern(o.name, o.path));
            && Select(Select(rows, Not(like)), Not(HasId(o.id))) == Select(rows, Not(Dropped(o)))
            && forall b: Blobs :: b - Ids(Select(rows, like)) - {o.id} == b - Ids(Select(rows, Dropped(o))) - {o.id}
  {
    var like := LikePath(o.user, Pattern(o.name, o.path));
    SelectTwice(rows, Not(like), Not(HasId(o.id)), Not(Dropped(o)));
    SelectMembers(rows, like);
    SelectMembers(rows, Dropped(o));
    assert Ids(Select(rows, like)) + {o.id} == Ids(Select(rows, Dropped(o))) + {o.id};
    forall b: Blobs
      ensures b - Ids(Select(rows, like)) - {o.id} == b - Ids(Select(rows, Dropped(o))) - {o.id}
    {
      assert b - Ids(Select(rows, like)) - {o.id} == b - (Ids(Select(rows, like)) + {o.id});
      assert b - Ids(Select(rows, Dropped(o))) - {o.id} == b - (Ids(Select(rows, Dropped(o))) + {o.id});
    }
  }

  lemma DeleteAlone(rows: Rows, o: Row)
    requires !o.isDir
    ensures Select(rows, Not(HasId(o.id))) == Select(rows, Not(Dropped(o)))
    ensures forall b: Blobs :: b - {o.id} == b - Ids(Select(rows, Dropped(o))) - {o.id}
  {
    SelectSame(rows, rows, Not(HasId(o.id)), Not(Dropped(o)));
    SelectMembers(rows, Dropped(o));
  }

  class FsObjects {
    var rows: Rows
    var blobs: Blobs

    function Contents(): Store
      reads this
    {
      Store(rows, blobs)
    }

    constructor ()
      ensures Contents() == Store([], map[])
    {
      rows, blobs := [], map[];
    }

    method GetObject(user: string, name: string, path: string) returns (obj: FsObject)
      ensures obj == ObjectAt(rows, user, name, path)
    {
      var dbOutput := RunSelect(rows, IsObject(user, name, path));
      if dbOutput == [] {
        return NO_OBJECT;
      }
      ghost var found := Select(rows, IsObject(user, name, path));
      FlatRow(found, 0, 0);
      obj := FsObject(dbOutput[0], dbOutput[1], dbOutput[2], dbOutput[3], dbOutput[4], dbOutput[5] == "1");
    }

    method GetObjectsByPath(user: string, path: string) returns (objects: seq<FsObject>)
      ensures objects == Objects(Select(rows, InDirectory(user, path)))
    {
      var dbOutput := RunSelect(rows, InDirectory(user, path));
      ghost var found := Select(rows, InDirectory(user, path));
      objects := [];
      if dbOutput == [] {
        return;
      }
      var i := 0;
      while i < |dbOutput|
        invariant i == 6 * |objects| && |objects| <= |found|
        invariant objects == Objects(found)[..|objects|]
      {
        ghost var k := |objects|;
        FlatRow(found, k, i);
        var obj := FsObject(dbOutput[i], dbOutput[i + 1], dbOutput[i + 2], dbOutput[i + 3], dbOutput[i + 4],
                               dbOutput[i + 5] == "1");
        objects := objects + [obj];
        i := i + 6;
      }
    }

    method CreateObject(user: string, name: string, path: string, size: nat, isDirectory: bool, id: Uuid, now: string)
      returns (created: string)
      modifies this`rows
      ensures (rows, created) == Create(old(rows), user, name, path, size, isDirectory, id, now)
    {
      if path != "/" {
        var base := GetBasename(path);
        var parent := GetParentPath(path);
        var obj := GetObject(user, base, parent);
        if obj.id == "" {
          return "";
        }
        if !obj.isDirectory {
          return "";
        }
      }
      var existing := GetObject(user, name, path);
      if existing.id != "" {
        return "";
      }
      rows := Insert(rows, Row(id, name, path, size, now, isDirectory, user));
      return id;
    }

    method UpdateObjectSize(user: string, name: string, path: string, size: nat, now: string) returns (updated: string)
      modifies this`rows
      ensures (rows, updated) == Resize(old(rows), user, name, path, size, now)
    {
      var obj := GetObject(user, name, path);
      if obj.id == "" {
        return "";
      }
      rows := SetSize(rows, obj.id, size, now);
      return obj.id;
    }

    method RemoveFsObject(user: string, name: string, path: string) returns (removed: bool)
      modifies this
      ensures (Contents(), removed) == Remove(old(Contents()), user, name, path)
    {
      LookupFacts(rows, user, name, path);
      var obj := GetObject(user, name, path);
      if obj.id == "" {
        return false;
      }
      ghost var o := Lookup(rows, user, name, path).value;
      if obj.isDirectory {
        var pathPrefix := path;
        if path != "/" {
          pathPrefix := pathPrefix + "/";
        }
        pathPrefix := pathPrefix + name + "%";
        assert pathPrefix == Pattern(o.name, o.path);
        DeletesTogether(rows, o);
        RemoveContents(user, pathPrefix);
      } else {
        DeleteAlone(rows, o);
      }
      RemoveFile(obj.id);
      rows := Select(rows, Not(HasId(obj.id)));
      return true;
    }

    /** The part of remove_fs_object that runs for directories only. */
    method RemoveContents(user: string, pathPrefix: string)
      modifies this
      ensures rows == Select(old(rows), Not(LikePath(user, pathPrefix)))
      ensures blobs == old(blobs) - Ids(Select(old(rows), LikePath(user, pathPrefix)))
    {
      var like := LikePath(user, pathPrefix);
      var idsForRemoval := RunSelectIds(rows, like);
      var i := 0;
      while i < |idsForRemoval|
        invariant 0 <= i <= |idsForRemoval|
        invariant rows == old(rows)
        invariant blobs == old(blobs) - set k | 0 <= k < i :: idsForRemoval[k]
      {
        RemoveFile(idsForRemoval[i]);
        i := i + 1;
      }
      assert (set k | 0 <= k < i :: idsForRemoval[k]) == Ids(Select(rows, like));
      rows := Select(rows, Not(like));
    }

    method RemoveFile(id: string)
      modifies this`blobs
      ensures blobs == old(blobs) - {id}
    {
      blobs := blobs - {id};
    }
  }
}
