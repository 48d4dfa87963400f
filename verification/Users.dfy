/** The users table (src/database/users.cpp) and the start-up reconciliation that makes it
    agree with the configuration (main.cpp:33-92). */
module Users {
  import FsTable

  type Uuid = FsTable.Uuid

  datatype UserRow = UserRow(id: Uuid, name: string, password: string)

  type Config = map<string, string>

  // ----- queries -----

  function IdByName(rows: seq<UserRow>, name: string): string {
    if rows == [] then "" else if rows[0].name == name then rows[0].id else IdByName(rows[1..], name)
  }

  predicate CheckPassword(rows: seq<UserRow>, id: string, password: string) {
    rows != [] && (if rows[0].id == id then rows[0].password == password else CheckPassword(rows[1..], id, password))
  }

  /** The primary key and the UNIQUE name: a clash is an error that goes unreported. */
  predicate Clashes(rows: seq<UserRow>, u: UserRow) {
    exists q :: q in rows && (q.id == u.id || q.name == u.name)
  }

  function InsertUser(rows: seq<UserRow>, u: UserRow): seq<UserRow> {
    if Clashes(rows, u) then rows else rows + [u]
  }

  /** Primary key and UNIQUE, as the table always satisfies them. */
  predicate Distinct(rows: seq<UserRow>) {
    forall i, j :: 0 <= i < j < |rows| ==> rows[i].id != rows[j].id && rows[i].name != rows[j].name
  }

  function Names(rows: seq<UserRow>): set<string> {
    set u | u in rows :: u.name
  }

  /** The table, read as the map the configuration is. */
  predicate Agrees(rows: seq<UserRow>, cfg: Config) {
    Names(rows) == cfg.Keys && forall u :: u in rows ==> u.name in cfg && cfg[u.name] == u.password
  }

  /** Every row is configured, with the same password. */
  predicate Contained(rows: seq<UserRow>, cfg: Config) {
    forall u :: u in rows ==> u.name in cfg && cfg[u.name] == u.password
  }

  /** A login by name and password succeeds for exactly the configured pairs. */
  lemma {:induction false} LoginIsConfigured(rows: seq<UserRow>, cfg: Config, name: string, password: string)
    requires Distinct(rows) && Agrees(rows, cfg)
    ensures CheckPassword(rows, IdByName(rows, name), password) <==> name in cfg && cfg[name] == password
  {
    if name in cfg {
      var u :| u in rows && u.name == name;
      LoginOfRow(rows, u, password);
    } else {
      NoSuchName(rows, name);
      NoSuchId(rows, "", password);
    }
  }

  lemma {:induction false} LoginOfRow(rows: seq<UserRow>, u: UserRow, password: string)
    requires Distinct(rows) && u in rows
    ensures IdByName(rows, u.name) == u.id
    ensures CheckPassword(rows, u.id, password) <==> u.password == password
  {
    if rows[0] != u {
      var k :| 0 <= k < |rows| && rows[k] == u;
      assert rows[0].id != rows[k].id && rows[0].name != rows[k].name;
      assert u in rows[1..] by { assert rows[1..][k - 1] == u; }
      assert Distinct(rows[1..]) by {
        forall i, j | 0 <= i < j < |rows[1..]|
          ensures rows[1..][i].id != rows[1..][j].id && rows[1..][i].name != rows[1..][j].name
        {
          assert rows[i + 1].id != rows[j + 1].id;
        }
      }
      LoginOfRow(rows[1..], u, password);
    }
  }

  lemma {:induction false} NoSuchName(rows: seq<UserRow>, name: string)
    requires name !in Names(rows)
    ensures IdByName(rows, name) == ""
  {
    if rows != [] {
      assert rows[0] in rows;
      assert forall u :: u in rows[1..] ==> u in rows;
      NoSuchName(rows[1..], name);
    }
  }

  lemma {:induction false} NoSuchId(rows: seq<UserRow>, id: string, password: string)
    requires |id| != 64
    ensures !CheckPassword(rows, id, password)
  {
    if rows != [] {
      NoSuchId(rows[1..], id, password);
    }
  }

  // ----- reconciliation -----

  /** any_users_changed: some user of the table is missing from the configuration or has
      another password there. Users only the configuration has do not count. */
  method AnyUsersChanged(dbUsers: Config, configUsers: Config) returns (changed: bool)
    ensures changed <==> exists name :: name in dbUsers && (name !in configUsers || configUsers[name] != dbUsers[name])
  {
    var remaining := dbUsers.Keys;
    while remaining != {}
      invariant remaining <= dbUsers.Keys
      invariant forall name :: name in dbUsers && name !in remaining ==>
                  name in configUsers && configUsers[name] == dbUsers[name]
      decreases |remaining|
    {
      var name :| name in remaining;
      if name !in configUsers {
        return true;
      }
      if configUsers[name] != dbUsers[name] {
        return true;
      }
      remaining := remaining - {name};
    }
    return false;
  }

  /** Ids the generator could return without disturbing the run: distinct, and not in use. */
  predicate FreshIds(ids: seq<Uuid>, rows: seq<UserRow>) {
    && (forall i, j :: 0 <= i < j < |ids| ==> ids[i] != ids[j])
    && (forall i, u :: 0 <= i < |ids| && u in rows ==> ids[i] != u.id)
  }

  /** The columns of GET_ALL_USER_CREDENTIALS_QUERY, row after row, as run_query returns them. */
  function Flat(rows: seq<UserRow>): seq<string> {
    seq(2 * |rows|, k requires 0 <= k < 2 * |rows| => if k % 2 == 0 then rows[k / 2].name else rows[k / 2].password)
  }

  datatype Credential = Credential(name: string, password: string)

  /** The first number of a backup file that is not there. */
  predicate FirstFree(backups: map<nat, seq<UserRow>>, i: nat) {
    i >= 1 && i !in backups && forall k :: 1 <= k < i ==> k in backups
  }

  /** The storage file in use, by its users table, and the backups by their number. */
  class Storage {
    var users: seq<UserRow>
    var backups: map<nat, seq<UserRow>>

    constructor (users: seq<UserRow>, backups: map<nat, seq<UserRow>>)
      ensures this.users == users && this.backups == backups
    {
      this.users, this.backups := users, backups;
    }

    method RunQuery() returns (result: seq<string>)
      ensures result == Flat(users)
    {
      result := [];
      var i := 0;
      while i < |users|
        invariant 0 <= i <= |users|
        invariant result == Flat(users)[..2 * i]
      {
        result := result + [users[i].name];
        result := result + [users[i].password];
        i := i + 1;
      }
    }

    /** get_all_user_credentials: the flat result, two by two. */
    method GetAllUserCredentials() returns (all: seq<Credential>)
      ensures |all| == |users|
      ensures forall k :: 0 <= k < |all| ==> all[k] == Credential(users[k].name, users[k].password)
    {
      var dbOutput := RunQuery();
      all := [];
      var i := 0;
      while i < |dbOutput|
        invariant i == 2 * |all| && |all| <= |users|
        invariant forall k :: 0 <= k < |all| ==> all[k] == Credential(users[k].name, users[k].password)
      {
        all := all + [Credential(dbOutput[i], dbOutput[i + 1])];
        i := i + 2;
      }
    }

    /** The number for the next backup, tried from 1 on. */
    method NextBackup() returns (i: nat)
      ensures FirstFree(backups, i)
    {
      i := 1;
      ghost var ahead := backups.Keys;
      while i in backups
        invariant 1 <= i && forall k :: 1 <= k < i ==> k in backups
        invariant ahead <= backups.Keys && forall k :: k in backups && k >= i ==> k in ahead
        decreases |ahead|
      {
        ahead := ahead - {i};
        i := i + 1;
      }
    }

    /** The credentials gathered into a map, as init_user_table does. */
    method Credentials() returns (dbUsers: Config)
      requires Distinct(users)
      ensures Agrees(users, dbUsers)
    {
      var all := GetAllUserCredentials();
      dbUsers := map[];
      var i := 0;
      while i < |all|
        invariant 0 <= i <= |all|
        invariant Agrees(users[..i], dbUsers)
      {
        assert users[..i + 1] == users[..i] + [users[i]];
        forall u | u in users[..i]
          ensures u.name != users[i].name
        {
        }
        dbUsers := dbUsers[all[i].name := all[i].password];
        i := i + 1;
      }
      assert users[..i] == users;
    }

    method CreateUser(id: Uuid, name: string, password: string)
      modifies this`users
      ensures users == InsertUser(old(users), UserRow(id, name, password))
    {
      users := InsertUser(users, UserRow(id, name, password));
    }

    /** init_user_table. `renamed` is whether the rename of storage.db succeeded: when it did
        not, the old database is opened again. */
    method InitUserTable(cfg: Config, ids: seq<Uuid>, renamed: bool)
      requires Distinct(users) && |ids| >= |cfg|
      modifies this
      ensures Distinct(users)
      ensures FreshIds(ids, old(users)) && (Contained(old(users), cfg) || renamed) ==> Agrees(users, cfg)
      ensures Contained(old(users), cfg) ==> old(users) <= users && backups == old(backups)
      ensures !Contained(old(users), cfg) && renamed ==>
                exists i :: FirstFree(old(backups), i) && backups == old(backups)[i := old(users)]
      ensures Agrees(old(users), cfg) ==> users == old(users)
    {
      var dbUsers := Credentials();
      var changed := AnyUsersChanged(dbUsers, cfg);
      ChangedIsNotContained(users, dbUsers, cfg);
      if changed {
        var i := NextBackup();
        if renamed {
          backups := backups[i := users];
          users := [];
        }
      }
      CreateAll(cfg, ids);
    }

    /** The loop over the configured users. std::map iterates in name order; any order does. */
    method CreateAll(cfg: Config, ids: seq<Uuid>)
      requires Distinct(users) && |ids| >= |cfg|
      modifies this`users
      ensures Distinct(users) && old(users) <= users
      ensures FreshIds(ids, old(users)) && Contained(old(users), cfg) ==> Agrees(users, cfg)
      ensures Names(old(users)) == cfg.Keys ==> users == old(users)
    {
      ghost var start := users;
      var remaining, i := cfg.Keys, 0;
      while remaining != {}
        invariant remaining <= cfg.Keys && i + |remaining| == |cfg.Keys|
        invariant Distinct(users) && start <= users
        invariant Names(start) == cfg.Keys ==> users == start
        invariant FreshIds(ids, start) && Contained(start, cfg) ==>
                    FreshIds(ids[i..], users) && Contained(users, cfg) && cfg.Keys - remaining <= Names(users)
        decreases |remaining|
      {
        var name :| name in remaining;
        CreateOne(users, cfg, ids, i, name);
        assert i < |ids|;
        CreateUser(ids[i], name, cfg[name]);
        remaining, i := remaining - {name}, i + 1;
      }
    }
  }

  lemma ChangedIsNotContained(rows: seq<UserRow>, dbUsers: Config, cfg: Config)
    requires Agrees(rows, dbUsers)
    ensures (exists name :: name in dbUsers && (name !in cfg || cfg[name] != dbUsers[name])) <==> !Contained(rows, cfg)
  {
    forall name | name in dbUsers && (name !in cfg || cfg[name] != dbUsers[name])
      ensures !Contained(rows, cfg)
    {
      var u :| u in rows && u.name == name;
    }
  }

  /** One insertion with a fresh id: the user is there afterwards, and nothing else changed. */
  lemma CreateOne(rows: seq<UserRow>, cfg: Config, ids: seq<Uuid>, i: nat, name: string)
    requires Distinct(rows) && i < |ids| && name in cfg
    ensures var u := UserRow(ids[i], name, cfg[name]);
            var after := InsertUser(rows, u);
            && Distinct(after) && rows <= after
            && (name in Names(rows) ==> after == rows)
            && (FreshIds(ids[i..], rows) && Contained(rows, cfg) ==>
                  FreshIds(ids[i + 1..], after) && Contained(after, cfg) && Names(after) == Names(rows) + {name})
  {
    var u := UserRow(ids[i], name, cfg[name]);
    var after := InsertUser(rows, u);
    if name in Names(rows) {
      var q :| q in rows && q.name == name;
      assert Clashes(rows, u);
    }
    forall k | 0 <= k < |rows| && !Clashes(rows, u)
      ensures rows[k].id != u.id && rows[k].name != u.name
    {
      assert rows[k] in rows;
    }
    if FreshIds(ids[i..], rows) && Contained(rows, cfg) {
      assert ids[i..][0] == ids[i];
      if name !in Names(rows) {
        assert !Clashes(rows, u);
        assert after == rows + [u];
        assert u in after;
      }
      var later := ids[i + 1..];
      forall k, q | 0 <= k < |later| && q in after
        ensures later[k] != q.id
      {
        assert ids[i..][k + 1] == later[k];
        assert ids[i..][0] != ids[i..][k + 1];
      }
      forall k, m | 0 <= k < m < |later|
        ensures later[k] != later[m]
      {
        assert ids[i..][k + 1] != ids[i..][m + 1];
      }
    }
  }
}
