/** What a client may ask for so that its user's rows stay a tree over a whole run: conditions
    on the arguments of MKD and STOR, and on nothing else it says
    (src/ftp/base_session.cpp:371-427, src/ftp/insecure_session.cpp:107-170). */
module SessionTrees {
  import opened Paths
  import opened FsTable
  import opened FsRuns
  import opened Tree
  import opened PerUser
  import opened Navigation
  import opened SessionSpec
  import opened SessionRuns

  // ----- every row has its parent -----

  predicate Rooting(path: string) {
    Absolute(path) && LastSlash(path) != 1
  }

  lemma MkdIsRooted(wd: string, arg: string)
    requires Canonical(wd) && arg != ""
    ensures Rooting(MkdTarget(wd, arg).path) <==> !RootedPair(arg)
  {
    OneSegmentIsSlashFree(arg);
    CanonicalSlash(wd);
    if '/' in arg {
      ParentOfRooted(arg);
    }
  }

  lemma StorIsRooted(wd: string, arg: string)
    requires Canonical(wd) && arg != ""
    ensures Rooting(StorTarget(wd, arg).path) <==> !DoubleRooted(arg)
  {
    if arg[0] != '/' {
      JoinCanonical(wd, arg);
      CanonicalSlash(StorFile(wd, arg));
      CanonicalSlash(ParentPath(StorFile(wd, arg)));
    }
  }

  predicate CanonicalFor(rows: Rows, user: string) {
    forall r :: r in rows && r.user == user ==> Canonical(r.path)
  }

  /** CWD finds nothing below a path with two slashes in front. */
  lemma CwdStaysCanonical(rows: Rows, user: string, wd: string, arg: string)
    requires Canonical(wd) && CanonicalFor(rows, user) && ChangeDirectory(rows, user, wd, arg).Some?
    ensures Canonical(ChangeDirectory(rows, user, wd, arg).value)
  {
    if arg == ".." {
      CanonicalSlash(wd);
    } else if arg != "/" {
      var base, segs := Base(wd, arg), Segments(arg);
      SegmentsExist(arg);
      var n := |segs| - 1;
      assert WalkFinds(rows, user, base, segs, n);
      LookupFacts(rows, user, segs[n], LookedIn(base, segs, n));
      assert n == 0 ==> Walked(base, segs[..n]) == Strip(base);
      JoinCanonical(if n == 0 then base else LookedIn(base, segs, n), segs[n]);
    }
  }

  /** The session's own part: where it stands, and the upload it has asked for. */
  predicate StandsRooted(s: Session) {
    Canonical(s.workingDirectory) && (s.pending.write != "" ==> Rooting(ParentPath(s.pending.write)))
  }

  /** MKD of anything but "/x/y" and STOR of anything but "//x/f". A session that acts for
      somebody else meanwhile walks among canonical paths there; other sessions' operations
      for this user are at such paths too. */
  predicate SpeaksRooted(w: World, e: Event, user: string) {
    && (e.Command? && e.verb == MKD && e.arg != "" ==> !RootedPair(e.arg))
    && (e.Command? && e.verb == STOR && e.arg != "" ==> !DoubleRooted(e.arg))
    && (e.Elsewhere? && By(e.op, user) ==> RootedOp(w.db, e.op))
    && (w.s.login.userid == user || CanonicalFor(w.db.rows, w.s.login.userid))
  }

  /** All operations that make something are at paths like that. */
  predicate Makes(ops: seq<Op>, good: (string, string) -> bool) {
    forall op :: op in ops && (op.MakeDirectory? || op.StartUpload?) ==> good(op.name, op.path)
  }

  const ROOTED: (string, string) -> bool := (name: string, path: string) => Rooting(path)
  const REAL: (string, string) -> bool := (name: string, path: string) => GoodTarget(name, path)

  lemma {:induction false} MakesRooted(s: Store, ops: seq<Op>, user: string)
    requires Makes(ops, ROOTED)
    ensures AllRooted(s, ops, user)
    decreases |ops|
  {
    if ops != [] {
      assert ops[0] in ops;
      assert Makes(ops[1..], ROOTED);
      MakesRooted(Apply(s, ops[0]), ops[1..], user);
    }
  }

  lemma {:induction false} MakesReal(s: Store, ops: seq<Op>, user: string)
    requires Makes(ops, REAL)
    ensures AllGood(s, ops, user)
    decreases |ops|
  {
    if ops != [] {
      assert ops[0] in ops;
      assert Makes(ops[1..], REAL);
      MakesReal(Apply(s, ops[0]), ops[1..], user);
    }
  }

  /** What a session makes is what its MKD, its STOR, or the STOR it still has to serve names. */
  lemma MakesAsSaid(w: World, e: Event, good: (string, string) -> bool)
    requires !e.Elsewhere?
    requires e.Command? && e.verb == MKD && e.arg != "" ==>
               (var at := MkdTarget(w.s.workingDirectory, e.arg); good(at.name, at.path))
    requires e.Command? && e.verb == STOR && e.arg != "" ==>
               (var at := StorTarget(w.s.workingDirectory, e.arg); good(at.name, at.path))
    requires w.s.pending.write != "" ==> good(Basename(w.s.pending.write), ParentPath(w.s.pending.write))
    ensures Makes(OpsOf(w, e), good)
  {
  }

  lemma StepSpoken(w: World, e: Event, user: string)
    requires Distinct(w.db.rows) && Rooted(Own(w.db.rows, user)) && StandsRooted(w.s) && SpeaksRooted(w, e, user)
    ensures Distinct(Step(w, e).db.rows) && Rooted(Own(Step(w, e).db.rows, user))
  {
    if e.Elsewhere? {
      ApplyRooted(w.db, e.op, user);
      ApplyDistinct(w.db, e.op);
    } else {
      if e.Command? && e.arg != "" {
        MkdIsRooted(w.s.workingDirectory, e.arg);
        StorIsRooted(w.s.workingDirectory, e.arg);
      }
      MakesAsSaid(w, e, ROOTED);
      MakesRooted(w.db, OpsOf(w, e), user);
      StepDb(w, e);
      RunRooted(w.db, OpsOf(w, e), user);
      RunDistinct(w.db, OpsOf(w, e));
    }
  }

  lemma StepStandsRooted(w: World, e: Event, user: string)
    requires Rooted(Own(w.db.rows, user)) && StandsRooted(w.s) && SpeaksRooted(w, e, user)
    ensures StandsRooted(Step(w, e).s)
  {
    var wd, id := w.s.workingDirectory, w.s.login.userid;
    OwnMembers(w.db.rows, user);
    assert CanonicalFor(w.db.rows, id);
    if e.Command? {
      CommandMoves(w, e.verb, e.arg, e.env);
      CanonicalSlash(wd);
      if ChangeDirectory(w.db.rows, id, wd, e.arg).Some? {
        CwdStaysCanonical(w.db.rows, id, wd, e.arg);
      }
      if e.arg != "" {
        StorIsRooted(wd, e.arg);
      }
    } else {
      CallbackMoves(w, e);
    }
  }

  predicate AllSpeakRooted(w: World, es: seq<Event>, user: string)
    decreases |es|
  {
    es == [] || (SpeaksRooted(w, es[0], user) && AllSpeakRooted(Step(w, es[0]), es[1..], user))
  }

  /** Over every run of a session that never says MKD "/x/y" or STOR "//x/f", the user never
      has a row without its parent. Names may be empty. */
  lemma {:induction false} SpokenRooted(w: World, es: seq<Event>, user: string)
    requires Distinct(w.db.rows) && Rooted(Own(w.db.rows, user)) && StandsRooted(w.s)
    requires AllSpeakRooted(w, es, user)
    ensures Rooted(Own(Steps(w, es).db.rows, user)) && Canonical(Steps(w, es).s.workingDirectory)
    decreases |es|
  {
    if es != [] {
      StepSpoken(w, es[0], user);
      StepStandsRooted(w, es[0], user);
      SpokenRooted(Step(w, es[0]), es[1..], user);
    }
  }

  // ----- the rows are a tree -----

  predicate Stands(s: Session) {
    && Clean(s.workingDirectory)
    && (s.pending.write != "" ==> GoodTarget(Basename(s.pending.write), ParentPath(s.pending.write)))
  }

  /** The same, and no argument of MKD and STOR ends in a slash. */
  predicate Speaks(w: World, e: Event, user: string) {
    && (e.Command? && e.verb == MKD && e.arg != "" ==> e.arg[|e.arg| - 1] != '/' && !RootedPair(e.arg))
    && (e.Command? && e.verb == STOR && e.arg != "" ==> e.arg[|e.arg| - 1] != '/' && !DoubleRooted(e.arg))
    && (e.Elsewhere? && By(e.op, user) ==> GoodOp(w.db, e.op))
    && (w.s.login.userid == user || Named(w.db.rows, w.s.login.userid))
  }

  lemma StepTabled(w: World, e: Event, user: string)
    requires Distinct(w.db.rows) && Tabled(Own(w.db.rows, user)) && Stands(w.s) && Speaks(w, e, user)
    ensures Distinct(Step(w, e).db.rows) && Tabled(Own(Step(w, e).db.rows, user))
  {
    if e.Elsewhere? {
      ApplyTabled(w.db, e.op, user);
      ApplyDistinct(w.db, e.op);
    } else {
      if e.Command? && e.arg != "" {
        MkdIsGood(w.s.workingDirectory, e.arg);
        StorIsGood(w.s.workingDirectory, e.arg);
      }
      MakesAsSaid(w, e, REAL);
      MakesReal(w.db, OpsOf(w, e), user);
      StepDb(w, e);
      RunTabled(w.db, OpsOf(w, e), user);
      RunDistinct(w.db, OpsOf(w, e));
    }
  }

  lemma StepStands(w: World, e: Event, user: string)
    requires Tabled(Own(w.db.rows, user)) && Stands(w.s) && Speaks(w, e, user)
    ensures Stands(Step(w, e).s)
  {
    OwnMembers(w.db.rows, user);
    assert Named(w.db.rows, w.s.login.userid);
    StepStaysClean(w, e);
    if e.Command? {
      CommandMoves(w, e.verb, e.arg, e.env);
      if e.arg != "" {
        StorIsGood(w.s.workingDirectory, e.arg);
      }
    } else {
      CallbackMoves(w, e);
    }
  }

  predicate AllSpeak(w: World, es: seq<Event>, user: string)
    decreases |es|
  {
    es == [] || (Speaks(w, es[0], user) && AllSpeak(Step(w, es[0]), es[1..], user))
  }

  /** Over every run of a session whose MKD and STOR arguments do not end in a slash and are
      not "/x/y" and "//x/f", the user's rows are a tree and the working directory is a clean
      path. */
  lemma {:induction false} SpokenTabled(w: World, es: seq<Event>, user: string)
    requires Distinct(w.db.rows) && Tabled(Own(w.db.rows, user)) && Stands(w.s)
    requires AllSpeak(w, es, user)
    ensures Tabled(Own(Steps(w, es).db.rows, user)) && Clean(Steps(w, es).s.workingDirectory)
    decreases |es|
  {
    if es != [] {
      StepTabled(w, es[0], user);
      StepStands(w, es[0], user);
      SpokenTabled(Step(w, es[0]), es[1..], user);
    }
  }
}
