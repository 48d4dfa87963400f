/** What a session does to the database, and how its working directory stays a real path over
    every run (src/ftp/base_session.cpp:88-770). */
module SessionRuns {
  import opened Paths
  import opened FsTable
  import opened FsRuns
  import opened Navigation
  import opened SessionSpec

  // ----- steps as database operations -----

  function UploadOf(s: Session, file: string, env: Env): Op {
    StartUpload(s.login.userid, Basename(file), ParentPath(file), env.id, env.now, env.opens, s.unread)
  }

  function CommandOps(w: World, verb: Verb, arg: string, env: Env): seq<Op> {
    var s, wd := w.s, w.s.workingDirectory;
    if !s.login.ok || arg == "" then []
    else
      match verb
      case MKD => [MakeDirectory(s.login.userid, MkdTarget(wd, arg).name, MkdTarget(wd, arg).path, env.id, env.now)]
      case RMD => [Delete(s.login.userid, RmdTarget(wd, arg).name, RmdTarget(wd, arg).path)]
      case DELE => [Delete(s.login.userid, MkdTarget(wd, arg).name, MkdTarget(wd, arg).path)]
      case STOR =>
        var file := StorFile(wd, arg);
        if s.pending.write == "" && !StorParentMissing(w, file) && s.data.open then [UploadOf(s, file, env)] else []
      case _ => []
  }

  function ReceiveOps(s: Session, bytes: seq<Byte>, outcome: Outcome, written: nat, now: string): seq<Op> {
    if s.up.stream.NoRecv? then []
    else
      var write := if s.up.stream.target.Some? && |bytes| > 0 then [WriteOf(s, bytes, written)] else [];
      if WriteFails(s.up.stream, bytes, written) || outcome != Success then write + [FinishOf(s, bytes, now)] else write
  }

  function WriteOf(s: Session, bytes: seq<Byte>, written: nat): Op
    requires s.up.stream.Recv? && s.up.stream.target.Some?
  {
    Receive(s.up.stream.target.value, bytes, Prefix(s.unread + bytes, written))
  }

  function FinishOf(s: Session, bytes: seq<Byte>, now: string): Op
    requires s.up.stream.Recv?
  {
    FinishUpload(s.login.userid, s.up.name, s.up.path, s.up.size + |bytes|, now, s.up.stream.target)
  }

  function OpsOf(w: World, e: Event): seq<Op> {
    match e
    case Command(verb, arg, env) => CommandOps(w, verb, arg, env)
    case Accepted(env) =>
      if w.s.pending.list == "" && w.s.pending.write != "" then [UploadOf(w.s, w.s.pending.write, env)] else []
    case Received(bytes, outcome, written, now) => ReceiveOps(w.s, bytes, outcome, written, now)
    case Elsewhere(op) => [op]
    case _ => []
  }

  lemma CommandDb(w: World, verb: Verb, arg: string, env: Env)
    ensures HandleCommand(Taken(w), verb, arg, env).db == Run(w.db, CommandOps(w, verb, arg, env))
  {
    if w.s.login.ok && arg != "" && verb == STOR {
      StorCommandDb(w, arg, env);
    } else if w.s.login.ok && arg != "" && (verb == MKD || verb == RMD || verb == DELE) {
      ChangeDb(w, verb, arg, env);
      RunOne(w.db, CommandOps(w, verb, arg, env)[0]);
    } else {
      QuietDb(w, verb, arg, env);
    }
  }

  lemma StorCommandDb(w: World, arg: string, env: Env)
    requires w.s.login.ok && arg != ""
    ensures HandleCommand(Taken(w), STOR, arg, env).db == Run(w.db, CommandOps(w, STOR, arg, env))
  {
    var file := StorFile(w.s.workingDirectory, arg);
    StorDb(Taken(w), arg, file, env);
    RunOne(w.db, UploadOf(w.s, file, env));
  }

  lemma QuietDb(w: World, verb: Verb, arg: string, env: Env)
    requires !w.s.login.ok || arg == "" || (verb != STOR && verb != MKD && verb != RMD && verb != DELE)
    ensures HandleCommand(Taken(w), verb, arg, env).db == w.db && CommandOps(w, verb, arg, env) == []
  {
  }

  lemma ChangeDb(w: World, verb: Verb, arg: string, env: Env)
    requires w.s.login.ok && arg != "" && (verb == MKD || verb == RMD || verb == DELE)
    ensures |CommandOps(w, verb, arg, env)| == 1
    ensures CommandOps(w, verb, arg, env) == [CommandOps(w, verb, arg, env)[0]]
    ensures HandleCommand(Taken(w), verb, arg, env).db == Apply(w.db, CommandOps(w, verb, arg, env)[0])
  {
  }

  lemma StorDb(w: World, arg: string, file: string, env: Env)
    requires arg != ""
    ensures RunStor(w, arg, file, env).db ==
            if w.s.pending.write == "" && !StorParentMissing(w, file) && w.s.data.open
            then Apply(w.db, UploadOf(w.s, file, env)) else w.db
  {
  }

  lemma ReceivedDb(w: World, bytes: seq<Byte>, outcome: Outcome, written: nat, now: string)
    ensures ReceiveStep(w, bytes, outcome, written, now).db == Run(w.db, ReceiveOps(w.s, bytes, outcome, written, now))
  {
    var s := w.s;
    if s.up.stream.Recv? {
      var finish := FinishOf(s, bytes, now);
      if s.up.stream.target.Some? && |bytes| > 0 {
        var write := WriteOf(s, bytes, written);
        WriteThenFinish(w.db, write, finish);
      } else {
        RunOne(w.db, finish);
        assert [] + [finish] == [finish];
      }
    }
  }

  lemma WriteThenFinish(s: Store, write: Op, finish: Op)
    ensures Run(s, [write]) == Apply(s, write)
    ensures Run(s, [write] + [finish]) == Apply(Apply(s, write), finish)
  {
    RunOne(s, write);
    RunOne(Apply(s, write), finish);
    RunAppend(s, [write], [finish]);
  }

  /** Every step changes the database by its operations and nothing else. */
  lemma StepDb(w: World, e: Event)
    ensures Step(w, e).db == Run(w.db, OpsOf(w, e))
  {
    match e
    case Command(verb, arg, env) => CommandDb(w, verb, arg, env);
    case Accepted(env) =>
      if w.s.pending.list == "" && w.s.pending.write != "" {
        RunOne(w.db, UploadOf(w.s, w.s.pending.write, env));
      }
    case Received(bytes, outcome, written, now) => ReceivedDb(w, bytes, outcome, written, now);
    case Elsewhere(op) => RunOne(w.db, op);
    case _ =>
  }

  /** All operations of a run, in order. */
  function AllOps(w: World, es: seq<Event>): seq<Op>
    decreases |es|
  {
    if es == [] then [] else OpsOf(w, es[0]) + AllOps(Step(w, es[0]), es[1..])
  }

  /** So what holds after every sequence of operations holds after every run. */
  lemma {:induction false} RunDb(w: World, es: seq<Event>)
    ensures Steps(w, es).db == Run(w.db, AllOps(w, es))
    decreases |es|
  {
    if es != [] {
      StepDb(w, es[0]);
      RunAppend(w.db, OpsOf(w, es[0]), AllOps(Step(w, es[0]), es[1..]));
      RunDb(Step(w, es[0]), es[1..]);
    }
  }

  // ----- the working directory -----

  /** Where the working directory and the pending upload can come from. */
  lemma CommandMoves(w: World, verb: Verb, arg: string, env: Env)
    ensures var t := HandleCommand(Taken(w), verb, arg, env).s;
            var moved := ChangeDirectory(w.db.rows, w.s.login.userid, w.s.workingDirectory, arg);
            && (|| t.workingDirectory == w.s.workingDirectory
                || t.workingDirectory == ParentPath(w.s.workingDirectory)
                || (verb == CWD && moved == Some(t.workingDirectory)))
            && (t.pending.write == w.s.pending.write ||
                (verb == STOR && arg != "" && t.pending.write == StorFile(w.s.workingDirectory, arg)))
  {
    if !w.s.login.ok || NeedsNoLogin(verb) {
      LoginMoves(w, verb, arg, env);
    } else {
      LoggedInMoves(Taken(w), verb, arg, env);
    }
  }

  lemma LoginMoves(w: World, verb: Verb, arg: string, env: Env)
    requires !w.s.login.ok || NeedsNoLogin(verb)
    ensures Stays(w.s, HandleCommand(Taken(w), verb, arg, env).s)
  {
    if NeedsNoLogin(verb) {
      OpenMoves(Taken(w), verb, arg);
    }
  }

  lemma OpenMoves(w: World, verb: Verb, arg: string)
    requires NeedsNoLogin(verb)
    ensures Stays(w.s, RunOpen(w, verb, arg).s)
  {
  }

  predicate Stays(s: Session, t: Session) {
    t.workingDirectory == s.workingDirectory && t.pending.write == s.pending.write
  }

  lemma LoggedInMoves(w: World, verb: Verb, arg: string, env: Env)
    ensures var t := RunCommand(w, verb, arg, env).s;
            var moved := ChangeDirectory(w.db.rows, w.s.login.userid, w.s.workingDirectory, arg);
            || Stays(w.s, t)
            || (verb == CDUP && t.pending.write == w.s.pending.write &&
                t.workingDirectory == ParentPath(w.s.workingDirectory))
            || (verb == CWD && t.pending.write == w.s.pending.write && moved == Some(t.workingDirectory))
            || (verb == STOR && arg != "" && t.workingDirectory == w.s.workingDirectory &&
                t.pending.write == StorFile(w.s.workingDirectory, arg))
  {
    if verb == STOR {
      StorMoves(w, arg, StorFile(w.s.workingDirectory, arg), env);
    } else if verb == RETR {
      RetrMoves(w, arg, RetrTarget(w.s.workingDirectory, arg), env);
    } else if verb == LIST {
      ListMoves(w, arg, env);
    } else if verb == MKD || verb == RMD || verb == DELE {
      ChangeMoves(w, verb, arg, env);
    } else if verb != CWD && verb != CDUP {
      AnswerMoves(w, verb, arg, env);
    }
  }

  lemma ListMoves(w: World, arg: string, env: Env)
    ensures Stays(w.s, RunCommand(w, LIST, arg, env).s)
  {
  }

  lemma ChangeMoves(w: World, verb: Verb, arg: string, env: Env)
    requires verb == MKD || verb == RMD || verb == DELE
    ensures Stays(w.s, RunCommand(w, verb, arg, env).s)
  {
  }

  lemma AnswerMoves(w: World, verb: Verb, arg: string, env: Env)
    requires verb !in {STOR, RETR, LIST, MKD, RMD, DELE, CWD, CDUP}
    ensures Stays(w.s, RunCommand(w, verb, arg, env).s)
  {
  }

  lemma BeginMoves(w: World, env: Env)
    ensures var t := BeginStor(w, env).s;
            t.workingDirectory == w.s.workingDirectory && t.pending.write == w.s.pending.write
  {
  }

  lemma StorMoves(w: World, arg: string, file: string, env: Env)
    ensures var t := RunStor(w, arg, file, env).s;
            && t.workingDirectory == w.s.workingDirectory
            && (t.pending.write == w.s.pending.write || (arg != "" && t.pending.write == file))
  {
    BeginMoves(w.(s := w.s.(pending := w.s.pending.(write := file))), env);
  }

  lemma RetrMoves(w: World, arg: string, at: Target, env: Env)
    ensures Stays(w.s, RunRetr(ParseRetr(w, arg, at), env.opens).s)
  {
    var found := ParseRetr(w, arg, at);
    assert Stays(w.s, found.s);
    SendMoves(found, env.opens);
  }

  lemma SendMoves(w: World, opens: bool)
    ensures Stays(w.s, RunRetr(w, opens).s)
  {
  }

  lemma CallbackMoves(w: World, e: Event)
    requires !e.Command?
    ensures var t := Step(w, e).s;
            && t.workingDirectory == w.s.workingDirectory
            && (t.pending.write == w.s.pending.write || t.pending.write == "")
  {
    if e.Received? {
      ReceivedMoves(w, e.bytes, e.outcome, e.written, e.now);
    }
  }

  lemma ReceivedMoves(w: World, bytes: seq<Byte>, outcome: Outcome, written: nat, now: string)
    ensures var t := ReceiveStep(w, bytes, outcome, written, now).s;
            && t.workingDirectory == w.s.workingDirectory
            && (t.pending.write == w.s.pending.write || t.pending.write == "")
  {
  }

  lemma StepStaysClean(w: World, e: Event)
    requires Clean(w.s.workingDirectory) && Named(w.db.rows, w.s.login.userid)
    ensures Clean(Step(w, e).s.workingDirectory)
  {
    if e.Command? {
      CommandMoves(w, e.verb, e.arg, e.env);
      CdupStaysClean(w.s.workingDirectory);
      if ChangeDirectory(w.db.rows, w.s.login.userid, w.s.workingDirectory, e.arg).Some? {
        CwdStaysClean(w.db.rows, w.s.login.userid, w.s.workingDirectory, e.arg);
      }
    } else {
      CallbackMoves(w, e);
    }
  }

  /** Whenever a handler runs, no row of the session's user has an empty name. */
  predicate NamedThroughout(w: World, es: seq<Event>)
    decreases |es|
  {
    es == [] || (Named(w.db.rows, w.s.login.userid) && NamedThroughout(Step(w, es[0]), es[1..]))
  }

  /** Over every run, disciplined or not, in which no row of the session's user has an empty
      name: the working directory is absolute, without empty components and without a trailing
      slash except at the root. Rows at paths like "//x" do no harm. */
  lemma {:induction false} RunStaysClean(w: World, es: seq<Event>)
    requires Clean(w.s.workingDirectory) && NamedThroughout(w, es)
    ensures Clean(Steps(w, es).s.workingDirectory)
    decreases |es|
  {
    if es != [] {
      StepStaysClean(w, es[0]);
      RunStaysClean(Step(w, es[0]), es[1..]);
    }
  }
}
