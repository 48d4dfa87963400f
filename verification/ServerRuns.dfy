/** Recorded sizes with any number of sessions over one database. Every session runs its own
    handlers; what one takes for granted of the others in module UploadRuns, they do
    (src/ftp/server.cpp:55, src/ftp/base_session.cpp:626-714). */
module ServerRuns {
  import opened FsTable
  import opened FsRuns
  import opened Navigation
  import opened Sizes
  import opened SessionSpec
  import opened SessionRuns
  import opened UploadRuns

  /** The database and the sessions, each with its client; a session's own copy of the
      database is not looked at. */
  datatype Server = Server(db: Store, sessions: map<nat, World>)

  /** One handler of one session. */
  datatype Happening = Happening(session: nat, event: Event)

  function At(x: Server, k: nat): World
    requires k in x.sessions
  {
    x.sessions[k].(db := x.db)
  }

  function ServerStep(x: Server, h: Happening): Server {
    if h.session !in x.sessions then x
    else
      var w := Step(At(x, h.session), h.event);
      Server(w.db, x.sessions[h.session := w])
  }

  function FollowServer(t: Track, x: Server, h: Happening): Track {
    if h.session !in x.sessions then t else FollowStep(t, At(x, h.session), h.event)
  }

  predicate AllLinked(x: Server, t: Track) {
    forall k :: k in x.sessions ==> Linked(x.sessions[k].s, t) && OneUpload(x.sessions[k].s)
  }

  ghost predicate NotBoth(s: Session, u: Session) {
    forall id :: Mine(s, id) ==> !Mine(u, id)
  }

  /** No two sessions upload to the same row. */
  ghost predicate Apart(x: Server) {
    forall j, k :: j in x.sessions && k in x.sessions && j != k ==> NotBoth(x.sessions[j].s, x.sessions[k].s)
  }

  /** The handler can run, and what it starts and makes comes in turn. */
  predicate OrderlyAt(x: Server, t: Track, h: Happening) {
    && h.session in x.sessions && !h.event.Elsewhere?
    && Enabled(At(x, h.session), h.event) && Orderly(At(x, h.session), t, h.event)
  }

  // ----- one session beside another -----

  /** A session writes to its own upload only. */
  lemma TouchesOwn(w: World, e: Event, u: Session)
    requires Enabled(w, e) && !e.Elsewhere? && NotBoth(w.s, u)
    ensures forall op :: op in OpsOf(w, e) ==> !Touches(op, u)
  {
    if e.Received? {
      var ops := ReceiveOps(w.s, e.bytes, e.outcome, e.written, e.now);
      assert forall op :: op in ops && op.Receive? ==> Mine(w.s, op.target);
      assert forall op :: op in ops && op.FinishUpload? && op.into.Some? ==> Mine(w.s, op.into.value);
    }
  }

  lemma {:induction false} OthersLinked(u: Session, t: Track, db: Store, ops: seq<Op>)
    requires Linked(u, t) && SizesOk(db, t) && AllInTurn(t, db, ops)
    requires forall op :: op in ops ==> !Touches(op, u)
    requires forall i :: 0 <= i < |ops| - 1 ==> !ops[i].FinishUpload?
    ensures Linked(u, Tracked(t, db, ops))
    decreases |ops|
  {
    if ops != [] {
      assert ops[0] in ops;
      ElsewhereLinked(u, t, db, ops[0]);
      if |ops| == 1 {
        assert ops[1..] == [];
      } else {
        ApplySizes(db, t, ops[0]);
        OthersLinked(u, Follow(t, db, ops[0]), Apply(db, ops[0]), ops[1..]);
      }
    }
  }

  /** An upload in turn is to a row no upload runs to. */
  lemma StartsOnIdleRow(db: Store, t: Track, op: Op)
    requires SizesOk(db, t) && op.StartUpload? && InTurn(t, db, op)
    ensures var o := OpenUpload(db, op.user, op.name, op.path, op.id, op.now, op.opens);
            o.target.Some? ==> o.target.value !in t.active
  {
    var found := Lookup(db.rows, op.user, op.name, op.path);
    LookupFacts(db.rows, op.user, op.name, op.path);
    if found.Some? {
      ActiveIsBusy(db, t, found.value);
    }
  }

  /** The upload a session runs after a handler is the one it ran before, or one to such a row. */
  ghost predicate OldOrNew(s: Session, u: Session, t: Track) {
    forall id :: Mine(u, id) ==> Mine(s, id) || id !in t.active
  }

  lemma StartIsNew(w: World, t: Track, env: Env)
    requires w.s.data.recvOps == 0 && SizesOk(w.db, t)
    requires InTurn(t, w.db, UploadOf(w.s, w.s.pending.write, env))
    ensures OldOrNew(w.s, StartReceive(w, env).s, t)
  {
    StartsOnIdleRow(w.db, t, UploadOf(w.s, w.s.pending.write, env));
  }

  lemma StorIsNew(w: World, t: Track, arg: string, file: string, env: Env)
    requires OneUpload(w.s) && SizesOk(w.db, t) && arg != ""
    requires w.s.pending.write == "" && !StorParentMissing(w, file) && w.s.data.open ==>
               InTurn(t, w.db, UploadOf(w.s, file, env))
    ensures OldOrNew(w.s, RunStor(w, arg, file, env).s, t)
  {
    if w.s.pending.write == "" && !StorParentMissing(w, file) && w.s.data.open {
      StartIsNew(w.(s := Say(w.s.(pending := w.s.pending.(write := file)), 150, "Opening connection.")), t, env);
    }
  }

  lemma CommandIsNew(w: World, t: Track, verb: Verb, arg: string, env: Env)
    requires Linked(w.s, t) && OneUpload(w.s) && SizesOk(w.db, t) && Orderly(w, t, Command(verb, arg, env))
    ensures OldOrNew(w.s, HandleCommand(Taken(w), verb, arg, env).s, t)
  {
    if verb == STOR && w.s.login.ok && arg != "" {
      var file := StorFile(w.s.workingDirectory, arg);
      assert forall op :: op in CommandOps(w, STOR, arg, env) ==> InTurn(t, w.db, op);
      if w.s.pending.write == "" && !StorParentMissing(w, file) && w.s.data.open {
        assert UploadOf(w.s, file, env) in CommandOps(w, STOR, arg, env);
      }
      StorIsNew(Taken(w), t, arg, file, env);
    } else {
      CommandKeepsUpload(Taken(w), verb, arg, env);
    }
  }

  lemma AcceptIsNew(w: World, t: Track, env: Env)
    requires Linked(w.s, t) && OneUpload(w.s) && SizesOk(w.db, t) && Orderly(w, t, Accepted(env))
    ensures OldOrNew(w.s, Accept(w, env).s, t)
  {
    if w.s.pending.list == "" && w.s.pending.write != "" {
      AcceptStartsAlone(w, t, env);
      assert UploadOf(w.s, w.s.pending.write, env) in OpsOf(w, Accepted(env));
      StartIsNew(Connect(w), t, env);
    }
  }

  lemma StepIsNew(w: World, t: Track, e: Event)
    requires Linked(w.s, t) && OneUpload(w.s) && SizesOk(w.db, t) && Orderly(w, t, e) && Enabled(w, e) && !e.Elsewhere?
    ensures OldOrNew(w.s, Step(w, e).s, t)
  {
    match e
    case Command(verb, arg, env) => CommandIsNew(w, t, verb, arg, env);
    case Accepted(env) => AcceptIsNew(w, t, env);
    case Received(bytes, outcome, written, now) => ReceivedKeepsStream(w, bytes, outcome, written, now);
    case Delivered(outcome, count) => DeliveredKeepsUpload(w, outcome, count);
    case _ =>
  }

  lemma ReceivedKeepsStream(w: World, bytes: seq<Byte>, outcome: Outcome, written: nat, now: string)
    requires w.s.data.recvOps == 1
    ensures var s := ReceiveStep(w, bytes, outcome, written, now).s;
            s.data.recvOps > 0 ==> s.up.stream == w.s.up.stream
  {
  }

  // ----- all sessions -----

  lemma StaysLinked(x: Server, t: Track, h: Happening)
    requires AllLinked(x, t) && Apart(x) && SizesOk(x.db, t) && OrderlyAt(x, t, h)
    ensures AllLinked(ServerStep(x, h), FollowServer(t, x, h))
  {
    var w, y, u := At(x, h.session), ServerStep(x, h), FollowServer(t, x, h);
    StepLinked(w, t, h.event);
    EndsLast(w, h.event);
    forall k | k in y.sessions
      ensures Linked(y.sessions[k].s, u) && OneUpload(y.sessions[k].s)
    {
      if k != h.session {
        TouchesOwn(w, h.event, x.sessions[k].s);
        OthersLinked(x.sessions[k].s, t, x.db, OpsOf(w, h.event));
      }
    }
  }

  lemma StaysApart(x: Server, t: Track, h: Happening)
    requires AllLinked(x, t) && Apart(x) && SizesOk(x.db, t) && OrderlyAt(x, t, h)
    ensures Apart(ServerStep(x, h))
  {
    var w, y := At(x, h.session), ServerStep(x, h);
    StepIsNew(w, t, h.event);
    forall j, k | j in y.sessions && k in y.sessions && j != k
      ensures NotBoth(y.sessions[j].s, y.sessions[k].s)
    {
      assert NotBoth(x.sessions[j].s, x.sessions[k].s) && NotBoth(x.sessions[k].s, x.sessions[j].s);
      assert Linked(x.sessions[j].s, t) && Linked(x.sessions[k].s, t);
    }
  }

  predicate AllOrderlyAt(x: Server, t: Track, hs: seq<Happening>)
    decreases |hs|
  {
    hs == [] || (OrderlyAt(x, t, hs[0]) && AllOrderlyAt(ServerStep(x, hs[0]), FollowServer(t, x, hs[0]), hs[1..]))
  }

  predicate ServerSizesAlong(x: Server, t: Track, hs: seq<Happening>)
    decreases |hs|
  {
    SizesOk(x.db, t) && (hs == [] || ServerSizesAlong(ServerStep(x, hs[0]), FollowServer(t, x, hs[0]), hs[1..]))
  }

  predicate ServerEndsWell(x: Server, t: Track, h: Happening) {
    h.session in x.sessions ==> StepEndsWell(At(x, h.session), t, h.event)
  }

  predicate ServerEndsWellAlong(x: Server, t: Track, hs: seq<Happening>)
    decreases |hs|
  {
    hs == [] ||
    (ServerEndsWell(x, t, hs[0]) && ServerEndsWellAlong(ServerStep(x, hs[0]), FollowServer(t, x, hs[0]), hs[1..]))
  }

  /** Over every interleaving of any number of sessions, whatever their clients do: as long as
      new ids are fresh and no object is uploaded to twice at a time, every recorded size is
      right after every step if and only if every upload ends well. Nothing is taken for
      granted of what the sessions write to their uploads and how they end them. */
  lemma {:induction false} ServerSizes(x: Server, t: Track, hs: seq<Happening>)
    requires AllLinked(x, t) && Apart(x) && SizesOk(x.db, t) && AllOrderlyAt(x, t, hs)
    ensures ServerSizesAlong(x, t, hs) <==> ServerEndsWellAlong(x, t, hs)
    decreases |hs|
  {
    if hs != [] {
      StaysLinked(x, t, hs[0]);
      StaysApart(x, t, hs[0]);
      StepSizes(At(x, hs[0].session), t, hs[0].event);
      if ServerEndsWell(x, t, hs[0]) {
        ServerSizes(ServerStep(x, hs[0]), FollowServer(t, x, hs[0]), hs[1..]);
      }
    }
  }
}
