/** Recorded sizes over the runs of a session, whatever its client does
    (src/ftp/base_session.cpp:626-714). */
module UploadRuns {
  import opened Helpers
  import opened Paths
  import opened FsTable
  import opened FsRuns
  import opened Navigation
  import opened Sizes
  import opened SessionSpec
  import opened SessionRuns
  import Users

  /** The record of uploads, moved along by what the step does to the database. */
  function FollowStep(t: Track, w: World, e: Event): Track {
    Tracked(t, w.db, OpsOf(w, e))
  }

  /** The upload of this session, if one runs, is the one to this row. */
  predicate Mine(s: Session, id: string) {
    s.data.recvOps > 0 && s.up.stream == RecvStream.Recv(Some(id))
  }

  /** The session's own account of its upload matches the record: no byte is lost or doubled,
      those not written are the ones in the buffer. */
  predicate Linked(s: Session, t: Track) {
    s.data.recvOps > 0 ==>
      && s.up.stream.Recv? && s.up.stream.target.Some? && s.up.stream.target.value in t.active
      && Matches(s, t.active[s.up.stream.target.value])
  }

  predicate Matches(s: Session, a: Uploading) {
    && a.name == s.up.name && a.path == s.up.path
    && s.up.size == a.start + |a.transfer.arrived|
    && a.transfer.carried + a.transfer.arrived == a.transfer.written + s.unread
  }

  /** There is one receive stream, and its file is the pending one. */
  predicate OneUpload(s: Session) {
    && s.data.recvOps <= 1
    && (s.data.recvOps == 1 ==>
          s.pending.write != "" && s.up.name == Basename(s.pending.write) && s.up.path == ParentPath(s.pending.write))
  }

  /** Uploads that this session or others start, and directories they make, come in turn, and
      nobody else writes to this session's upload. A session that changes its user while it
      uploads does not start a second upload of the file for the new one. */
  predicate Orderly(w: World, t: Track, e: Event) {
    && (e.Elsewhere? ==> InTurn(t, w.db, e.op) && !Touches(e.op, w.s))
    && (forall op :: op in OpsOf(w, e) && !op.Receive? && !op.FinishUpload? ==> InTurn(t, w.db, op))
    && (!e.Elsewhere? ==> forall op :: op in OpsOf(w, e) && op.StartUpload? ==> SameUser(w.s, t))
  }

  /** The user of the upload that runs, if one does, is still the session's. */
  predicate SameUser(s: Session, t: Track) {
    s.data.recvOps > 0 && s.up.stream.Recv? && s.up.stream.target.Some? && s.up.stream.target.value in t.active ==>
      t.active[s.up.stream.target.value].user == s.login.userid
  }

  predicate Touches(op: Op, s: Session) {
    (op.Receive? && Mine(s, op.target)) || (op.FinishUpload? && op.into.Some? && Mine(s, op.into.value))
  }

  lemma OneInTurn(t: Track, s: Store, op: Op)
    requires InTurn(t, s, op)
    ensures AllInTurn(t, s, [op]) && Tracked(t, s, [op]) == Follow(t, s, op)
  {
    assert [op][1..] == [];
  }

  lemma TwoInTurn(t: Track, s: Store, a: Op, b: Op)
    requires InTurn(t, s, a) && InTurn(Follow(t, s, a), Apply(s, a), b)
    ensures AllInTurn(t, s, [a, b]) && Tracked(t, s, [a, b]) == Follow(Follow(t, s, a), Apply(s, a), b)
  {
    assert [a, b][1..] == [b];
    OneInTurn(Follow(t, s, a), Apply(s, a), b);
  }

  /** What is inserted goes on where the file ends, and what is not stays in the buffer. */
  lemma Conserved(carried: seq<Byte>, arrived: seq<Byte>, done: seq<Byte>, unread: seq<Byte>, bytes: seq<Byte>,
                  written: nat)
    requires carried + arrived == done + unread
    ensures var all := unread + bytes;
            && done + Prefix(all, written) <= carried + (arrived + bytes)
            && carried + (arrived + bytes) == (done + Prefix(all, written)) + Rest(all, written)
  {
    var all := unread + bytes;
    PrefixAndRest(all, written);
    Regroup(carried, arrived, bytes);
    Regroup(done, unread, bytes);
    Regroup(done, Prefix(all, written), Rest(all, written));
  }

  lemma WriteInTurn(w: World, t: Track, bytes: seq<Byte>, written: nat)
    requires w.s.data.recvOps == 1 && Linked(w.s, t)
    ensures var op := WriteOf(w.s, bytes, written);
            var s1 := w.s.(up := w.s.up.(size := w.s.up.size + |bytes|), unread := Rest(w.s.unread + bytes, written));
            InTurn(t, w.db, op) && Linked(s1, Follow(t, w.db, op))
  {
    var tr := t.active[w.s.up.stream.target.value].transfer;
    Conserved(tr.carried, tr.arrived, tr.written, w.s.unread, bytes, written);
  }

  predicate Ends(s: Session, bytes: seq<Byte>, outcome: Outcome, written: nat) {
    WriteFails(s.up.stream, bytes, written) || outcome != Success
  }

  lemma WrittenLinked(w: World, t: Track, bytes: seq<Byte>, outcome: Outcome, written: nat, now: string)
    requires w.s.data.recvOps == 1 && OneUpload(w.s) && Linked(w.s, t) && |bytes| > 0
    ensures AllInTurn(t, w.db, ReceiveOps(w.s, bytes, outcome, written, now))
    ensures Linked(ReceiveStep(w, bytes, outcome, written, now).s,
                   Tracked(t, w.db, ReceiveOps(w.s, bytes, outcome, written, now)))
    ensures OneUpload(ReceiveStep(w, bytes, outcome, written, now).s)
  {
    var write, finish := WriteOf(w.s, bytes, written), FinishOf(w.s, bytes, now);
    WriteInTurn(w, t, bytes, written);
    if Ends(w.s, bytes, outcome, written) {
      TwoInTurn(t, w.db, write, finish);
    } else {
      OneInTurn(t, w.db, write);
    }
  }

  lemma NothingLinked(w: World, t: Track, bytes: seq<Byte>, outcome: Outcome, written: nat, now: string)
    requires w.s.data.recvOps == 1 && OneUpload(w.s) && Linked(w.s, t) && bytes == []
    ensures AllInTurn(t, w.db, ReceiveOps(w.s, bytes, outcome, written, now))
    ensures Linked(ReceiveStep(w, bytes, outcome, written, now).s,
                   Tracked(t, w.db, ReceiveOps(w.s, bytes, outcome, written, now)))
    ensures OneUpload(ReceiveStep(w, bytes, outcome, written, now).s)
  {
    var finish := FinishOf(w.s, bytes, now);
    assert w.s.unread + bytes == w.s.unread;
    if Ends(w.s, bytes, outcome, written) {
      assert [] + [finish] == [finish];
      OneInTurn(t, w.db, finish);
    }
  }

  lemma ReceivedLinked(w: World, t: Track, bytes: seq<Byte>, outcome: Outcome, written: nat, now: string)
    requires w.s.data.recvOps == 1 && OneUpload(w.s) && Linked(w.s, t)
    ensures AllInTurn(t, w.db, ReceiveOps(w.s, bytes, outcome, written, now))
    ensures Linked(ReceiveStep(w, bytes, outcome, written, now).s,
                   Tracked(t, w.db, ReceiveOps(w.s, bytes, outcome, written, now)))
    ensures OneUpload(ReceiveStep(w, bytes, outcome, written, now).s)
  {
    if |bytes| > 0 {
      WrittenLinked(w, t, bytes, outcome, written, now);
    } else {
      NothingLinked(w, t, bytes, outcome, written, now);
    }
  }

  lemma StartLinked(w: World, t: Track, env: Env)
    requires w.s.data.recvOps == 0 && w.s.pending.write != ""
    ensures var s := StartReceive(w, env).s;
            Linked(s, Follow(t, w.db, UploadOf(w.s, w.s.pending.write, env))) && OneUpload(s)
  {
    assert w.s.unread + [] == [] + w.s.unread;
  }

  lemma StorLinked(w: World, t: Track, arg: string, file: string, env: Env)
    requires Linked(w.s, t) && OneUpload(w.s) && arg != "" && file != ""
    ensures var s := RunStor(w, arg, file, env).s;
            && OneUpload(s)
            && Linked(s, if w.s.pending.write == "" && !StorParentMissing(w, file) && w.s.data.open
                         then Follow(t, w.db, UploadOf(w.s, file, env)) else t)
  {
    if w.s.pending.write == "" && !StorParentMissing(w, file) && w.s.data.open {
      StartLinked(w.(s := Say(w.s.(pending := w.s.pending.(write := file)), 150, "Opening connection.")), t, env);
    }
  }

  /** Nothing but uploads touches what `Linked` and `OneUpload` look at. */
  predicate SameUpload(s: Session, u: Session) {
    && u.data.recvOps == s.data.recvOps && u.up == s.up && u.unread == s.unread
    && u.pending.write == s.pending.write
  }

  lemma LoginKeepsUpload(w: World, verb: Verb, arg: string, env: Env)
    requires !w.s.login.ok || NeedsNoLogin(verb)
    ensures SameUpload(w.s, HandleCommand(w, verb, arg, env).s)
  {
    if NeedsNoLogin(verb) {
      OpenKeepsUpload(w, verb, arg);
    }
  }

  lemma OpenKeepsUpload(w: World, verb: Verb, arg: string)
    requires NeedsNoLogin(verb)
    ensures SameUpload(w.s, RunOpen(w, verb, arg).s)
  {
  }

  lemma TransferKeepsUpload(w: World, verb: Verb, arg: string, env: Env)
    requires verb == LIST || verb == RETR
    ensures SameUpload(w.s, RunCommand(w, verb, arg, env).s)
  {
    if verb == RETR {
      RetrKeepsUpload(w, arg, RetrTarget(w.s.workingDirectory, arg), env);
    }
  }

  lemma RetrKeepsUpload(w: World, arg: string, at: Target, env: Env)
    ensures SameUpload(w.s, RunRetr(ParseRetr(w, arg, at), env.opens).s)
  {
    var found := ParseRetr(w, arg, at);
    assert SameUpload(w.s, found.s);
    SendKeepsUpload(found, env.opens);
  }

  lemma SendKeepsUpload(w: World, opens: bool)
    ensures SameUpload(w.s, RunRetr(w, opens).s)
  {
  }

  lemma AnswerKeepsUpload(w: World, verb: Verb, arg: string, env: Env)
    requires verb !in {LIST, RETR, STOR, MKD, RMD, DELE}
    ensures SameUpload(w.s, RunCommand(w, verb, arg, env).s)
  {
  }

  lemma ChangeKeepsUpload(w: World, verb: Verb, arg: string, env: Env)
    requires verb == MKD || verb == RMD || verb == DELE
    ensures SameUpload(w.s, RunCommand(w, verb, arg, env).s)
  {
  }

  lemma CommandKeepsUpload(w: World, verb: Verb, arg: string, env: Env)
    requires verb != STOR || !w.s.login.ok || arg == ""
    ensures SameUpload(w.s, HandleCommand(w, verb, arg, env).s)
  {
    if !w.s.login.ok || NeedsNoLogin(verb) {
      LoginKeepsUpload(w, verb, arg, env);
    } else if verb == STOR {
    } else if verb == LIST || verb == RETR {
      TransferKeepsUpload(w, verb, arg, env);
    } else if verb == MKD || verb == RMD || verb == DELE {
      ChangeKeepsUpload(w, verb, arg, env);
    } else {
      AnswerKeepsUpload(w, verb, arg, env);
    }
  }

  /** Making and removing leave the record as it is. */
  lemma OtherOpsKeepTrack(t: Track, s: Store, op: Op)
    requires op.MakeDirectory? || op.Delete?
    ensures Follow(t, s, op) == t
  {
  }

  lemma CommandLinked(w: World, t: Track, verb: Verb, arg: string, env: Env)
    requires Linked(w.s, t) && OneUpload(w.s) && Orderly(w, t, Command(verb, arg, env))
    ensures AllInTurn(t, w.db, CommandOps(w, verb, arg, env))
    ensures var s := HandleCommand(Taken(w), verb, arg, env).s;
            Linked(s, Tracked(t, w.db, CommandOps(w, verb, arg, env))) && OneUpload(s)
  {
    CommandInTurn(w, t, verb, arg, env);
    if verb == STOR && w.s.login.ok && arg != "" {
      StorCommandLinked(w, t, arg, env);
    } else {
      OtherCommandLinked(w, t, verb, arg, env);
    }
  }

  /** A command is at most one operation. */
  lemma CommandInTurn(w: World, t: Track, verb: Verb, arg: string, env: Env)
    requires Orderly(w, t, Command(verb, arg, env))
    ensures var ops := CommandOps(w, verb, arg, env);
            && |ops| <= 1 && AllInTurn(t, w.db, ops)
            && Tracked(t, w.db, ops) == if ops == [] then t else Follow(t, w.db, ops[0])
  {
    var ops := CommandOps(w, verb, arg, env);
    if ops != [] {
      assert ops == [ops[0]] && ops[0] in ops;
      OneInTurn(t, w.db, ops[0]);
    }
  }

  lemma StorCommandLinked(w: World, t: Track, arg: string, env: Env)
    requires Linked(w.s, t) && OneUpload(w.s) && w.s.login.ok && arg != ""
    ensures var ops, s := CommandOps(w, STOR, arg, env), HandleCommand(Taken(w), STOR, arg, env).s;
            Linked(s, if ops == [] then t else Follow(t, w.db, ops[0])) && OneUpload(s)
  {
    StorLinked(Taken(w), t, arg, StorFile(w.s.workingDirectory, arg), env);
  }

  lemma OtherCommandLinked(w: World, t: Track, verb: Verb, arg: string, env: Env)
    requires Linked(w.s, t) && OneUpload(w.s) && (verb != STOR || !w.s.login.ok || arg == "")
    ensures var ops, s := CommandOps(w, verb, arg, env), HandleCommand(Taken(w), verb, arg, env).s;
            Linked(s, if ops == [] then t else Follow(t, w.db, ops[0])) && OneUpload(s)
  {
    CommandKeepsUpload(Taken(w), verb, arg, env);
    var ops := CommandOps(w, verb, arg, env);
    if ops != [] {
      OtherOpsKeepTrack(t, w.db, ops[0]);
    }
  }

  /** An accept for a file that is being received already would be a second upload to it. */
  lemma AcceptStartsAlone(w: World, t: Track, env: Env)
    requires Linked(w.s, t) && OneUpload(w.s) && Orderly(w, t, Accepted(env))
    requires w.s.pending.list == "" && w.s.pending.write != ""
    ensures w.s.data.recvOps == 0
  {
    var op := UploadOf(w.s, w.s.pending.write, env);
    assert op in OpsOf(w, Accepted(env));
    if w.s.data.recvOps == 1 {
      var id := w.s.up.stream.target.value;
      assert To(t.active[id], op.user, op.name, op.path);
      assert false;
    }
  }

  lemma AcceptedLinked(w: World, t: Track, env: Env)
    requires Linked(w.s, t) && OneUpload(w.s) && Orderly(w, t, Accepted(env))
    ensures AllInTurn(t, w.db, OpsOf(w, Accepted(env)))
    ensures Linked(Accept(w, env).s, FollowStep(t, w, Accepted(env))) && OneUpload(Accept(w, env).s)
  {
    var w1 := Connect(w);
    if w1.s.pending.list == "" && w1.s.pending.write != "" {
      var op := UploadOf(w.s, w.s.pending.write, env);
      AcceptStartsAlone(w, t, env);
      assert op in OpsOf(w, Accepted(env));
      OneInTurn(t, w.db, op);
      StartLinked(w1, t, env);
    }
  }

  /** What other sessions do in turn leaves the record of this session's upload alone. */
  lemma ElsewhereLinked(s: Session, t: Track, db: Store, op: Op)
    requires Linked(s, t) && SizesOk(db, t) && InTurn(t, db, op) && !Touches(op, s)
    ensures Linked(s, Follow(t, db, op))
  {
    if op.StartUpload? {
      var o := Lookup(db.rows, op.user, op.name, op.path);
      LookupFacts(db.rows, op.user, op.name, op.path);
      if o.Some? {
        ActiveIsBusy(db, t, o.value);
      }
    }
  }

  /** One step keeps the account: the operations are in turn and the link holds. */
  lemma StepLinked(w: World, t: Track, e: Event)
    requires Enabled(w, e) && Linked(w.s, t) && OneUpload(w.s) && SizesOk(w.db, t) && Orderly(w, t, e)
    ensures AllInTurn(t, w.db, OpsOf(w, e))
    ensures Linked(Step(w, e).s, FollowStep(t, w, e)) && OneUpload(Step(w, e).s)
  {
    match e
    case Command(verb, arg, env) => CommandLinked(w, t, verb, arg, env);
    case Accepted(env) => AcceptedLinked(w, t, env);
    case Received(bytes, outcome, written, now) => ReceivedLinked(w, t, bytes, outcome, written, now);
    case Elsewhere(op) =>
      OneInTurn(t, w.db, op);
      ElsewhereLinked(w.s, t, w.db, op);
    case Delivered(outcome, count) => DeliveredKeepsUpload(w, outcome, count);
    case _ =>
  }

  lemma DeliveredKeepsUpload(w: World, outcome: Outcome, count: nat)
    ensures SameUpload(w.s, SendStep(w.s, outcome, count))
  {
  }

  /** Whether an upload that this event ends, if it ends one, ends well. */
  predicate StepEndsWell(w: World, t: Track, e: Event) {
    AllEndWell(t, w.db, OpsOf(w, e))
  }

  /** Only the last operation of an event can end an upload. */
  lemma EndsLast(w: World, e: Event)
    ensures forall i :: 0 <= i < |OpsOf(w, e)| - 1 ==> !OpsOf(w, e)[i].FinishUpload?
  {
    if e.Command? {
      CommandIsOne(w, e.verb, e.arg, e.env);
    }
  }

  lemma CommandIsOne(w: World, verb: Verb, arg: string, env: Env)
    ensures |CommandOps(w, verb, arg, env)| <= 1
  {
  }

  lemma StepSizes(w: World, t: Track, e: Event)
    requires Enabled(w, e) && Linked(w.s, t) && OneUpload(w.s) && SizesOk(w.db, t) && Orderly(w, t, e)
    ensures SizesOk(Step(w, e).db, FollowStep(t, w, e)) <==> StepEndsWell(w, t, e)
  {
    StepLinked(w, t, e);
    StepDb(w, e);
    EndsLast(w, e);
    RunSizesAtEnd(w.db, t, OpsOf(w, e));
  }

  // ----- runs -----

  predicate AllOrderly(w: World, t: Track, es: seq<Event>)
    decreases |es|
  {
    es == [] || (Orderly(w, t, es[0]) && AllOrderly(Step(w, es[0]), FollowStep(t, w, es[0]), es[1..]))
  }

  predicate SizesAlong(w: World, t: Track, es: seq<Event>)
    decreases |es|
  {
    SizesOk(w.db, t) && (es == [] || SizesAlong(Step(w, es[0]), FollowStep(t, w, es[0]), es[1..]))
  }

  predicate EndsWellAlong(w: World, t: Track, es: seq<Event>)
    decreases |es|
  {
    es == [] || (StepEndsWell(w, t, es[0]) && EndsWellAlong(Step(w, es[0]), FollowStep(t, w, es[0]), es[1..]))
  }

  /** Over every orderly run of a session, whatever its client does on the control and the data
      connections and with uploads of other sessions going on: after every step each recorded
      size is the total of the bytes that arrived for the row, and each file is what its last
      upload wrote; if and only if every upload ends well, which is to say under the user it
      began for or without harm. QuiescentSizes says what that makes of the length of files. */
  lemma {:induction false} SessionSizes(w: World, t: Track, es: seq<Event>)
    requires Linked(w.s, t) && OneUpload(w.s) && SizesOk(w.db, t) && AllEnabled(w, es) && AllOrderly(w, t, es)
    ensures SizesAlong(w, t, es) <==> EndsWellAlong(w, t, es)
    decreases |es|
  {
    if es != [] {
      StepLinked(w, t, es[0]);
      StepSizes(w, t, es[0]);
      if StepEndsWell(w, t, es[0]) {
        SessionSizes(Step(w, es[0]), FollowStep(t, w, es[0]), es[1..]);
      }
    }
  }

  // ----- USER during an upload -----

  /** A USER that is refused or names the session's own user changes nothing here; any other,
      answered while an upload runs for which bytes have arrived, and left so to the end, makes
      the update miss the row: its size stays behind what arrived. */
  lemma UserDuringUpload(w: World, t: Track, name: string, env: Env, now: string)
    requires Linked(w.s, t) && OneUpload(w.s) && SizesOk(w.db, t) && w.s.data.recvOps == 1 && w.s.control.armed > 0
    requires |w.s.unread| <= RECEIVE_BUFFER_SIZE
    requires var id := w.s.up.stream.target.value;
             var a := t.active[id];
             && id in Ids(w.db.rows) && a.transfer.arrived != [] && name != ""
             && Users.IdByName(w.users, name) !in {"", a.user}
    ensures var es := [Command(USER, name, env), Received([], Eof, 0, now)];
            var id := w.s.up.stream.target.value;
            var a := t.active[id];
            && AllEnabled(w, es)
            && (forall r :: r in Steps(w, es).db.rows && r.id == id ==> r.size < a.start + |a.transfer.arrived|)
            && !SizesAlong(w, t, es)
  {
    var user := Command(USER, name, env);
    UserGoesOn(w, t, name, env);
    EndsBehind(w, Step(w, user), t, user, now);
  }

  lemma EndsBehind(w: World, v: World, t: Track, first: Event, now: string)
    requires v == Step(w, first) && Enabled(w, first) && FollowStep(t, w, first) == t
    requires Linked(v.s, t) && OneUpload(v.s) && SizesOk(v.db, t) && v.s.data.recvOps == 1
    requires |v.s.unread| <= RECEIVE_BUFFER_SIZE
    requires var id := v.s.up.stream.target.value;
             id in Ids(v.db.rows) && t.active[id].transfer.arrived != [] && t.active[id].user != v.s.login.userid
    ensures var es, id := [first, Received([], Eof, 0, now)], v.s.up.stream.target.value;
            var a := t.active[id];
            && AllEnabled(w, es)
            && (forall r :: r in Steps(w, es).db.rows && r.id == id ==> r.size < a.start + |a.transfer.arrived|)
            && !SizesAlong(w, t, es)
  {
    LastReadMisses(v, t, now);
    TwoSteps(w, t, first, Received([], Eof, 0, now));
  }

  lemma UserGoesOn(w: World, t: Track, name: string, env: Env)
    requires Linked(w.s, t) && OneUpload(w.s) && name != "" && Users.IdByName(w.users, name) != ""
    ensures var user := Command(USER, name, env);
            var v := Step(w, user);
            && FollowStep(t, w, user) == t && Linked(v.s, t) && OneUpload(v.s)
            && v.db == w.db && v.s.data.recvOps == w.s.data.recvOps && v.s.up == w.s.up && v.s.unread == w.s.unread
            && v.s.login.userid == Users.IdByName(w.users, name)
  {
    UserKeepsUpload(w, name, env);
  }

  lemma TwoSteps(w: World, t: Track, a: Event, b: Event)
    ensures var v, es := Step(w, a), [a, b];
            && Steps(w, es) == Step(v, b)
            && (Enabled(w, a) && Enabled(v, b) ==> AllEnabled(w, es))
            && (SizesAlong(w, t, es) ==> SizesOk(Step(v, b).db, FollowStep(FollowStep(t, w, a), v, b)))
  {
    assert [a, b][1..] == [b] && [b][1..] == [];
    OneStep(Step(w, a), FollowStep(t, w, a), b);
  }

  lemma OneStep(w: World, t: Track, e: Event)
    ensures && Steps(w, [e]) == Step(w, e)
            && (Enabled(w, e) ==> AllEnabled(w, [e]))
            && (SizesAlong(w, t, [e]) ==> SizesOk(Step(w, e).db, FollowStep(t, w, e)))
  {
    assert [e][1..] == [];
    if SizesAlong(w, t, [e]) {
      SizesNow(Step(w, e), FollowStep(t, w, e), [e][1..]);
    }
  }

  lemma SizesNow(w: World, t: Track, es: seq<Event>)
    requires SizesAlong(w, t, es)
    ensures SizesOk(w.db, t)
  {
  }

  lemma UserKeepsUpload(w: World, name: string, env: Env)
    requires name != "" && Users.IdByName(w.users, name) != ""
    ensures var v := Step(w, Command(USER, name, env));
            && SameUpload(w.s, v.s) && v.db == w.db && v.s.login.userid == Users.IdByName(w.users, name)
            && CommandOps(w, USER, name, env) == []
  {
  }

  lemma LastReadMisses(v: World, t: Track, now: string)
    requires Linked(v.s, t) && OneUpload(v.s) && SizesOk(v.db, t) && v.s.data.recvOps == 1
    requires var id := v.s.up.stream.target.value;
             id in Ids(v.db.rows) && t.active[id].transfer.arrived != [] && t.active[id].user != v.s.login.userid
    ensures var e, id := Received([], Eof, 0, now), v.s.up.stream.target.value;
            && Step(v, e).db == v.db && !SizesOk(v.db, FollowStep(t, v, e))
            && (forall r :: r in v.db.rows && r.id == id ==> r.size == t.active[id].start)
  {
    var e, id := Received([], Eof, 0, now), v.s.up.stream.target.value;
    var finish := FinishOf(v.s, [], now);
    NothingLinked(v, t, [], Eof, 0, now);
    assert OpsOf(v, e) == [finish] by {
      assert [] + [finish] == [finish];
    }
    StepDb(v, e);
    RunOne(v.db, finish);
    assert InTurn(t, v.db, finish);
    OneInTurn(t, v.db, finish);
    FinishAliveSizes(v.db, t, finish);
    assert UploadOk(v.db.rows, id, t.active[id]);
  }

  /** SIZE of a file answers with all bytes its uploads have received. */
  lemma SizeAnswers(w: World, t: Track, arg: string, env: Env)
    requires SizesOk(w.db, t) && w.s.login.ok
    requires Lookup(w.db.rows, w.s.login.userid, SizeTarget(arg).name, SizeTarget(arg).path).Some?
    ensures var o := Lookup(w.db.rows, w.s.login.userid, SizeTarget(arg).name, SizeTarget(arg).path).value;
            var answer := Step(w, Command(SIZE, arg, env)).s.control.replies;
            answer.Then? && answer.last.code == 213 &&
            IsDecimal(answer.last.text) && ParseDecimal(answer.last.text) == Total(Sizes.Past(t, o.id))
  {
    var o := Lookup(w.db.rows, w.s.login.userid, SizeTarget(arg).name, SizeTarget(arg).path).value;
    LookupFacts(w.db.rows, w.s.login.userid, SizeTarget(arg).name, SizeTarget(arg).path);
    assert RowOk(w.db, t, o);
    DecimalRoundTrip(o.size);
  }
}
