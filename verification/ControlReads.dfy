/** How many reads of the control connection a command leaves waiting
    (src/ftp/base_session.cpp:88-544). Nothing but a command's handler starts one, so a session
    without any never hears its client again. */
module ControlReads {
  import opened FsTable
  import opened Navigation
  import opened SessionSpec

  /** The handler returns without reading on: QUIT and an empty line, SIZE in all cases, a LIST
      or STOR while one is pending, and a STOR whose parent is not there. */
  predicate Deafens(w: World, verb: Verb, arg: string) {
    || verb == NOTHING || verb == QUIT
    || (w.s.login.ok &&
        (|| verb == SIZE
         || (verb == LIST && w.s.pending.list != "")
         || (verb == STOR && arg != "" &&
             (w.s.pending.write != "" || StorParentMissing(w, StorFile(w.s.workingDirectory, arg))))))
  }

  /** RETR without an argument is answered 501, reads on, runs all the same, and reads on again. */
  predicate ReadsTwice(w: World, verb: Verb, arg: string) {
    w.s.login.ok && verb == RETR && arg == ""
  }

  function NewReads(w: World, verb: Verb, arg: string): nat {
    if Deafens(w, verb, arg) then 0 else if ReadsTwice(w, verb, arg) then 2 else 1
  }

  lemma OpenReads(w: World, verb: Verb, arg: string)
    requires NeedsNoLogin(verb)
    ensures RunOpen(w, verb, arg).s.control.armed ==
            if verb == QUIT then 0 else w.s.control.armed + NewReads(w, verb, arg)
  {
  }

  lemma StorReads(w: World, arg: string, env: Env)
    requires w.s.login.ok
    ensures RunCommand(w, STOR, arg, env).s.control.armed == w.s.control.armed + NewReads(w, STOR, arg)
  {
    var file := StorFile(w.s.workingDirectory, arg);
    BeginReads(w.(s := w.s.(pending := w.s.pending.(write := file))), env);
  }

  lemma BeginReads(w: World, env: Env)
    ensures BeginStor(w, env).s.control.armed == w.s.control.armed + 1
  {
  }

  lemma RetrReads(w: World, arg: string, env: Env)
    requires w.s.login.ok
    ensures RunCommand(w, RETR, arg, env).s.control.armed == w.s.control.armed + NewReads(w, RETR, arg)
  {
    var p := ParseRetr(w, arg, RetrTarget(w.s.workingDirectory, arg));
    assert p.s.control.armed == w.s.control.armed + if arg == "" then 1 else 0;
    SendReads(p, env.opens);
  }

  lemma SendReads(w: World, opens: bool)
    ensures RunRetr(w, opens).s.control.armed == w.s.control.armed + 1
  {
  }

  lemma ListReads(w: World, arg: string, env: Env)
    requires w.s.login.ok
    ensures RunCommand(w, LIST, arg, env).s.control.armed == w.s.control.armed + NewReads(w, LIST, arg)
  {
  }

  lemma ChangeReads(w: World, verb: Verb, arg: string, env: Env)
    requires verb == MKD || verb == RMD || verb == DELE
    ensures RunCommand(w, verb, arg, env).s.control.armed == w.s.control.armed + 1
  {
  }

  lemma AnswerReads(w: World, verb: Verb, arg: string, env: Env)
    requires !NeedsNoLogin(verb) && verb !in {LIST, STOR, RETR, MKD, RMD, DELE}
    ensures RunCommand(w, verb, arg, env).s.control.armed == w.s.control.armed + if verb == SIZE then 0 else 1
  {
  }

  lemma OtherReads(w: World, verb: Verb, arg: string, env: Env)
    requires w.s.login.ok && !NeedsNoLogin(verb) && verb != STOR && verb != RETR
    ensures RunCommand(w, verb, arg, env).s.control.armed == w.s.control.armed + NewReads(w, verb, arg)
  {
    if verb == LIST {
      ListReads(w, arg, env);
    } else if verb == MKD || verb == RMD || verb == DELE {
      ChangeReads(w, verb, arg, env);
    } else {
      AnswerReads(w, verb, arg, env);
    }
  }

  /** The exact number of reads after a command. QUIT ends those still waiting. */
  lemma CommandReads(w: World, verb: Verb, arg: string, env: Env)
    requires w.s.control.armed > 0
    ensures Step(w, Command(verb, arg, env)).s.control.armed ==
            if verb == QUIT then 0 else w.s.control.armed - 1 + NewReads(w, verb, arg)
  {
    if NeedsNoLogin(verb) {
      OpenReads(Taken(w), verb, arg);
    } else if w.s.login.ok {
      if verb == STOR {
        StorReads(Taken(w), arg, env);
      } else if verb == RETR {
        RetrReads(Taken(w), arg, env);
      } else {
        OtherReads(Taken(w), verb, arg, env);
      }
    }
  }

  /** No callback of the data connection starts or ends one. */
  lemma CallbackReads(w: World, e: Event)
    requires !e.Command?
    ensures Step(w, e).s.control.armed == w.s.control.armed
  {
    if e.Received? {
      ReceivedReads(w, e.bytes, e.outcome, e.written, e.now);
    }
  }

  lemma ReceivedReads(w: World, bytes: seq<Byte>, outcome: Outcome, written: nat, now: string)
    ensures ReceiveStep(w, bytes, outcome, written, now).s.control.armed == w.s.control.armed
  {
  }

  /** No command comes. */
  predicate Silent(es: seq<Event>) {
    forall e :: e in es ==> !e.Command?
  }

  /** Without a read waiting no command is ever handled again, whatever else happens. */
  lemma {:induction false} StaysDeaf(w: World, es: seq<Event>)
    requires w.s.control.armed == 0 && AllEnabled(w, es)
    ensures Silent(es)
    ensures Steps(w, es).s.control.armed == 0
    decreases |es|
  {
    if es != [] {
      CallbackReads(w, es[0]);
      StaysDeaf(Step(w, es[0]), es[1..]);
    }
  }

  /** So with one read waiting, the command it brings is the session's last exactly when its
      handler does not read on. */
  lemma LastCommand(w: World, verb: Verb, arg: string, env: Env)
    requires w.s.control.armed == 1
    ensures var v := Step(w, Command(verb, arg, env));
            (forall es :: AllEnabled(v, es) ==> Silent(es)) <==> Deafens(w, verb, arg)
  {
    var v := Step(w, Command(verb, arg, env));
    CommandReads(w, verb, arg, env);
    if Deafens(w, verb, arg) {
      forall es | AllEnabled(v, es)
        ensures Silent(es)
      {
        StaysDeaf(v, es);
      }
    } else {
      var next := Command(NOTHING, "", env);
      assert [next][1..] == [] && AllEnabled(v, [next]);
      assert next in [next] && !Silent([next]);
    }
  }
}
