/** Why the discipline of module Transfers is needed: two runs that break it and end with two
    data operations in flight. Everything in them is what the handlers do. */
module Undisciplined {
  import opened Paths
  import opened FsTable
  import opened Navigation
  import opened SessionSpec
  import opened Transfers

  /** Logged in, with an empty table: no RETR finds anything. */
  predicate Bare(w: World) {
    && w.s.login.ok && w.db.rows == []
    && w.s.pending.list == "" && w.s.pending.write == "" && w.s.pending.id == ""
    && Absolute(w.s.workingDirectory)
    && w.s.data.recvOps == 0
  }

  lemma NothingThere(w: World, arg: string, at: Target)
    requires w.db.rows == []
    ensures Lookup(w.db.rows, w.s.login.userid, at.name, at.path).None?
  {
    LookupFacts(w.db.rows, w.s.login.userid, at.name, at.path);
  }

  /** A RETR that finds nothing: 550, then 150, and an accept is left waiting. */
  lemma FailedRetr(w: World, arg: string, env: Env)
    requires Bare(w) && arg != "" && !w.s.data.open
    ensures var v := Step(w, Command(RETR, arg, env));
            Bare(v) && v.backlog == w.backlog &&
            v.s.data == w.s.data.(accepts := w.s.data.accepts + 1) &&
            v.s.control.armed == Dec(w.s.control.armed) + 1
  {
    var at := RetrTarget(w.s.workingDirectory, arg);
    NothingThere(w, arg, at);
    FailedRetrAt(Taken(w), arg, at, env);
  }

  lemma FailedRetrAt(w: World, arg: string, at: Target, env: Env)
    requires Bare(w) && arg != "" && !w.s.data.open
    requires Lookup(w.db.rows, w.s.login.userid, at.name, at.path).None?
    ensures var v := RunRetr(ParseRetr(w, arg, at), env.opens);
            Bare(v) && v.backlog == w.backlog &&
            v.s.data == w.s.data.(accepts := w.s.data.accepts + 1) &&
            v.s.control.armed == w.s.control.armed + 1
  {
  }

  lemma AcceptedIdle(w: World, env: Env)
    requires Bare(w)
    ensures var v := Step(w, Accepted(env));
            Bare(v) && v.backlog == Dec(w.backlog) && v.s.control == w.s.control &&
            v.s.data == w.s.data.(accepts := Dec(w.s.data.accepts), open := true)
  {
  }

  lemma LateList(w: World, arg: string, env: Env)
    requires Bare(w) && w.s.data.open
    ensures var v := Step(w, Command(LIST, arg, env));
            v.s.pending.list != "" && v.backlog == w.backlog &&
            v.s.data == w.s.data.(listOps := w.s.data.listOps + 1) && v.s.down == w.s.down
  {
  }

  /** Two failed RETRs leave two accepts. The client gives its first connection up and opens
      a second, which is accepted while LIST already runs over the first. */
  lemma AbandonedConnection(w: World, arg: string, env: Env)
    requires Bare(w) && arg != "" && w.s.control.armed > 0 && w.backlog == 0
    requires w.s.data == Data(false, 0, 0, 0, 0)
    ensures var retr := Command(RETR, arg, env);
            var run := [retr, retr, Connected, Accepted(env), Connected, Command(LIST, "", env), Accepted(env)];
            AllEnabled(w, run) && InFlight(Steps(w, run).s) == 2
  {
    var retr, list := Command(RETR, arg, env), Command(LIST, "", env);
    var w1 := Step(w, retr);
    var w2 := Step(w1, retr);
    FailedRetr(w, arg, env);
    FailedRetr(w1, arg, env);
    var w3 := Step(w2, Connected);
    var w4 := Step(w3, Accepted(env));
    AcceptedIdle(w3, env);
    var w5 := Step(w4, Connected);
    var w6 := Step(w5, list);
    LateList(w5, "", env);
    TwoEnabled(w5, list, Accepted(env));
    FourEnabled(w3, Accepted(env), Connected, list, Accepted(env));
    SevenEnabled(w, retr, retr, Connected, Accepted(env), Connected, list, Accepted(env));
    SevenSteps(w, retr, retr, Connected, Accepted(env), Connected, list, Accepted(env));
  }

  lemma SevenEnabled(w: World, a: Event, b: Event, c: Event, d: Event, e: Event, f: Event, g: Event)
    requires var w1 := Step(w, a); var w2 := Step(w1, b); var w3 := Step(w2, c);
             Enabled(w, a) && Enabled(w1, b) && Enabled(w2, c) && AllEnabled(w3, [d, e, f, g])
    ensures AllEnabled(w, [a, b, c, d, e, f, g])
  {
    var w1 := Step(w, a);
    EnabledCons(Step(w1, b), c, [d, e, f, g]);
    EnabledCons(w1, b, [c, d, e, f, g]);
    EnabledCons(w, a, [b, c, d, e, f, g]);
  }

  lemma FourEnabled(w: World, a: Event, b: Event, c: Event, d: Event)
    requires var w1 := Step(w, a); var w2 := Step(w1, b);
             Enabled(w, a) && Enabled(w1, b) && AllEnabled(w2, [c, d])
    ensures AllEnabled(w, [a, b, c, d])
  {
    EnabledCons(Step(w, a), b, [c, d]);
    EnabledCons(w, a, [b, c, d]);
  }

  lemma TwoEnabled(w: World, a: Event, b: Event)
    requires Enabled(w, a) && Enabled(Step(w, a), b)
    ensures AllEnabled(w, [a, b])
  {
    EnabledCons(Step(w, a), b, []);
    assert [b] + [] == [b];
    EnabledCons(w, a, [b]);
  }

  lemma EnabledCons(w: World, e: Event, rest: seq<Event>)
    requires Enabled(w, e) && AllEnabled(Step(w, e), rest)
    ensures AllEnabled(w, [e] + rest)
  {
    assert ([e] + rest)[1..] == rest;
  }

  lemma SevenSteps(w: World, a: Event, b: Event, c: Event, d: Event, e: Event, f: Event, g: Event)
    ensures Steps(w, [a, b, c, d, e, f, g]) == Step(Step(Step(Step(Step(Step(Step(w, a), b), c), d), e), f), g)
  {
    StepsCons(w, a, [b, c, d, e, f, g]);
    var w1 := Step(w, a);
    StepsCons(w1, b, [c, d, e, f, g]);
    var w2 := Step(w1, b);
    StepsCons(w2, c, [d, e, f, g]);
    var w3 := Step(w2, c);
    StepsCons(w3, d, [e, f, g]);
    var w4 := Step(w3, d);
    FourSteps(w3, d, e, f, g);
  }

  lemma FourSteps(w: World, a: Event, b: Event, c: Event, d: Event)
    ensures Steps(w, [a, b, c, d]) == Step(Step(Step(Step(w, a), b), c), d)
  {
    StepsCons(w, a, [b, c, d]);
    StepsCons(Step(w, a), b, [c, d]);
    StepsCons(Step(Step(w, a), b), c, [d]);
    StepsCons(Step(Step(Step(w, a), b), c), d, []);
    assert [d] + [] == [d];
  }

  lemma StepsCons(w: World, e: Event, rest: seq<Event>)
    ensures Steps(w, [e] + rest) == Steps(Step(w, e), rest)
  {
    assert ([e] + rest)[1..] == rest;
  }

  /** Where the platform opens the directory "data/" as a file, any late RETR that finds nothing
      starts sending from it; the 550 tells the client it may go on, and its LIST comes second. */
  lemma DirectoryOpened(x: System, e: Event, env: Env)
    requires Safe(x) && !x.waiting && OpensDirectory(x, e)
    ensures var y, list := Advance(x, e), Command(LIST, "", env);
            && Keeps54(x, e) && Keeps54(y, list)
            && InFlight(Advance(y, list).w.s) == 2
  {
    var w := Taken(x.w);
    var at := RetrTarget(w.s.workingDirectory, e.arg);
    DirectoryIsUnsafe(x, e);
    RetrParsed(w, e.arg, at);
    assert Finds(w, e.arg, at) == Finds(x.w, e.arg, at);
    RetrIsAnswered(ParseRetr(w, e.arg, at));
    ListOnTop(Advance(x, e).w, env);
  }

  lemma RetrIsAnswered(p: World)
    requires p.s.data.open
    ensures var v := RunRetr(p, true).s;
            Finals(v) == Finals(p.s) && v.login == p.s.login && (p.s.pending.id == "" ==> v.data.open)
  {
    Said(p.s, 150, "Opening connection.");
  }

  lemma ListOnTop(w: World, env: Env)
    requires w.s.login.ok && w.s.data.open && w.s.pending.list == ""
    ensures InFlight(Step(w, Command(LIST, "", env)).s) == InFlight(w.s) + 1
  {
  }
}
