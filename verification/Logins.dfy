/** For whom a session acts (src/ftp/base_session.cpp:108-162): USER and PASS over whole runs. */
module Logins {
  import opened FsTable
  import opened SessionSpec
  import Users
  import Navigation

  /** A PASS that is answered 230. */
  predicate PassAccepted(w: World, e: Event) {
    e.Command? && e.verb == PASS && w.s.login.userid != "" && Users.CheckPassword(w.users, w.s.login.userid, e.arg)
  }

  /** A USER that is answered 331. */
  predicate UserAccepted(w: World, e: Event) {
    e.Command? && e.verb == USER && e.arg != "" && Users.IdByName(w.users, e.arg) != ""
  }

  /** Nothing but these two changes the login. */
  lemma StepLogin(w: World, e: Event)
    ensures var l := Step(w, e).s.login;
            && l.ok == (w.s.login.ok || PassAccepted(w, e))
            && l.userid == (if UserAccepted(w, e) then Users.IdByName(w.users, e.arg) else w.s.login.userid)
            && l.username == (if UserAccepted(w, e) then e.arg else w.s.login.username)
            && Step(w, e).users == w.users
  {
    if e.Command? {
      CommandLogin(Taken(w), e.verb, e.arg, e.env);
    } else {
      CallbackLogin(w, e);
    }
  }

  predicate SameLogin(w: World, v: World) {
    v.s.login == w.s.login && v.users == w.users
  }

  lemma CallbackLogin(w: World, e: Event)
    requires !e.Command?
    ensures SameLogin(w, Step(w, e))
  {
  }

  lemma CommandLogin(w: World, verb: Verb, arg: string, env: Env)
    ensures var v, e := HandleCommand(w, verb, arg, env), Command(verb, arg, env);
            && v.s.login.ok == (w.s.login.ok || PassAccepted(w, e))
            && v.s.login.userid == (if UserAccepted(w, e) then Users.IdByName(w.users, arg) else w.s.login.userid)
            && v.s.login.username == (if UserAccepted(w, e) then arg else w.s.login.username)
            && v.users == w.users
  {
    if NeedsNoLogin(verb) {
      OpenLogin(w, verb, arg, env);
    } else if w.s.login.ok {
      RunLogin(w, verb, arg, env);
    }
  }

  lemma OpenLogin(w: World, verb: Verb, arg: string, env: Env)
    requires NeedsNoLogin(verb)
    ensures var v, e := RunOpen(w, verb, arg), Command(verb, arg, env);
            && v.s.login.ok == (w.s.login.ok || PassAccepted(w, e))
            && v.s.login.userid == (if UserAccepted(w, e) then Users.IdByName(w.users, arg) else w.s.login.userid)
            && v.s.login.username == (if UserAccepted(w, e) then arg else w.s.login.username)
            && v.users == w.users
  {
  }

  lemma RunLogin(w: World, verb: Verb, arg: string, env: Env)
    requires !NeedsNoLogin(verb)
    ensures SameLogin(w, RunCommand(w, verb, arg, env))
  {
    if verb == RETR {
      RetrLogin(w, arg, Navigation.RetrTarget(w.s.workingDirectory, arg), env);
    } else if verb == STOR {
      StorLogin(w, arg, Navigation.StorFile(w.s.workingDirectory, arg), env);
    } else {
      OtherLogin(w, verb, arg, env);
    }
  }

  lemma RetrLogin(w: World, arg: string, at: Navigation.Target, env: Env)
    ensures SameLogin(w, RunRetr(ParseRetr(w, arg, at), env.opens))
  {
    var p := ParseRetr(w, arg, at);
    assert SameLogin(w, p);
    SendLogin(p, env.opens);
  }

  lemma SendLogin(w: World, opens: bool)
    ensures SameLogin(w, RunRetr(w, opens))
  {
  }

  lemma StorLogin(w: World, arg: string, file: string, env: Env)
    ensures SameLogin(w, RunStor(w, arg, file, env))
  {
    BeginLogin(w.(s := w.s.(pending := w.s.pending.(write := file))), env);
  }

  lemma BeginLogin(w: World, env: Env)
    ensures SameLogin(w, BeginStor(w, env))
  {
  }

  lemma OtherLogin(w: World, verb: Verb, arg: string, env: Env)
    requires !NeedsNoLogin(verb) && verb != RETR && verb != STOR
    ensures SameLogin(w, RunCommand(w, verb, arg, env))
  {
  }

  // ----- over runs -----

  /** Whose password was accepted last. */
  function Vouched(w: World, es: seq<Event>): Option<string> {
    if es == [] then None
    else
      var before, e := es[..|es| - 1], es[|es| - 1];
      var u := Steps(w, before);
      if PassAccepted(u, e) then Some(u.s.login.userid) else Vouched(w, before)
  }

  /** Whom the latest accepted USER since then named, if there was one. */
  function Renamed(w: World, es: seq<Event>): Option<string> {
    if es == [] then None
    else
      var before, e := es[..|es| - 1], es[|es| - 1];
      var u := Steps(w, before);
      if PassAccepted(u, e) then None
      else if UserAccepted(u, e) then Some(Users.IdByName(w.users, e.arg))
      else Renamed(w, before)
  }

  lemma {:induction false} StepsSnoc(w: World, es: seq<Event>, e: Event)
    ensures Steps(w, es + [e]) == Step(Steps(w, es), e)
    decreases |es|
  {
    if es == [] {
      assert es + [e] == [e] && [e][1..] == [];
    } else {
      assert (es + [e])[0] == es[0] && (es + [e])[1..] == es[1..] + [e];
      StepsSnoc(Step(w, es[0]), es[1..], e);
    }
  }

  lemma {:induction false} RunLogins(w: World, es: seq<Event>)
    requires !w.s.login.ok
    ensures var v := Steps(w, es);
            && v.users == w.users
            && (v.s.login.ok <==> Vouched(w, es).Some?)
            && (v.s.login.ok ==>
                  v.s.login.userid == if Renamed(w, es).Some? then Renamed(w, es).value else Vouched(w, es).value)
    decreases |es|
  {
    if es != [] {
      var before, e := es[..|es| - 1], es[|es| - 1];
      assert es == before + [e];
      RunLogins(w, before);
      StepsSnoc(w, before, e);
      StepLogin(Steps(w, before), e);
    }
  }

  /** A session is logged in exactly when some password was accepted; and it then acts for the
      user whose password was accepted last exactly when no accepted USER since has named
      somebody else. */
  lemma ActsForVouched(w: World, es: seq<Event>)
    requires w.s == NEW_SESSION
    ensures var v := Steps(w, es);
            && (v.s.login.ok <==> Vouched(w, es).Some?)
            && (v.s.login.ok ==>
                  (v.s.login.userid == Vouched(w, es).value <==>
                   Renamed(w, es).None? || Renamed(w, es).value == Vouched(w, es).value))
  {
    RunLogins(w, es);
  }

  /** The condition is needed: USER a, PASS, USER b, and the session acts for b. */
  lemma ActsUnvouched(w: World, a: string, password: string, b: string, env: Env)
    requires w.s == NEW_SESSION && a != "" && b != ""
    requires var ida := Users.IdByName(w.users, a); ida != "" && Users.CheckPassword(w.users, ida, password)
    requires Users.IdByName(w.users, b) !in {"", Users.IdByName(w.users, a)}
    ensures var es := [Command(USER, a, env), Command(PASS, password, env), Command(USER, b, env)];
            var v := Steps(w, es);
            && v.s.login.ok && v.s.login.userid == Users.IdByName(w.users, b)
            && Vouched(w, es) == Some(Users.IdByName(w.users, a))
  {
    var one, two, three := Command(USER, a, env), Command(PASS, password, env), Command(USER, b, env);
    var w1 := Step(w, one);
    var w2 := Step(w1, two);
    StepsSnoc(w, [], one);
    StepsSnoc(w, [one], two);
    StepsSnoc(w, [one, two], three);
    assert [] + [one] == [one] && [one] + [two] == [one, two] && [one, two] + [three] == [one, two, three];
    StepLogin(w, one);
    StepLogin(w1, two);
    StepLogin(w2, three);
    VouchedSnoc(w, [], one);
    VouchedSnoc(w, [one], two);
    VouchedSnoc(w, [one, two], three);
  }

  lemma VouchedSnoc(w: World, es: seq<Event>, e: Event)
    ensures Vouched(w, es + [e]) ==
            if PassAccepted(Steps(w, es), e) then Some(Steps(w, es).s.login.userid) else Vouched(w, es)
  {
    assert (es + [e])[..|es|] == es;
  }
}
