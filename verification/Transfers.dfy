/** Safety of transfers over every interleaving of a plain session's handlers, for a client
    that keeps to section 5.4 of RFC 959: it asks for the next transfer when the previous one
    is answered, and has one data connection at a time. */
module Transfers {
  import opened Helpers
  import opened Paths
  import opened FsTable
  import opened FsRuns
  import opened Navigation
  import opened SessionSpec

  /** The session with its client. `waiting`: a transfer is asked for and not answered.
      `started` and `lost` count data operations begun and listings that died on an error. */
  datatype System = System(w: World, waiting: bool, started: nat, lost: nat)

  predicate IsTransfer(v: Verb) {
    v == LIST || v == STOR || v == RETR
  }

  function CountIn(log: Log, low: nat, high: nat): nat {
    match log
    case Empty => 0
    case Then(earlier, last) => CountIn(earlier, low, high) + (if low <= last.code <= high then 1 else 0)
  }

  /** How many transfers were reported complete. */
  function Completions(s: Session): nat {
    CountIn(s.control.replies, 226, 226)
  }

  /** How many final replies were sent: those that end an exchange, unlike 150. */
  function Finals(s: Session): nat {
    CountIn(s.control.replies, 200, 599)
  }

  function InFlight(s: Session): nat {
    s.data.listOps + s.data.recvOps + s.data.sendOps
  }

  function Advance(x: System, e: Event): System {
    var w := Step(x.w, e);
    var waiting :=
      if e.Command? && IsTransfer(e.verb) then Finals(w.s) == Finals(x.w.s)
      else x.waiting && Completions(w.s) == Completions(x.w.s);
    System(w, waiting,
           x.started + (if InFlight(w.s) > InFlight(x.w.s) then 1 else 0),
           x.lost + (if e == Listed(false) then 1 else 0))
  }

  /** Whether RETR would find an object. */
  predicate Finds(w: World, arg: string, at: Target) {
    arg != "" && Lookup(w.db.rows, w.s.login.userid, at.name, at.path).Some?
  }

  /** What the client keeps to. */
  predicate Keeps54(x: System, e: Event) {
    match e
    case Command(verb, _, _) => IsTransfer(verb) ==> !x.waiting
    case Connected => !x.w.s.data.open && x.w.backlog == 0
    case _ => true
  }

  /** A RETR that names no object, over a connection that is already there, opens "data/"
      itself, where the platform lets a directory be opened as a file. */
  predicate OpensDirectory(x: System, e: Event) {
    && e.Command? && e.verb == RETR && x.w.s.login.ok && x.w.s.data.open && e.env.opens
    && !Finds(x.w, e.arg, RetrTarget(x.w.s.workingDirectory, e.arg))
  }

  predicate Disciplined(x: System, e: Event) {
    Keeps54(x, e) && !OpensDirectory(x, e)
  }

  predicate NoPending(s: Session) {
    s.pending.list == "" && s.pending.write == "" && s.pending.id == ""
  }

  predicate AtMostOnePending(s: Session) {
    && (s.pending.list == "" || s.pending.write == "")
    && (s.pending.list == "" || s.pending.id == "")
    && (s.pending.write == "" || s.pending.id == "")
  }

  /** Every operation in flight has its socket, its pending field and its open stream. */
  predicate Backed(s: Session) {
    && InFlight(s) <= 1
    && (InFlight(s) == 1 ==> s.data.open)
    && (s.data.listOps == 1 ==> s.pending.list != "")
    && (s.data.recvOps == 1 ==> s.pending.write != "" && s.up.stream.Recv? && s.up.stream.target.Some?)
    && (s.data.sendOps == 1 ==>
          s.pending.id != "" && s.down.stream.Send? && !s.down.stream.broken &&
          s.down.stream.pos <= |s.down.stream.content|)
  }

  predicate Safe(x: System) {
    var s := x.w.s;
    && !s.fault
    && Absolute(s.workingDirectory)
    && AtMostOnePending(s)
    && Backed(s)
    && (if s.data.open then 1 else 0) + x.w.backlog <= 1
    && (!x.waiting ==> NoPending(s))
    && Completions(s) + InFlight(s) + x.lost == x.started
  }

  // ----- replies are only ever added -----

  /** The counts after one reply. */
  lemma Said(s: Session, code: nat, text: string)
    ensures var after := Say(s, code, text);
            && Completions(after) == Completions(s) + (if code == 226 then 1 else 0)
            && Finals(after) == Finals(s) + (if 200 <= code <= 599 then 1 else 0)
  {
  }

  // ----- commands that are no transfers -----

  /** Only what a command other than a transfer may change has changed. */
  predicate Aside(s: Session, t: Session) {
    && Completions(t) == Completions(s)
    && t.pending.list == s.pending.list && t.pending.write == s.pending.write && t.pending.id == s.pending.id
    && t.data.open == s.data.open && t.up.stream == s.up.stream && t.down.stream == s.down.stream
    && t.data.listOps == s.data.listOps && t.data.recvOps == s.data.recvOps && t.data.sendOps == s.data.sendOps
    && t.fault == s.fault
    && (Absolute(s.workingDirectory) ==> Absolute(t.workingDirectory))
  }

  lemma AnsweredAside(s: Session, t: Session, code: nat, text: string)
    requires Aside(s, t) && code != 226
    ensures Aside(s, Answer(t, code, text)) && Aside(s, Say(t, code, text)) && Aside(s, Arm(t))
  {
    Said(t, code, text);
  }

  lemma CwdStaysAbsolute(rows: Rows, user: string, wd: string, arg: string)
    requires Absolute(wd)
    ensures var r := ChangeDirectory(rows, user, wd, arg);
            r.Some? ==> Absolute(r.value)
  {
    var base, segs := Base(wd, arg), Segments(arg);
    if segs != [] {
      WalkedIsAbsolute(base, segs[..|segs| - 1]);
    }
  }

  lemma OtherCommandAside(w: World, verb: Verb, arg: string, env: Env)
    requires !IsTransfer(verb)
    ensures Aside(w.s, HandleCommand(w, verb, arg, env).s)
    ensures HandleCommand(w, verb, arg, env).backlog == w.backlog
  {
    if NeedsNoLogin(verb) {
      OpenAside(w, verb, arg);
    } else {
      AnsweredAside(w.s, w.s, 530, "Not logged in.");
      LoggedInAside(w, verb, arg, env);
    }
  }

  lemma OpenAside(w: World, verb: Verb, arg: string)
    requires NeedsNoLogin(verb)
    ensures Aside(w.s, RunOpen(w, verb, arg).s)
    ensures RunOpen(w, verb, arg).backlog == w.backlog
  {
    var s := w.s;
    if verb == UNSUPPORTED {
      AnsweredAside(s, s, 502, "Command not implemented.");
    } else if verb == USER {
      UserAside(w, arg);
    } else if verb == PASS {
      PassAside(w, arg);
    } else if verb == SYST {
      AnsweredAside(s, s, 215, "UNIX Type: L8");
    } else if verb == QUIT {
      AnsweredAside(s, s, 221, "Closing control connection.");
    }
  }

  lemma LoggedInAside(w: World, verb: Verb, arg: string, env: Env)
    requires !IsTransfer(verb)
    ensures Aside(w.s, RunCommand(w, verb, arg, env).s)
    ensures RunCommand(w, verb, arg, env).backlog == w.backlog
  {
    if verb == MKD || verb == RMD || verb == DELE {
      ChangeAside(w, verb, arg, env);
    } else if verb == CWD || verb == CDUP || verb == SIZE {
      BrowseAside(w, verb, arg, env);
    } else {
      AnswerAside(w, verb, arg, env);
    }
  }

  lemma AnswerAside(w: World, verb: Verb, arg: string, env: Env)
    requires !IsTransfer(verb) && verb !in {MKD, RMD, DELE, CWD, CDUP, SIZE}
    ensures Aside(w.s, RunCommand(w, verb, arg, env).s)
    ensures RunCommand(w, verb, arg, env).backlog == w.backlog
  {
    FixedAside(w, verb, arg);
    AsideOfItself(w.s);
  }

  lemma AsideOfItself(s: Session)
    ensures Aside(s, s)
  {
  }

  lemma ChangeAside(w: World, verb: Verb, arg: string, env: Env)
    requires verb == MKD || verb == RMD || verb == DELE
    ensures Aside(w.s, RunCommand(w, verb, arg, env).s)
    ensures RunCommand(w, verb, arg, env).backlog == w.backlog
  {
    if verb == MKD {
      MkdAside(w, arg, env);
    } else if verb == RMD {
      RmdAside(w, arg, env);
    } else {
      DeleAside(w, arg, env);
    }
  }

  lemma MkdAside(w: World, arg: string, env: Env)
    ensures Aside(w.s, RunCommand(w, MKD, arg, env).s) && RunCommand(w, MKD, arg, env).backlog == w.backlog
  {
    CreateAside(w, arg, MakeDirectoryAt(w, MkdTarget(w.s.workingDirectory, arg), env));
  }

  lemma RmdAside(w: World, arg: string, env: Env)
    ensures Aside(w.s, RunCommand(w, RMD, arg, env).s) && RunCommand(w, RMD, arg, env).backlog == w.backlog
  {
    RemoveAside(w, arg, RmdTarget(w.s.workingDirectory, arg));
  }

  lemma DeleAside(w: World, arg: string, env: Env)
    ensures Aside(w.s, RunCommand(w, DELE, arg, env).s) && RunCommand(w, DELE, arg, env).backlog == w.backlog
  {
    RemoveAside(w, arg, MkdTarget(w.s.workingDirectory, arg));
  }

  lemma BrowseAside(w: World, verb: Verb, arg: string, env: Env)
    requires verb == CWD || verb == CDUP || verb == SIZE
    ensures Aside(w.s, RunCommand(w, verb, arg, env).s)
    ensures RunCommand(w, verb, arg, env).backlog == w.backlog
  {
    if verb == CWD {
      CwdAside(w, arg);
    } else if verb == CDUP {
      AnsweredAside(w.s, w.s.(workingDirectory := ParentPath(w.s.workingDirectory)), 250, "Okay.");
    } else {
      SizeAside(w, Lookup(w.db.rows, w.s.login.userid, Basename(arg), ParentPath(arg)));
    }
  }

  lemma UserAside(w: World, arg: string)
    ensures Aside(w.s, RunUser(w, arg))
  {
    var s, uid := w.s, Users.IdByName(w.users, arg);
    AnsweredAside(s, s, 530, "Invalid username.");
    AnsweredAside(s, s.(login := s.login.(userid := uid, username := arg)), 331, "Username okay, password needed.");
  }

  lemma PassAside(w: World, arg: string)
    ensures Aside(w.s, RunPass(w, arg))
  {
    var s := w.s;
    AnsweredAside(s, s, 530, "User not found.");
    AnsweredAside(s, s.(login := s.login.(ok := true)), 230, "Logged in.");
    AnsweredAside(s, s, 530, "Wrong password.");
  }

  lemma CwdAside(w: World, arg: string)
    ensures Aside(w.s, RunCwd(w, arg, ChangeDirectory(w.db.rows, w.s.login.userid, w.s.workingDirectory, arg)))
  {
    var s, r := w.s, ChangeDirectory(w.db.rows, w.s.login.userid, w.s.workingDirectory, arg);
    AnsweredAside(s, s, 501, "No arguments presented.");
    AnsweredAside(s, s, 550, "No such file or directory.");
    if Absolute(s.workingDirectory) {
      CwdStaysAbsolute(w.db.rows, s.login.userid, s.workingDirectory, arg);
    }
    if r.Some? {
      AnsweredAside(s, s.(workingDirectory := r.value), 250, "Changed working directory.");
    }
  }

  lemma SizeAside(w: World, found: Option<Row>)
    ensures Aside(w.s, RunSize(w, found))
  {
    AnsweredAside(w.s, w.s, 550, "File unavailable.");
    if found.Some? {
      AnsweredAside(w.s, w.s, 213, Decimal(found.value.size));
    }
  }

  lemma CreateAside(w: World, arg: string, made: (Rows, string))
    ensures Aside(w.s, RunMkd(w, arg, made).s) && RunMkd(w, arg, made).backlog == w.backlog
  {
    AnsweredAside(w.s, w.s, 501, "No arguments presented.");
    AnsweredAside(w.s, w.s, 250, "Failed.");
    AnsweredAside(w.s, w.s, 250, "Directory created.");
  }

  lemma RemoveAside(w: World, arg: string, at: Target)
    ensures Aside(w.s, RunRemove(w, arg, at).s) && RunRemove(w, arg, at).backlog == w.backlog
  {
    AnsweredAside(w.s, w.s, 501, "No arguments presented.");
    AnsweredAside(w.s, w.s, 250, "Deleted.");
  }

  lemma FixedAside(w: World, verb: Verb, arg: string)
    ensures var r := FixedAnswer(w, verb, arg);
            r.Some? ==> Aside(w.s, r.value)
  {
    var s := w.s;
    AnsweredAside(s, s, 257, "\"" + s.workingDirectory + "\"");
    AnsweredAside(s, s, 200, "OK.");
    AnsweredAside(s, s, 227, Wire.PasvText(w.address, w.port));
    AnsweredAside(s, s, 211, "End");
    AnsweredAside(s, s, 200, "Enabled UTF-8 encoding.");
  }

  lemma OtherCommandSafe(x: System, verb: Verb, arg: string, env: Env)
    requires Safe(x) && !IsTransfer(verb)
    ensures Safe(Advance(x, Command(verb, arg, env)))
  {
    var w := Taken(x.w);
    assert Completions(w.s) == Completions(x.w.s);
    OtherCommandAside(w, verb, arg, env);
  }

  // ----- transfers are asked for -----

  /** How starting an upload, a download or a listing ends: an operation in flight with its
      stream open, or the socket closed. */
  predicate Begun(s: Session, t: Session) {
    && Completions(t) == Completions(s) && Finals(t) == Finals(s)
    && t.pending.list == s.pending.list && t.pending.write == s.pending.write && t.pending.id == s.pending.id
    && t.fault == s.fault && t.workingDirectory == s.workingDirectory
    && (|| (t.data.open == s.data.open && InFlight(t) == InFlight(s) + 1 && t.data.listOps >= s.data.listOps &&
            t.data.recvOps >= s.data.recvOps && t.data.sendOps >= s.data.sendOps)
        || (!t.data.open && t.data.listOps == s.data.listOps && t.data.recvOps == s.data.recvOps &&
            t.data.sendOps == s.data.sendOps))
  }

  lemma StartReceiveBegins(w: World, env: Env)
    ensures var v := StartReceive(w, env);
            && Begun(w.s, v.s) && v.backlog == w.backlog
            && v.s.data.listOps == w.s.data.listOps && v.s.data.sendOps == w.s.data.sendOps
            && (v.s.data.recvOps > w.s.data.recvOps ==> v.s.up.stream.Recv? && v.s.up.stream.target.Some?)
  {
    var name, path := Basename(w.s.pending.write), ParentPath(w.s.pending.write);
    var o := OpenUpload(w.db, w.s.login.userid, name, path, env.id, env.now, env.opens);
  }

  lemma StartSendBegins(w: World, opens: bool)
    requires w.s.pending.id == "" ==> !opens
    ensures var v := StartSend(w, opens);
            && Begun(w.s, v.s) && v.backlog == w.backlog
            && v.s.data.listOps == w.s.data.listOps && v.s.data.recvOps == w.s.data.recvOps
            && (v.s.data.sendOps > w.s.data.sendOps ==>
                  w.s.pending.id != "" && v.s.down.stream.Send? && !v.s.down.stream.broken &&
                  v.s.down.stream.pos <= |v.s.down.stream.content|)
  {
  }

  lemma SendListingBegins(w: World)
    ensures var v := SendListing(w);
            && Begun(w.s, v.s) && v.backlog == w.backlog && v.s.data.open == w.s.data.open
            && v.s.data.listOps == w.s.data.listOps + 1 && v.s.data.recvOps == w.s.data.recvOps &&
               v.s.data.sendOps == w.s.data.sendOps
  {
  }

  lemma ListSafe(x: System, arg: string, env: Env)
    requires Safe(x) && !x.waiting && x.w.s.login.ok
    ensures Safe(Advance(x, Command(LIST, arg, env)))
  {
    var w := Taken(x.w);
    var s := w.s.(pending := w.s.pending.(list := w.s.workingDirectory,
                                          listAll := w.s.pending.listAll || arg == "-la"));
    SendListingBegins(w.(s := Say(s, 150, "Opening connection.")));
  }

  lemma StorSafe(x: System, arg: string, env: Env)
    requires Safe(x) && !x.waiting && x.w.s.login.ok
    ensures Safe(Advance(x, Command(STOR, arg, env)))
  {
    StorIs(x.w, arg, env);
    if arg == "" {
      Said(Taken(x.w).s, 501, "No arguments presented.");
      StorRefused(x);
    } else {
      StorFileSafe(x, Taken(x.w), arg, StorFile(x.w.s.workingDirectory, arg), env);
    }
  }

  lemma StorIs(w: World, arg: string, env: Env)
    requires w.s.login.ok
    ensures var file := StorFile(w.s.workingDirectory, arg);
            Step(w, Command(STOR, arg, env)) ==
            if arg == "" then Taken(w).(s := Answer(Taken(w).s, 501, "No arguments presented."))
            else RunStor(Taken(w), arg, file, env)
  {
  }

  lemma StorRefused(x: System)
    requires Safe(x) && !x.waiting
    ensures var w := Taken(x.w).(s := Answer(Taken(x.w).s, 501, "No arguments presented."));
            Finals(w.s) > Finals(x.w.s) && InFlight(w.s) == InFlight(x.w.s) && Safe(System(w, false, x.started, x.lost))
  {
    Said(Taken(x.w).s, 501, "No arguments presented.");
  }

  lemma StorFileSafe(x: System, w: World, arg: string, file: string, env: Env)
    requires Safe(x) && !x.waiting && w == Taken(x.w) && arg != "" && file != ""
    ensures var after := RunStor(w, arg, file, env);
            Safe(System(after, Finals(after.s) == Finals(x.w.s),
                        x.started + (if InFlight(after.s) > InFlight(x.w.s) then 1 else 0), x.lost))
  {
    if !StorParentMissing(w, file) {
      StorGoesOn(x, w.(s := w.s.(pending := w.s.pending.(write := file))), env);
    }
  }

  lemma StorGoesOn(x: System, v: World, env: Env)
    requires Safe(x) && !x.waiting && v.s.pending.write != ""
    requires v == Taken(x.w).(s := Taken(x.w).s.(pending := x.w.s.pending.(write := v.s.pending.write)))
    ensures v.s.data.open ==>
              var late := StartReceive(v.(s := Say(v.s, 150, "Opening connection.")), env);
              && Finals(late.s) == Finals(x.w.s)
              && Safe(System(late.(s := Arm(late.s)), true,
                             x.started + (if InFlight(late.s) > InFlight(x.w.s) then 1 else 0), x.lost))
    ensures !v.s.data.open ==>
              && Finals(Answer(v.s, 150, "Waiting for connection")) == Finals(x.w.s)
              && Safe(System(v.(s := StartAccept(Answer(v.s, 150, "Waiting for connection"))), true, x.started, x.lost))
  {
    if v.s.data.open {
      Said(v.s, 150, "Opening connection.");
      var u := v.(s := Say(v.s, 150, "Opening connection."));
      StartReceiveBegins(u, env);
      BegunIsSafe(x, u, StartReceive(u, env));
    } else {
      Said(v.s, 150, "Waiting for connection");
    }
  }

  /** From a system with a transfer just asked for and nothing in flight. */
  lemma BegunIsSafe(x: System, u: World, v: World)
    requires Safe(x) && NoPending(x.w.s) && u.backlog == x.w.backlog == v.backlog
    requires Completions(u.s) == Completions(x.w.s) && InFlight(u.s) == 0 && InFlight(x.w.s) == 0
    requires !u.s.fault && Absolute(u.s.workingDirectory) && u.s.data.open == x.w.s.data.open
    requires u.s.pending.list == "" && u.s.pending.id == "" && u.s.pending.write != ""
    requires Begun(u.s, v.s) && v.s.data.listOps == 0 && v.s.data.sendOps == 0
    requires v.s.data.recvOps > 0 ==> v.s.up.stream.Recv? && v.s.up.stream.target.Some? && v.s.data.open
    ensures Safe(System(v.(s := Arm(v.s)), true, x.started + (if InFlight(v.s) > 0 then 1 else 0), x.lost))
  {
  }

  /** RETR first looks for the object; a refusal is still followed by the wait for a connection. */
  lemma RetrSafe(x: System, arg: string, env: Env)
    requires Safe(x) && !x.waiting && x.w.s.login.ok
    requires Disciplined(x, Command(RETR, arg, env))
    ensures Safe(Advance(x, Command(RETR, arg, env)))
  {
    var w := Taken(x.w);
    var at := RetrTarget(w.s.workingDirectory, arg);
    RetrParsed(w, arg, at);
    assert Finds(w, arg, at) == Finds(x.w, arg, at);
    RetrGoesOn(x, w, ParseRetr(w, arg, at), env);
  }

  lemma RetrGoesOn(x: System, w: World, p: World, env: Env)
    requires Safe(x) && !x.waiting && w == Taken(x.w)
    requires p.backlog == w.backlog && (p.s.pending.id == "" && w.s.data.open ==> !env.opens)
    requires Finals(p.s) == Finals(w.s) + (if p.s.pending.id == "" then 1 else 0)
    requires Aside(w.s.(pending := w.s.pending.(id := p.s.pending.id)), p.s) &&
             p.s.workingDirectory == w.s.workingDirectory
    ensures var after := RunRetr(p, env.opens);
            Safe(System(after, Finals(after.s) == Finals(x.w.s),
                        x.started + (if InFlight(after.s) > InFlight(x.w.s) then 1 else 0), x.lost))
  {
    Said(p.s, 150, "Opening connection.");
    Said(p.s, 150, "Waiting for connection");
    if p.s.data.open {
      StartSendBegins(p.(s := Say(p.s, 150, "Opening connection.")), env.opens);
    }
  }

  /** Looking for the object: found and remembered, or refused with a final reply. */
  lemma RetrParsed(w: World, arg: string, at: Target)
    requires w.s.pending.id == ""
    ensures var p := ParseRetr(w, arg, at);
            && p.backlog == w.backlog
            && (p.s.pending.id != "" <==> Finds(w, arg, at))
            && Finals(p.s) == Finals(w.s) + (if p.s.pending.id == "" then 1 else 0)
            && Aside(w.s.(pending := w.s.pending.(id := p.s.pending.id)), p.s) &&
               p.s.workingDirectory == w.s.workingDirectory
  {
    Said(w.s, 501, "No arguments presented.");
    Said(w.s, 550, "File unavailable.");
  }

  lemma TransferSafe(x: System, verb: Verb, arg: string, env: Env)
    requires Safe(x) && IsTransfer(verb) && Disciplined(x, Command(verb, arg, env))
    ensures Safe(Advance(x, Command(verb, arg, env)))
  {
    if !x.w.s.login.ok {
      Said(Taken(x.w).s, 530, "Not logged in.");
    } else if verb == LIST {
      ListSafe(x, arg, env);
    } else if verb == STOR {
      StorSafe(x, arg, env);
    } else {
      RetrSafe(x, arg, env);
    }
  }

  // ----- connections and callbacks -----

  lemma AcceptedSafe(x: System, env: Env)
    requires Safe(x) && Enabled(x.w, Accepted(env))
    ensures Safe(Advance(x, Accepted(env)))
  {
    var w1 := Connect(x.w);
    if w1.s.pending.list != "" {
      SendListingBegins(w1);
    } else if w1.s.pending.write != "" {
      StartReceiveBegins(w1, env);
    } else if w1.s.pending.id != "" {
      StartSendBegins(w1, env.opens);
    }
  }

  lemma ListedSafe(x: System, ok: bool)
    requires Safe(x) && Enabled(x.w, Listed(ok))
    ensures Safe(Advance(x, Listed(ok)))
  {
  }

  lemma ReceivedSafe(x: System, bytes: seq<Byte>, outcome: Outcome, written: nat, now: string)
    requires Safe(x) && Enabled(x.w, Received(bytes, outcome, written, now))
    ensures Safe(Advance(x, Received(bytes, outcome, written, now)))
  {
  }

  lemma DeliveredSafe(x: System, outcome: Outcome, count: nat)
    requires Safe(x) && Enabled(x.w, Delivered(outcome, count))
    ensures Safe(Advance(x, Delivered(outcome, count)))
  {
  }

  /** One step of a disciplined system is safe. */
  lemma AdvanceSafe(x: System, e: Event)
    requires Safe(x) && Enabled(x.w, e) && Disciplined(x, e)
    ensures Safe(Advance(x, e))
  {
    match e
    case Command(verb, arg, env) =>
      if IsTransfer(verb) {
        TransferSafe(x, verb, arg, env);
      } else {
        OtherCommandSafe(x, verb, arg, env);
      }
    case Connected =>
    case Accepted(env) => AcceptedSafe(x, env);
    case AcceptFailed =>
    case Listed(ok) => ListedSafe(x, ok);
    case Received(bytes, outcome, written, now) => ReceivedSafe(x, bytes, outcome, written, now);
    case Delivered(outcome, count) => DeliveredSafe(x, outcome, count);
    case Elsewhere(op) =>
  }

  // ----- the one way out of safety -----

  /** A RETR that opens the directory sends with nothing pending. */
  lemma DirectoryIsUnsafe(x: System, e: Event)
    requires Safe(x) && !x.waiting && OpensDirectory(x, e)
    ensures !Safe(Advance(x, e)) && InFlight(Advance(x, e).w.s) == 1 && NoPending(Advance(x, e).w.s)
  {
    var w := Taken(x.w);
    var at := RetrTarget(w.s.workingDirectory, e.arg);
    RetrParsed(w, e.arg, at);
    assert Finds(w, e.arg, at) == Finds(x.w, e.arg, at);
    DirectorySends(ParseRetr(w, e.arg, at));
  }

  lemma DirectorySends(p: World)
    requires p.s.pending.id == "" && p.s.data.open
    ensures var v := RunRetr(p, true).s;
            v.data.sendOps == p.s.data.sendOps + 1 && v.pending == p.s.pending &&
            v.data.listOps == p.s.data.listOps && v.data.recvOps == p.s.data.recvOps
  {
  }

  /** For a client that keeps to section 5.4 a step is safe exactly when it is not that one. */
  lemma StepIsSafe(x: System, e: Event)
    requires Safe(x) && Enabled(x.w, e) && Keeps54(x, e)
    ensures Safe(Advance(x, e)) <==> !OpensDirectory(x, e)
  {
    if OpensDirectory(x, e) {
      DirectoryIsUnsafe(x, e);
    } else {
      AdvanceSafe(x, e);
    }
  }

  // ----- runs -----

  function Fresh(db: Store, users: seq<Users.UserRow>, address: string, port: nat): System {
    System(World(NEW_SESSION, db, users, address, port, 0), false, 0, 0)
  }

  /** A run the network can produce and a client that keeps to section 5.4 can ask for. */
  predicate Kept(x: System, es: seq<Event>)
    decreases |es|
  {
    es == [] || (Enabled(x.w, es[0]) && Keeps54(x, es[0]) && Kept(Advance(x, es[0]), es[1..]))
  }

  predicate SafeThroughout(x: System, es: seq<Event>)
    decreases |es|
  {
    Safe(x) && (es == [] || SafeThroughout(Advance(x, es[0]), es[1..]))
  }

  predicate NeverOpensDirectory(x: System, es: seq<Event>)
    decreases |es|
  {
    es == [] || (!OpensDirectory(x, es[0]) && NeverOpensDirectory(Advance(x, es[0]), es[1..]))
  }

  lemma {:induction false} RunIsSafe(x: System, es: seq<Event>)
    requires Safe(x) && Kept(x, es)
    ensures SafeThroughout(x, es) <==> NeverOpensDirectory(x, es)
    decreases |es|
  {
    if es != [] {
      StepIsSafe(x, es[0]);
      if Safe(Advance(x, es[0])) {
        RunIsSafe(Advance(x, es[0]), es[1..]);
      }
    }
  }

  /** Along every run of a new session, commands and connections in either order, with accepts
      left over from failed RETRs, and whatever other sessions do to the database: at most
      one transfer pending, at most one operation in flight, no callback without its stream,
      and as many 226 replies as data operations started less the one in flight and the
      listings that failed; if and only if no RETR without an object ever opens "data/". */
  lemma EveryRunIsSafe(db: Store, users: seq<Users.UserRow>, address: string, port: nat, es: seq<Event>)
    requires Kept(Fresh(db, users, address, port), es)
    ensures var x := Fresh(db, users, address, port);
            SafeThroughout(x, es) <==> NeverOpensDirectory(x, es)
  {
    FreshIsSafe(db, users, address, port);
    RunIsSafe(Fresh(db, users, address, port), es);
  }

  lemma FreshIsSafe(db: Store, users: seq<Users.UserRow>, address: string, port: nat)
    ensures Safe(Fresh(db, users, address, port))
  {
  }

  /** A 226 goes out exactly when the operation in flight ends, one for each, and leaves
      nothing pending, no data connection and no client waiting. Only a listing that fails on
      the network ends without it. */
  lemma EndsWithOneCompletion(x: System, e: Event)
    requires Safe(x) && Enabled(x.w, e) && Disciplined(x, e)
    ensures var y := Advance(x, e);
            var ends := InFlight(x.w.s) == 1 && InFlight(y.w.s) == 0 && e != Listed(false);
            && Completions(y.w.s) == Completions(x.w.s) + (if ends then 1 else 0)
            && (ends ==> NoPending(y.w.s) && !y.w.s.data.open && !y.waiting)
            && (ends && e.Received? ==> y.w.s.up.stream.NoRecv?)
            && (ends && e.Delivered? ==> y.w.s.down.stream.NoSend?)
  {
    AdvanceSafe(x, e);
    if e.Command? && !IsTransfer(e.verb) {
      OtherCommandAside(Taken(x.w), e.verb, e.arg, e.env);
    }
  }
}
