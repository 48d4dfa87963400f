/** What the client hears, and what a command or callback leaves alone: the codes of every
    command in order, after section 5.4 of RFC 959, and what PWD, PASV and the data callbacks
    say (src/ftp/base_session.cpp:88-714, src/ftp/insecure_session.cpp:57-242). */
module Replies {
  import opened Helpers
  import opened FsTable
  import opened FsRuns
  import opened Navigation
  import opened SessionSpec
  import opened Logins
  import Users
  import Wire

  /** Since `before`, replies with exactly these codes were sent, in this order. */
  predicate Answered(before: Log, after: Log, codes: seq<nat>) {
    if codes == [] then after == before
    else
      && after.Then? && after.last.code == codes[|codes| - 1]
      && Answered(before, after.earlier, codes[..|codes| - 1])
  }

  lemma AnsweredOne(before: Log, r: Reply)
    ensures Answered(before, Then(before, r), [r.code])
  {
    assert [r.code][..0] == [];
  }

  lemma AnsweredTwo(before: Log, q: Reply, r: Reply)
    ensures Answered(before, Then(Then(before, q), r), [q.code, r.code])
  {
    assert [q.code, r.code][..1] == [q.code];
    AnsweredOne(before, q);
  }

  // ----- the codes of every command -----

  function RetrCodes(w: World, arg: string): seq<nat> {
    var at := RetrTarget(w.s.workingDirectory, arg);
    if arg == "" then [501, 150]
    else if w.s.pending.id == "" && Lookup(w.db.rows, w.s.login.userid, at.name, at.path).None? then [550, 150]
    else [150]
  }

  function StorCodes(w: World, arg: string): seq<nat> {
    if arg == "" then [501]
    else if w.s.pending.write != "" || StorParentMissing(w, StorFile(w.s.workingDirectory, arg)) then []
    else [150]
  }

  function CwdCodes(w: World, arg: string): seq<nat> {
    if arg == "" then [501]
    else if ChangeDirectory(w.db.rows, w.s.login.userid, w.s.workingDirectory, arg).Some? then [250]
    else [550]
  }

  function SizeCodes(w: World, arg: string): seq<nat> {
    var at := SizeTarget(arg);
    if Lookup(w.db.rows, w.s.login.userid, at.name, at.path).Some? then [213] else [550]
  }

  function OpenCodes(w: World, verb: Verb, arg: string): seq<nat>
    requires NeedsNoLogin(verb)
  {
    match verb
    case NOTHING => []
    case UNSUPPORTED => [502]
    case USER => [if arg != "" && Users.IdByName(w.users, arg) != "" then 331 else 530]
    case PASS =>
      [if w.s.login.userid != "" && Users.CheckPassword(w.users, w.s.login.userid, arg) then 230 else 530]
    case SYST => [215]
    case QUIT => [221]
  }

  /** The codes a command is answered with. Some are not answered: an unknown option, a LIST or
      STOR while one is pending, and a STOR whose parent is not there. */
  function Codes(w: World, verb: Verb, arg: string): seq<nat> {
    if NeedsNoLogin(verb) then OpenCodes(w, verb, arg)
    else if !w.s.login.ok then [530]
    else
      match verb
      case PWD => [257]
      case TYPE => [200]
      case PASV => [227]
      case FEAT => [211]
      case PBSZ => [200]
      case PROT => [200]
      case OPTS => if arg == "UTF8 ON" then [200] else []
      case LIST => if w.s.pending.list == "" then [150] else []
      case CDUP => [250]
      case CWD => CwdCodes(w, arg)
      case MKD => [if arg == "" then 501 else 250]
      case RMD => [if arg == "" then 501 else 250]
      case DELE => [if arg == "" then 501 else 250]
      case STOR => StorCodes(w, arg)
      case RETR => RetrCodes(w, arg)
      case SIZE => SizeCodes(w, arg)
      case _ => []
  }

  predicate Hears(w: World, v: World, codes: seq<nat>) {
    Answered(w.s.control.replies, v.s.control.replies, codes)
  }

  lemma HearsOne(w: World, v: World, r: Reply)
    requires v.s.control.replies == Then(w.s.control.replies, r)
    ensures Hears(w, v, [r.code])
  {
    AnsweredOne(w.s.control.replies, r);
  }

  lemma OpenHeard(w: World, verb: Verb, arg: string)
    requires NeedsNoLogin(verb)
    ensures Hears(w, RunOpen(w, verb, arg), OpenCodes(w, verb, arg))
  {
    var v := RunOpen(w, verb, arg);
    if verb != NOTHING {
      assert v.s.control.replies.Then?;
      HearsOne(w, v, v.s.control.replies.last);
    }
  }

  lemma StorHeard(w: World, arg: string, env: Env)
    ensures Hears(w, RunStor(w, arg, StorFile(w.s.workingDirectory, arg), env), StorCodes(w, arg))
  {
    var v := RunStor(w, arg, StorFile(w.s.workingDirectory, arg), env);
    BeginHeard(w.(s := w.s.(pending := w.s.pending.(write := StorFile(w.s.workingDirectory, arg)))), env);
    if StorCodes(w, arg) != [] {
      HearsOne(w, v, v.s.control.replies.last);
    }
  }

  lemma BeginHeard(w: World, env: Env)
    ensures var r := BeginStor(w, env).s.control.replies;
            r.Then? && r.earlier == w.s.control.replies && r.last.code == 150
  {
  }

  lemma RetrHeard(w: World, arg: string, env: Env)
    ensures Hears(w, RunRetr(ParseRetr(w, arg, RetrTarget(w.s.workingDirectory, arg)), env.opens), RetrCodes(w, arg))
  {
    var at := RetrTarget(w.s.workingDirectory, arg);
    var p := ParseRetr(w, arg, at);
    var v := RunRetr(p, env.opens);
    SendHeard(p, env.opens);
    if |RetrCodes(w, arg)| == 2 {
      AnsweredTwo(w.s.control.replies, p.s.control.replies.last, v.s.control.replies.last);
    } else {
      HearsOne(w, v, v.s.control.replies.last);
    }
  }

  lemma SendHeard(w: World, opens: bool)
    ensures var r := RunRetr(w, opens).s.control.replies;
            r.Then? && r.earlier == w.s.control.replies && r.last.code == 150
  {
  }

  lemma ListHeard(w: World, arg: string)
    ensures Hears(w, RunList(w, arg), if w.s.pending.list == "" then [150] else [])
  {
    var v := RunList(w, arg);
    if w.s.pending.list == "" {
      HearsOne(w, v, v.s.control.replies.last);
    }
  }

  lemma ChangeHeard(w: World, verb: Verb, arg: string, env: Env)
    requires verb == MKD || verb == RMD || verb == DELE
    ensures Hears(w, RunCommand(w, verb, arg, env), [if arg == "" then 501 else 250])
  {
    var v := RunCommand(w, verb, arg, env);
    HearsOne(w, v, v.s.control.replies.last);
  }

  lemma BrowseHeard(w: World, verb: Verb, arg: string, env: Env)
    requires w.s.login.ok && (verb == CWD || verb == CDUP || verb == SIZE)
    ensures Hears(w, RunCommand(w, verb, arg, env), Codes(w, verb, arg))
  {
    var v := RunCommand(w, verb, arg, env);
    HearsOne(w, v, v.s.control.replies.last);
  }

  lemma FixedHeard(w: World, verb: Verb, arg: string, env: Env)
    requires w.s.login.ok
    requires verb == PWD || verb == TYPE || verb == PASV || verb == FEAT || verb == PBSZ || verb == PROT || verb == OPTS
    ensures Hears(w, RunCommand(w, verb, arg, env), Codes(w, verb, arg))
  {
    var v := RunCommand(w, verb, arg, env);
    if Codes(w, verb, arg) != [] {
      HearsOne(w, v, v.s.control.replies.last);
    }
  }

  lemma RunHeard(w: World, verb: Verb, arg: string, env: Env)
    requires w.s.login.ok && !NeedsNoLogin(verb)
    ensures Hears(w, RunCommand(w, verb, arg, env), Codes(w, verb, arg))
  {
    if verb == LIST {
      ListHeard(w, arg);
    } else if verb == STOR {
      StorHeard(w, arg, env);
    } else if verb == RETR {
      RetrHeard(w, arg, env);
    } else if verb == MKD || verb == RMD || verb == DELE {
      ChangeHeard(w, verb, arg, env);
    } else if verb == CWD || verb == CDUP || verb == SIZE {
      BrowseHeard(w, verb, arg, env);
    } else {
      FixedHeard(w, verb, arg, env);
    }
  }

  /** Every command is answered with exactly its codes. */
  lemma CommandIsAnswered(w: World, verb: Verb, arg: string, env: Env)
    ensures Hears(w, Step(w, Command(verb, arg, env)), Codes(w, verb, arg))
  {
    var u := Taken(w);
    assert Codes(u, verb, arg) == Codes(w, verb, arg);
    if NeedsNoLogin(verb) {
      OpenHeard(u, verb, arg);
    } else if !w.s.login.ok {
      HearsOne(u, u.(s := Answer(u.s, 530, "Not logged in.")), Reply(530, "Not logged in."));
    } else {
      RunHeard(u, verb, arg, env);
    }
  }

  // ----- what the replies say -----

  /** PWD answers with the working directory between quotes. */
  lemma PwdSays(w: World, arg: string, env: Env)
    requires w.s.login.ok
    ensures var r := Step(w, Command(PWD, arg, env)).s.control.replies;
            r.Then? && var text := r.last.text;
            |text| >= 2 && text[0] == '"' == text[|text| - 1] && text[1..|text| - 1] == w.s.workingDirectory
  {
  }

  /** A reader of the PASV reply finds this session's address and port. */
  lemma PasvSays(w: World, arg: string, env: Env, a: seq<nat>)
    requires w.s.login.ok && |a| == 4 && (forall k :: 0 <= k < 4 ==> Wire.IsOctet(a[k])) && w.port < 65536
    requires w.address == Wire.Dotted(a)
    ensures var r := Step(w, Command(PASV, arg, env)).s.control.replies;
            r.Then? && var six := Wire.ReadPasv(r.last.text);
            |six| == 6 && six[..4] == a && 256 * six[4] + six[5] == w.port
  {
    Wire.PasvDecodes(a, w.port);
    PasvReply(w, arg, env);
  }

  lemma PasvReply(w: World, arg: string, env: Env)
    requires w.s.login.ok
    ensures var r := Step(w, Command(PASV, arg, env)).s.control.replies;
            r.Then? && r.last.text == Wire.PasvText(w.address, w.port)
  {
  }

  /** MKD says whether a directory was made. */
  lemma MkdSays(w: World, arg: string, env: Env)
    requires w.s.login.ok && arg != ""
    ensures var v, at := Step(w, Command(MKD, arg, env)), MkdTarget(w.s.workingDirectory, arg);
            && v.s.control.replies.Then?
            && (v.s.control.replies.last.text == "Directory created." <==>
                CanCreate(w.db.rows, w.s.login.userid, at.name, at.path))
            && (v.s.control.replies.last.text == "Failed." <==>
                !CanCreate(w.db.rows, w.s.login.userid, at.name, at.path))
  {
    assert "Failed." != "Directory created.";
  }

  // ----- what is left alone -----

  /** Before the login, a command that needs one changes nothing but the control connection. */
  lemma NotYet(w: World, verb: Verb, arg: string, env: Env)
    requires !w.s.login.ok && !NeedsNoLogin(verb)
    ensures var v := Step(w, Command(verb, arg, env));
            v == w.(s := w.s.(control := v.s.control))
  {
  }

  /** A LIST or a STOR while one is pending changes nothing at all. */
  lemma SecondIsDropped(w: World, verb: Verb, arg: string, env: Env)
    requires w.s.login.ok
    requires (verb == LIST && w.s.pending.list != "") || (verb == STOR && arg != "" && w.s.pending.write != "")
    ensures Step(w, Command(verb, arg, env)) == w.(s := w.s.(control := w.s.control.(armed := Dec(w.s.control.armed))))
  {
  }

  /** A listing that fails on the network stays pending, unanswered, its connection open. */
  lemma FailedListing(w: World)
    requires w.s.data.listOps > 0
    ensures Step(w, Listed(false)) == w.(s := w.s.(data := w.s.data.(listOps := w.s.data.listOps - 1)))
  {
  }

  /** A listing that is sent is answered, nothing of it stays pending, and its connection is
      closed. */
  lemma SentListingEnds(w: World)
    requires w.s.data.listOps > 0
    ensures var v := Step(w, Listed(true));
            && v.s.pending == w.s.pending.(list := "", listAll := false) && Hears(w, v, [226])
            && v.s.data == w.s.data.(listOps := w.s.data.listOps - 1, open := false) && v.db == w.db
  {
    var v := Step(w, Listed(true));
    HearsOne(w, v, v.s.control.replies.last);
  }

  // ----- accepts and what they serve -----

  /** A transfer that goes on without a connection waits for one more. */
  predicate Waits(w: World, verb: Verb, arg: string) {
    && w.s.login.ok && !w.s.data.open
    && (|| (verb == LIST && w.s.pending.list == "")
        || (verb == STOR && StorCodes(w, arg) == [150])
        || verb == RETR)
  }

  lemma OtherAccepts(w: World, verb: Verb, arg: string, env: Env)
    requires verb != LIST && verb != STOR && verb != RETR
    ensures HandleCommand(w, verb, arg, env).s.data == w.s.data
  {
    if NeedsNoLogin(verb) {
      OpenData(w, verb, arg);
    } else if w.s.login.ok {
      if verb == MKD || verb == RMD || verb == DELE {
        ChangeData(w, verb, arg, env);
      } else {
        AnswerData(w, verb, arg, env);
      }
    }
  }

  lemma OpenData(w: World, verb: Verb, arg: string)
    requires NeedsNoLogin(verb)
    ensures RunOpen(w, verb, arg).s.data == w.s.data
  {
  }

  lemma ChangeData(w: World, verb: Verb, arg: string, env: Env)
    requires verb == MKD || verb == RMD || verb == DELE
    ensures RunCommand(w, verb, arg, env).s.data == w.s.data
  {
  }

  lemma AnswerData(w: World, verb: Verb, arg: string, env: Env)
    requires !NeedsNoLogin(verb) && verb !in {LIST, STOR, RETR, MKD, RMD, DELE}
    ensures RunCommand(w, verb, arg, env).s.data == w.s.data
  {
  }

  lemma StorAccepts(w: World, arg: string, env: Env)
    ensures RunStor(w, arg, StorFile(w.s.workingDirectory, arg), env).s.data.accepts ==
            w.s.data.accepts + if !w.s.data.open && StorCodes(w, arg) == [150] then 1 else 0
  {
    BeginAccepts(w.(s := w.s.(pending := w.s.pending.(write := StorFile(w.s.workingDirectory, arg)))), env);
  }

  lemma BeginAccepts(w: World, env: Env)
    ensures BeginStor(w, env).s.data.accepts == w.s.data.accepts + if w.s.data.open then 0 else 1
  {
  }

  lemma RetrAccepts(w: World, arg: string, at: Target, opens: bool)
    ensures RunRetr(ParseRetr(w, arg, at), opens).s.data.accepts == w.s.data.accepts + if w.s.data.open then 0 else 1
  {
    var p := ParseRetr(w, arg, at);
    assert p.s.data == w.s.data;
    SendAccepts(p, opens);
  }

  lemma SendAccepts(w: World, opens: bool)
    ensures RunRetr(w, opens).s.data.accepts == w.s.data.accepts + if w.s.data.open then 0 else 1
  {
  }

  lemma ListAccepts(w: World, arg: string)
    ensures RunList(w, arg).s.data.accepts ==
            w.s.data.accepts + if !w.s.data.open && w.s.pending.list == "" then 1 else 0
  {
  }

  /** A command starts an accept exactly when a transfer goes on without a connection. RETR goes
      on whatever it found. */
  lemma CommandAccepts(w: World, verb: Verb, arg: string, env: Env)
    ensures Step(w, Command(verb, arg, env)).s.data.accepts ==
            w.s.data.accepts + if Waits(w, verb, arg) then 1 else 0
  {
    var u := Taken(w);
    assert StorCodes(u, arg) == StorCodes(w, arg);
    if verb == LIST || verb == STOR || verb == RETR {
      TransferAccepts(u, verb, arg, env);
    } else {
      OtherAccepts(u, verb, arg, env);
    }
  }

  lemma TransferAccepts(w: World, verb: Verb, arg: string, env: Env)
    requires verb == LIST || verb == STOR || verb == RETR
    ensures HandleCommand(w, verb, arg, env).s.data.accepts == w.s.data.accepts + if Waits(w, verb, arg) then 1 else 0
  {
    if w.s.login.ok {
      if verb == LIST {
        ListAccepts(w, arg);
      } else if verb == STOR {
        StorAccepts(w, arg, env);
      } else {
        RetrAccepts(w, arg, RetrTarget(w.s.workingDirectory, arg), env.opens);
      }
    }
  }

  /** The first pending transfer begins, in this order, and the others are left alone. */
  predicate Serves(w: World, v: World) {
    && v.s.pending == w.s.pending
    && (if w.s.pending.list != "" then ServesList(w, v)
        else if w.s.pending.write != "" then ServesUpload(w, v)
        else if w.s.pending.id != "" then ServesDownload(w, v)
        else v == w)
  }

  predicate ServesList(w: World, v: World) {
    v.s.data == w.s.data.(listOps := w.s.data.listOps + 1) && v.s.up == w.s.up && v.s.down == w.s.down
  }

  predicate ServesUpload(w: World, v: World) {
    && v.s.up.stream.Recv? && v.s.down == w.s.down && v.s.listing == w.s.listing
    && v.s.data == (if v.s.up.stream.target.Some? then w.s.data.(recvOps := w.s.data.recvOps + 1)
                    else w.s.data.(open := false))
  }

  predicate ServesDownload(w: World, v: World) {
    && v.s.down.stream.Send? && v.s.up == w.s.up && v.s.listing == w.s.listing && v.db == w.db
    && (v.s.data == w.s.data.(sendOps := w.s.data.sendOps + 1) || v.s.data == w.s.data.(open := false))
  }

  lemma BeginsListing(w: World)
    ensures ServesList(w, SendListing(w)) && SendListing(w).s.pending == w.s.pending
  {
  }

  lemma BeginsReceiving(w: World, env: Env)
    ensures ServesUpload(w, StartReceive(w, env)) && StartReceive(w, env).s.pending == w.s.pending
  {
  }

  lemma BeginsSending(w: World, opens: bool)
    ensures ServesDownload(w, StartSend(w, opens)) && StartSend(w, opens).s.pending == w.s.pending
  {
  }

  /** An accepted connection is open and serves one transfer: a listing first, then an upload,
      then a download, and none if none is pending. */
  lemma AcceptServes(w: World, env: Env)
    requires w.s.data.accepts > 0
    ensures var joined := Connect(w);
            && joined.s.data == w.s.data.(accepts := w.s.data.accepts - 1, open := true)
            && joined.s.pending == w.s.pending && joined.db == w.db
            && Serves(joined, Step(w, Accepted(env)))
  {
    PendingServes(Connect(w), env);
  }

  lemma PendingServes(w: World, env: Env)
    ensures Serves(w, BeginPending(w, env))
  {
    if w.s.pending.list != "" {
      BeginsListing(w);
    } else if w.s.pending.write != "" {
      BeginsReceiving(w, env);
    } else if w.s.pending.id != "" {
      BeginsSending(w, env.opens);
    }
  }

  // ----- uploads -----

  /** The upload is over: answered, nothing pending, and the connection closed. */
  predicate Over(w: World, v: World) {
    && v.s.up.stream.NoRecv? && v.s.pending.write == "" && !v.s.data.open && v.s.data.recvOps == 0
    && Hears(w, v, [226])
  }

  /** A read ends the upload if it fails, if it is the last, or if it brought something and the
      file took nothing; a file that took some of it goes on. */
  lemma ReadsOn(w: World, bytes: seq<Byte>, outcome: Outcome, written: nat, now: string)
    requires w.s.data.recvOps == 1 && w.s.up.stream.Recv? && w.s.up.stream.target.Some?
    ensures var v := Step(w, Received(bytes, outcome, written, now));
            if outcome == Success && (bytes == [] || written > 0) then
              v.s.data == w.s.data && v.s.pending == w.s.pending && v.s.up.stream == w.s.up.stream && Hears(w, v, [])
            else Over(w, v)
  {
    var v := Step(w, Received(bytes, outcome, written, now));
    if outcome != Success || (bytes != [] && written == 0) {
      HearsOne(w, v, v.s.control.replies.last);
    }
  }

  /** A file that does not open closes the connection; nothing is said and the transfer stays
      pending. */
  lemma ClosedUnopened(w: World, env: Env)
    requires w.s.pending.list == "" && !env.opens
    requires w.s.pending.write != "" || w.s.pending.id != ""
    ensures var v := Step(w, Accepted(env));
            && !v.s.data.open && v.s.pending == w.s.pending && Hears(w, v, [])
            && v.s.data.recvOps == w.s.data.recvOps && v.s.data.sendOps == w.s.data.sendOps
  {
  }

  /** A new file is appended to, should there be one of that name on disk; an old one is cut. */
  lemma OpensOn(s: Store, user: string, name: string, path: string, id: Uuid, now: string, bytes: seq<Byte>)
    ensures var o, found := OpenUpload(s, user, name, path, id, now, true), Lookup(s.rows, user, name, path);
            o.target.Some? ==>
              var after := WriteBlob(o.store, o.target.value, bytes).blobs;
              && o.target.value in after
              && after[o.target.value] ==
                 (if found.None? && o.target.value in s.blobs then s.blobs[o.target.value] + bytes else bytes)
              && o.target.value == (if found.Some? then found.value.id else id)
              && o.size == (if found.Some? then found.value.size else 0)
  {
    assert [] + bytes == bytes;
  }
}
