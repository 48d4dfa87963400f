/** A plain session and its handlers as steps on values (src/ftp/base_session.cpp and
    src/ftp/insecure_session.cpp). One thread runs all handlers, so each is one step; what the
    network, the disk and the clock do comes in with the event. */
module SessionSpec {
  import opened Helpers
  import opened Paths
  import opened FsTable
  import opened FsRuns
  import opened Navigation
  import FsObjects
  import Users
  import Wire

  const RECEIVE_BUFFER_SIZE: nat := 1024 * 512
  const SEND_BUFFER_SIZE: nat := 1024 * 512

  datatype Verb =
    | USER | PASS | SYST | QUIT | PWD | TYPE | PASV | LIST | FEAT | CDUP | CWD
    | MKD | RMD | DELE | STOR | RETR | SIZE | PBSZ | PROT | OPTS
    | UNSUPPORTED
    | NOTHING  // a receive error or an incomplete message

  /** A reply of one line, or of several, whose code is followed by a hyphen. */
  datatype Reply =
    | Reply(code: nat, text: string)
    | Lines(code: nat, text: string)

  /** Everything sent on the control connection, in order. */
  datatype Log = Empty | Then(earlier: Log, last: Reply)

  /** One entry of a directory listing. */
  datatype Entry = Entry(directory: bool, owner: string, size: string, modified: string, name: string)

  /** The stream an upload is written through: absent, not open, or open on a blob. */
  datatype RecvStream = NoRecv | Recv(target: Option<string>)

  /** The stream a download is read from. A `broken` one, opened on no regular file,
      delivers nothing and never reaches its end. */
  datatype SendStream = NoSend | Send(content: seq<Byte>, pos: nat, eof: bool, broken: bool)

  datatype Login = Login(ok: bool, userid: string, username: string)

  /** Transfers asked for and not yet begun or ended. */
  datatype Pending = Pending(list: string, listAll: bool, write: string, id: string)

  /** The data socket, the async_accept calls not completed, and the data operations in
      flight, by callback. */
  datatype Data = Data(open: bool, accepts: nat, listOps: nat, recvOps: nat, sendOps: nat)

  /** The control reads not completed, and everything sent. */
  datatype Control = Control(armed: nat, replies: Log)

  datatype Upload = Upload(name: string, path: string, size: nat, stream: RecvStream)

  /** The stream, the buffer being sent, and what went out since the stream was opened. */
  datatype Download = Download(stream: SendStream, chunk: seq<Byte>, sent: seq<Byte>)

  /** `unread`: bytes that came in and went into no file yet; they outlive the upload.
      `fault`: a callback has used a stream that is not there. */
  datatype Session = Session(login: Login, workingDirectory: string, pending: Pending, data: Data, control: Control,
                             listing: seq<Entry>, up: Upload, unread: seq<Byte>, down: Download, fault: bool)

  /** The session, the database it shares, and the data connections the client has opened
      that no accept has taken yet. */
  datatype World = World(s: Session, db: Store, users: seq<Users.UserRow>, address: string, port: nat, backlog: nat)

  /** What the environment contributes when objects are created and files opened. */
  datatype Env = Env(id: Uuid, now: string, opens: bool)

  datatype Outcome = Success | Eof | Failed

  datatype Event =
    | Command(verb: Verb, arg: string, env: Env)
    | Connected
    | Accepted(env: Env)
    | AcceptFailed
    | Listed(ok: bool)
    | Received(bytes: seq<Byte>, outcome: Outcome, written: nat, now: string)
    | Delivered(outcome: Outcome, count: nat)
    | Elsewhere(op: Op)  // another session, same database

  function Dec(n: nat): nat {
    if n == 0 then 0 else n - 1
  }

  function Say(s: Session, code: nat, text: string): Session {
    s.(control := s.control.(replies := Then(s.control.replies, Reply(code, text))))
  }

  function SayLines(s: Session, code: nat, text: string): Session {
    s.(control := s.control.(replies := Then(s.control.replies, Lines(code, text))))
  }

  function Arm(s: Session): Session {
    s.(control := s.control.(armed := s.control.armed + 1))
  }

  function Disarm(s: Session): Session {
    s.(control := s.control.(armed := 0))
  }

  function Answer(s: Session, code: nat, text: string): Session {
    Arm(Say(s, code, text))
  }

  function CloseData(s: Session): Session {
    s.(data := s.data.(open := false))
  }

  function StartAccept(s: Session): Session {
    s.(data := s.data.(accepts := s.data.accepts + 1))
  }

  // ----- listing -----

  function SpecialEntries(owner: string): seq<Entry> {
    [Entry(true, owner, "0", "Jan 1 00:00", "."), Entry(true, owner, "0", "Jan 1 00:00", "..")]
  }

  function EntryFor(o: FsObjects.FsObject, owner: string): Entry {
    Entry(o.isDirectory, owner, o.size, o.modified, o.name)
  }

  function Listing(objects: seq<FsObjects.FsObject>, owner: string, all: bool): seq<Entry> {
    (if all then SpecialEntries(owner) else []) +
    seq(|objects|, i requires 0 <= i < |objects| => EntryFor(objects[i], owner))
  }

  function SendListing(w: World): World {
    var objects := FsObjects.Objects(Select(w.db.rows, InDirectory(w.s.login.userid, w.s.pending.list)));
    w.(s := w.s.(listing := Listing(objects, w.s.login.username, w.s.pending.listAll),
               data := w.s.data.(listOps := w.s.data.listOps + 1)))
  }

  function RunList(w: World, arg: string): World {
    if w.s.pending.list != "" then w
    else
      var s := w.s.(pending := w.s.pending.(list := w.s.workingDirectory,
                                            listAll := w.s.pending.listAll || arg == "-la"));
      if s.data.open then
        var w1 := SendListing(w.(s := Say(s, 150, "Opening connection.")));
        w1.(s := Arm(w1.s))
      else
        w.(s := StartAccept(Answer(s, 150, "Opening connection.")))
  }

  function ListEnd(w: World, ok: bool): World {
    var s := w.s.(data := w.s.data.(listOps := Dec(w.s.data.listOps)));
    if !ok then w.(s := s)
    else w.(s := CloseData(Say(s.(pending := s.pending.(list := "", listAll := false)), 226, "Transferred.")))
  }

  // ----- uploads -----

  function StartReceive(w: World, env: Env): World {
    var path, name := ParentPath(w.s.pending.write), Basename(w.s.pending.write);
    var o := OpenUpload(w.db, w.s.login.userid, name, path, env.id, env.now, env.opens);
    w.(db := o.store, s := Attached(w.s, Upload(name, path, o.size, Recv(o.target)), o.target.Some?))
  }

  /** With the stream in place, the first read starts, or the socket is closed. */
  function Attached(s: Session, up: Upload, open: bool): Session {
    var s1 := s.(up := up);
    if open then s1.(data := s1.data.(recvOps := s1.data.recvOps + 1)) else CloseData(s1)
  }

  /** STOR looks for any object where the parent should be; whether it is a directory is
      left to create_object. */
  predicate StorParentMissing(w: World, file: string) {
    var parent := ParentPath(file);
    parent != "/" && Lookup(w.db.rows, w.s.login.userid, Basename(parent), ParentPath(parent)).None?
  }

  function RunStor(w: World, arg: string, file: string, env: Env): World {
    if arg == "" then w.(s := Answer(w.s, 501, "No arguments presented."))
    else if w.s.pending.write != "" then w
    else
      var s := w.s.(pending := w.s.pending.(write := file));
      if StorParentMissing(w, file) then w.(s := s) else BeginStor(w.(s := s), env)
  }

  function BeginStor(w: World, env: Env): World {
    if w.s.data.open then
      var w1 := StartReceive(w.(s := Say(w.s, 150, "Opening connection.")), env);
      w1.(s := Arm(w1.s))
    else
      w.(s := StartAccept(Answer(w.s, 150, "Waiting for connection")))
  }

  function ReceiveEnd(w: World, now: string): World {
    var s := w.s;
    w.(db := w.db.(rows := Resize(w.db.rows, s.login.userid, s.up.name, s.up.path, s.up.size, now).0),
       s := CloseData(Say(s.(up := s.up.(stream := NoRecv), pending := s.pending.(write := "")), 226, "Received.")))
  }

  /** A write that moves nothing fails, and so does every write on a stream that is not open;
      one that moves some of the bytes does not. */
  predicate WriteFails(recv: RecvStream, bytes: seq<Byte>, written: nat) {
    recv.Recv? && (recv.target.None? || (|bytes| > 0 && written == 0))
  }

  /** Bytes that have come in join those still unread, and are counted, before anything is
      done with them. */
  function Counted(w: World, bytes: seq<Byte>): World {
    w.(s := w.s.(data := w.s.data.(recvOps := Dec(w.s.data.recvOps)),
                 up := w.s.up.(size := w.s.up.size + |bytes|),
                 unread := w.s.unread + bytes))
  }

  /** If anything has come in, the file takes `written` of the unread bytes and the rest stay. */
  function Written(w: World, bytes: seq<Byte>, written: nat): World
    requires w.s.up.stream.Recv?
  {
    if w.s.up.stream.target.Some? && |bytes| > 0 then
      w.(db := WriteBlob(w.db, w.s.up.stream.target.value, Prefix(w.s.unread, written)),
         s := w.s.(unread := Rest(w.s.unread, written)))
    else w
  }

  function ReceiveStep(w: World, bytes: seq<Byte>, outcome: Outcome, written: nat, now: string): World {
    var w1 := Counted(w, bytes);
    if w1.s.up.stream.NoRecv? then w1.(s := w1.s.(fault := true)) else TakeIn(w1, bytes, outcome, written, now)
  }

  function TakeIn(w: World, bytes: seq<Byte>, outcome: Outcome, written: nat, now: string): World
    requires w.s.up.stream.Recv?
  {
    EndOrReadOn(Written(w, bytes, written), WriteFails(w.s.up.stream, bytes, written) || outcome != Success, now)
  }

  function EndOrReadOn(w: World, over: bool, now: string): World {
    if over then ReceiveEnd(w, now) else w.(s := w.s.(data := w.s.data.(recvOps := w.s.data.recvOps + 1)))
  }

  // ----- downloads -----

  function ParseRetr(w: World, arg: string, at: Target): World {
    if arg == "" then w.(s := Answer(w.s, 501, "No arguments presented."))
    else if w.s.pending.id != "" then w
    else
      match Lookup(w.db.rows, w.s.login.userid, at.name, at.path)
      case None => w.(s := Say(w.s, 550, "File unavailable."))
      case Some(o) => w.(s := w.s.(pending := w.s.pending.(id := o.id)))
  }

  function Min(a: nat, b: nat): nat {
    if a < b then a else b
  }

  /** Read the next buffer and start writing it out. */
  function SendNext(s: Session): Session {
    if s.down.stream.NoSend? then s.(fault := true)
    else if s.down.stream.broken || s.down.stream.pos > |s.down.stream.content| then
      s.(down := s.down.(chunk := []), data := s.data.(sendOps := s.data.sendOps + 1))
    else
      var from := s.down.stream;
      var left := |from.content| - from.pos;
      var n := Min(left, SEND_BUFFER_SIZE);
      s.(down := s.down.(chunk := from.content[from.pos..from.pos + n],
                         stream := from.(pos := from.pos + n, eof := left < SEND_BUFFER_SIZE)),
         data := s.data.(sendOps := s.data.sendOps + 1))
  }

  /** A regular file opens only if it is there. The empty id names the directory "data/"
      itself; whether that opens for reading is up to the platform. */
  predicate SendOpens(w: World, opens: bool) {
    opens && (w.s.pending.id == "" || w.s.pending.id in w.db.blobs)
  }

  function StartSend(w: World, opens: bool): World {
    if !SendOpens(w, opens) then w.(s := CloseData(w.s.(down := w.s.down.(stream := Send([], 0, false, true)))))
    else
      var broken := w.s.pending.id == "";
      var content := if broken then [] else w.db.blobs[w.s.pending.id];
      w.(s := SendNext(w.s.(down := Download(Send(content, 0, false, broken), w.s.down.chunk, []))))
  }

  function RunRetr(w: World, opens: bool): World {
    if w.s.data.open then
      var w1 := StartSend(w.(s := Say(w.s, 150, "Opening connection.")), opens);
      w1.(s := Arm(w1.s))
    else
      w.(s := StartAccept(Answer(w.s, 150, "Waiting for connection")))
  }

  function SendEnd(s: Session): Session {
    CloseData(Say(s.(down := s.down.(stream := NoSend), pending := s.pending.(id := "")), 226, "Sent."))
  }

  function SendStep(s: Session, outcome: Outcome, count: nat): Session {
    var s1 := s.(data := s.data.(sendOps := Dec(s.data.sendOps)),
                 down := s.down.(sent := s.down.sent + Prefix(s.down.chunk, count)));
    if s1.down.stream.NoSend? then s1.(fault := true)
    else if s1.down.stream.eof then SendEnd(s1)
    else if outcome != Success then SendEnd(s1)
    else SendNext(s1)
  }

  // ----- the data connection -----

  /** The accept has completed: a queued connection becomes the data socket. */
  function Connect(w: World): World {
    w.(s := w.s.(data := w.s.data.(accepts := Dec(w.s.data.accepts), open := true)), backlog := Dec(w.backlog))
  }

  function Accept(w: World, env: Env): World {
    BeginPending(Connect(w), env)
  }

  /** The transfer that was waiting for the connection begins. */
  function BeginPending(w: World, env: Env): World {
    if w.s.pending.list != "" then SendListing(w)
    else if w.s.pending.write != "" then StartReceive(w, env)
    else if w.s.pending.id != "" then StartSend(w, env.opens)
    else w
  }

  // ----- commands -----

  const FEATURES := "Features:\r\n AUTH TLS\r\n PASV\r\n PBSZ\r\n PROT\r\n UTF8\r\n211 End"

  /** The commands that only answer; None for those that do more. */
  function FixedAnswer(w: World, verb: Verb, arg: string): Option<Session> {
    match verb
    case PWD => Some(Answer(w.s, 257, "\"" + w.s.workingDirectory + "\""))
    case TYPE => Some(Answer(w.s, 200, "OK."))
    case PASV => Some(Answer(w.s, 227, Wire.PasvText(w.address, w.port)))
    case FEAT => Some(Arm(SayLines(w.s, 211, FEATURES)))
    case PBSZ => Some(Answer(w.s, 200, "OK."))
    case PROT => Some(Answer(w.s, 200, "OK."))
    case OPTS => Some(if arg == "UTF8 ON" then Answer(w.s, 200, "Enabled UTF-8 encoding.") else Arm(w.s))
    case _ => None
  }

  function RunUser(w: World, arg: string): Session {
    var uid := Users.IdByName(w.users, arg);
    if arg == "" || uid == "" then Answer(w.s, 530, "Invalid username.")
    else Answer(w.s.(login := w.s.login.(userid := uid, username := arg)), 331, "Username okay, password needed.")
  }

  function RunPass(w: World, arg: string): Session {
    if w.s.login.userid == "" then Answer(w.s, 530, "User not found.")
    else if Users.CheckPassword(w.users, w.s.login.userid, arg) then
      Answer(w.s.(login := w.s.login.(ok := true)), 230, "Logged in.")
    else Answer(w.s, 530, "Wrong password.")
  }

  function RunCwd(w: World, arg: string, to: Option<string>): Session {
    if arg == "" then Answer(w.s, 501, "No arguments presented.")
    else
      match to
      case None => Answer(w.s, 550, "No such file or directory.")
      case Some(wd) => Answer(w.s.(workingDirectory := wd), 250, "Changed working directory.")
  }

  function MakeDirectoryAt(w: World, at: Target, env: Env): (Rows, string) {
    Create(w.db.rows, w.s.login.userid, at.name, at.path, 0, true, env.id, env.now)
  }

  /** Success and refusal carry the same code. */
  function RunMkd(w: World, arg: string, made: (Rows, string)): World {
    if arg == "" then w.(s := Answer(w.s, 501, "No arguments presented."))
    else w.(db := w.db.(rows := made.0),
            s := Answer(w.s, 250, if made.1 == "" then "Failed." else "Directory created."))
  }

  /** RMD and DELE differ only in how the argument is read, and answer the same in all cases. */
  function RunRemove(w: World, arg: string, at: Target): World {
    if arg == "" then w.(s := Answer(w.s, 501, "No arguments presented."))
    else w.(db := Remove(w.db, w.s.login.userid, at.name, at.path).0, s := Answer(w.s, 250, "Deleted."))
  }

  /** SIZE does not wait for another command. */
  function RunSize(w: World, found: Option<Row>): Session {
    match found
    case None => Say(w.s, 550, "File unavailable.")
    case Some(o) => Say(w.s, 213, Decimal(o.size))
  }

  /** The commands of a logged-in client. */
  function RunCommand(w: World, verb: Verb, arg: string, env: Env): World {
    match verb
    case LIST => RunList(w, arg)
    case CDUP => w.(s := Answer(w.s.(workingDirectory := ParentPath(w.s.workingDirectory)), 250, "Okay."))
    case CWD => w.(s := RunCwd(w, arg, ChangeDirectory(w.db.rows, w.s.login.userid, w.s.workingDirectory, arg)))
    case MKD => RunMkd(w, arg, MakeDirectoryAt(w, MkdTarget(w.s.workingDirectory, arg), env))
    case RMD => RunRemove(w, arg, RmdTarget(w.s.workingDirectory, arg))
    case DELE => RunRemove(w, arg, MkdTarget(w.s.workingDirectory, arg))
    case STOR => RunStor(w, arg, StorFile(w.s.workingDirectory, arg), env)
    case RETR => RunRetr(ParseRetr(w, arg, RetrTarget(w.s.workingDirectory, arg)), env.opens)
    case SIZE => w.(s := RunSize(w, Lookup(w.db.rows, w.s.login.userid, SizeTarget(arg).name, SizeTarget(arg).path)))
    case _ => (match FixedAnswer(w, verb, arg) case None => w case Some(s) => w.(s := s))
  }

  predicate NeedsNoLogin(verb: Verb) {
    verb.NOTHING? || verb.UNSUPPORTED? || verb.USER? || verb.PASS? || verb.SYST? || verb.QUIT?
  }

  /** The commands that need no login. Closing the control connection ends the reads still
      waiting. */
  function RunOpen(w: World, verb: Verb, arg: string): World
    requires NeedsNoLogin(verb)
  {
    match verb
    case NOTHING => w
    case UNSUPPORTED => w.(s := Answer(w.s, 502, "Command not implemented."))
    case USER => w.(s := RunUser(w, arg))
    case PASS => w.(s := RunPass(w, arg))
    case SYST => w.(s := Answer(w.s, 215, "UNIX Type: L8"))
    case QUIT => w.(s := Disarm(Say(w.s, 221, "Closing control connection.")))
  }

  /** handle_command. */
  function HandleCommand(w: World, verb: Verb, arg: string, env: Env): World {
    if NeedsNoLogin(verb) then RunOpen(w, verb, arg)
    else if !w.s.login.ok then w.(s := Answer(w.s, 530, "Not logged in."))
    else RunCommand(w, verb, arg, env)
  }

  // ----- steps -----

  /** A control read has completed. */
  function Taken(w: World): World {
    w.(s := w.s.(control := w.s.control.(armed := Dec(w.s.control.armed))))
  }

  function Step(w: World, e: Event): World {
    match e
    case Command(verb, arg, env) => HandleCommand(Taken(w), verb, arg, env)
    case Connected => w.(backlog := w.backlog + 1)
    case Accepted(env) => Accept(w, env)
    case AcceptFailed => w.(s := w.s.(data := w.s.data.(accepts := Dec(w.s.data.accepts))))
    case Listed(ok) => ListEnd(w, ok)
    case Received(bytes, outcome, written, now) => ReceiveStep(w, bytes, outcome, written, now)
    case Delivered(outcome, count) => w.(s := SendStep(w.s, outcome, count))
    case Elsewhere(op) => w.(db := Apply(w.db, op))
  }

  /** What can happen: a callback runs only for an operation in flight. */
  predicate Enabled(w: World, e: Event) {
    match e
    case Command(_, _, _) => w.s.control.armed > 0
    case Connected => true
    case Accepted(_) => w.s.data.accepts > 0 && w.backlog > 0
    case AcceptFailed => w.s.data.accepts > 0
    case Listed(_) => w.s.data.listOps > 0
    case Received(bytes, _, written, _) =>
      w.s.data.recvOps > 0 && |w.s.unread| + |bytes| <= RECEIVE_BUFFER_SIZE && written <= |w.s.unread| + |bytes|
    case Delivered(outcome, count) =>
      w.s.data.sendOps > 0 && count <= |w.s.down.chunk| && (outcome == Success ==> count == |w.s.down.chunk|)
    case Elsewhere(_) => true
  }

  function Steps(w: World, es: seq<Event>): World
    decreases |es|
  {
    if es == [] then w else Steps(Step(w, es[0]), es[1..])
  }

  /** Each event can happen when its turn comes. */
  predicate AllEnabled(w: World, es: seq<Event>)
    decreases |es|
  {
    es == [] || (Enabled(w, es[0]) && AllEnabled(Step(w, es[0]), es[1..]))
  }

  /** A session just started: welcome sent, first read armed. */
  const NEW_SESSION := Session(
    Login(false, "", ""), "/", Pending("", false, "", ""), Data(false, 0, 0, 0, 0),
    Control(1, Then(Empty, Reply(220, "Welcome. This connection is not secure"))),
    [], Upload("", "", 0, NoRecv), [], Download(NoSend, [], []), false)
}
