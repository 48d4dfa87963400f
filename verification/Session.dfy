/** The session object (src/ftp/base_session.cpp, src/ftp/insecure_session.cpp): the handlers
    with the fields and the order of effects of the source, each against its step in
    SessionSpec. */
module SessionObject {
  import opened Helpers
  import opened Paths
  import opened FsTable
  import opened FsRuns
  import opened Navigation
  import opened SessionSpec
  import opened Commands
  import FsObjects
  import Users
  import Wire

  class Session {
    const db: FsObjects.FsObjects
    const users: seq<Users.UserRow>
    const address: string
    const port: nat

    var login: Login
    var workingDirectory: string
    var pending: Pending
    var data: Data
    var control: Control
    var directoryList: seq<Entry>
    var up: Upload
    var unread: seq<Byte>
    var down: Download
    var fault: bool

    constructor (db: FsObjects.FsObjects, users: seq<Users.UserRow>, address: string, port: nat)
      ensures this.db == db
      ensures Here() == World(NEW_SESSION, db.Contents(), users, address, port, 0)
    {
      this.db, this.users, this.address, this.port := db, users, address, port;
      login, workingDirectory := Login(false, "", ""), "/";
      pending, data := Pending("", false, "", ""), Data(false, 0, 0, 0, 0);
      control := Control(1, Then(Empty, Reply(220, "Welcome. This connection is not secure")));
      directoryList, up, unread := [], Upload("", "", 0, NoRecv), [];
      down, fault := Download(NoSend, [], []), false;
    }

    function State(): SessionSpec.Session
      reads this
    {
      SessionSpec.Session(login, workingDirectory, pending, data, control, directoryList, up, unread, down, fault)
    }

    /** The session and its database. Connections nobody has accepted are not the session's. */
    function Here(): World
      reads this, db
    {
      World(State(), db.Contents(), users, address, port, 0)
    }

    // ----- control connection -----

    method ControlSend(code: nat, text: string)
      modifies this`control
      ensures State() == Say(old(State()), code, text)
    {
      control := control.(replies := Then(control.replies, Reply(code, text)));
    }

    method ControlSendLines(code: nat, text: string)
      modifies this`control
      ensures State() == SayLines(old(State()), code, text)
    {
      control := control.(replies := Then(control.replies, Lines(code, text)));
    }

    method ControlReceive()
      modifies this`control
      ensures State() == Arm(old(State()))
    {
      control := control.(armed := control.armed + 1);
    }

    method Reply2(code: nat, text: string)
      modifies this`control
      ensures State() == Answer(old(State()), code, text)
    {
      ControlSend(code, text);
      ControlReceive();
    }

    // ----- data connection -----

    method DataClose()
      modifies this`data
      ensures State() == CloseData(old(State()))
    {
      if !data.open {
        return;
      }
      data := data.(open := false);
    }

    method DataAcceptorStartAccept()
      modifies this`data
      ensures State() == StartAccept(old(State()))
    {
      data := data.(accepts := data.accepts + 1);
    }

    // ----- LIST -----

    method CreateDirectoryList(objects: seq<FsObjects.FsObject>, owner: string, special: bool)
      modifies this`directoryList
      ensures directoryList == Listing(objects, owner, special)
    {
      directoryList := [];
      if special {
        directoryList := directoryList + [Entry(true, owner, "0", "Jan 1 00:00", ".")];
        directoryList := directoryList + [Entry(true, owner, "0", "Jan 1 00:00", "..")];
      }
      ListObjects(objects, owner);
    }

    method ListObjects(objects: seq<FsObjects.FsObject>, owner: string)
      modifies this`directoryList
      ensures directoryList ==
              old(directoryList) + seq(|objects|, i requires 0 <= i < |objects| => EntryFor(objects[i], owner))
    {
      ghost var head := directoryList;
      var i := 0;
      while i < |objects|
        invariant 0 <= i <= |objects|
        invariant directoryList == head + seq(i, k requires 0 <= k < i => EntryFor(objects[k], owner))
      {
        var o := objects[i];
        directoryList := directoryList + [Entry(o.isDirectory, owner, o.size, o.modified, o.name)];
        i := i + 1;
      }
    }

    method DataDirectoryListing()
      modifies this`directoryList, this`data
      ensures Here() == SendListing(old(Here()))
    {
      var objects := db.GetObjectsByPath(login.userid, pending.list);
      CreateDirectoryList(objects, login.username, pending.listAll);
      data := data.(listOps := data.listOps + 1);
    }

    method RunLIST(argument: string)
      modifies this
      ensures Here() == RunList(old(Here()), argument)
    {
      if pending.list != "" {
        return;
      }
      pending := pending.(list := workingDirectory);
      if argument == "-la" {
        pending := pending.(listAll := true);
      }
      ControlSend(150, "Opening connection.");
      if data.open {
        DataDirectoryListing();
        ControlReceive();
        return;
      }
      ControlReceive();
      DataAcceptorStartAccept();
    }

    method HandleDataSendCallback(ok: bool)
      requires data.listOps > 0
      modifies this
      ensures Here() == ListEnd(old(Here()), ok)
    {
      data := data.(listOps := data.listOps - 1);
      if !ok {
        return;
      }
      pending := pending.(list := "");
      pending := pending.(listAll := false);
      ControlSend(226, "Transferred.");
      DataClose();
    }

    // ----- STOR -----

    method DataReceiveFile(env: Env)
      modifies this, db
      ensures Here() == StartReceive(old(Here()), env)
    {
      var path := GetParentPath(pending.write);
      var name := GetBasename(pending.write);
      var size, target := OpenReceiveStream(name, path, env);
      Attach(Upload(name, path, size, RecvStream.Recv(target)), target.Some?);
    }

    method Attach(stream: Upload, open: bool)
      modifies this`up, this`data
      ensures State() == Attached(old(State()), stream, open)
    {
      up := stream;
      if !open {
        DataClose();
        return;
      }
      data := data.(recvOps := data.recvOps + 1);
    }

    /** Find or create the object and open its file, for appending if it is new and truncating
        if it is not; the size counter starts at what the table has. */
    method OpenReceiveStream(name: string, path: string, env: Env) returns (size: nat, target: Option<string>)
      modifies db
      ensures Opened(db.Contents(), target, size) ==
              OpenUpload(old(db.Contents()), login.userid, name, path, env.id, env.now, env.opens)
    {
      var o := db.GetObject(login.userid, name, path);
      size, target := 0, None;
      if o.id == "" {
        var created := db.CreateObject(login.userid, name, path, 0, false, env.id, env.now);
        if created != "" && env.opens {
          if created !in db.blobs {
            db.blobs := db.blobs[created := []];
          }
          target := Some(created);
        }
      } else {
        DecimalRoundTrip(Lookup(db.rows, login.userid, name, path).value.size);
        size := ParseDecimal(o.size);
        if env.opens {
          db.blobs := db.blobs[o.id := []];
          target := Some(o.id);
        }
      }
    }

    method ReadFile(argument: string) returns (file: string)
      requires argument != ""
      ensures file == StorFile(workingDirectory, argument)
    {
      if argument[0] != '/' {
        if workingDirectory == "/" {
          return workingDirectory + argument;
        }
        return workingDirectory + "/" + argument;
      }
      return argument;
    }

    /** Whether STOR finds no object where the parent of the file should be. */
    method ParentIsMissing(file: string) returns (missing: bool)
      ensures missing == StorParentMissing(Here(), file)
    {
      var parentDirectory := GetParentPath(file);
      if parentDirectory == "/" {
        return false;
      }
      var base := GetBasename(parentDirectory);
      var above := GetParentPath(parentDirectory);
      var o := db.GetObject(login.userid, base, above);
      return o.id == "";
    }

    /** Begin the upload on the data connection that is there, or wait for one. */
    method BeginSTOR(env: Env)
      modifies this, db
      ensures Here() == BeginStor(old(Here()), env)
    {
      if data.open {
        ControlSend(150, "Opening connection.");
        DataReceiveFile(env);
        ControlReceive();
        return;
      }
      ControlSend(150, "Waiting for connection");
      ControlReceive();
      DataAcceptorStartAccept();
    }

    method RunSTOR(argument: string, env: Env)
      modifies this, db
      ensures Here() == RunStor(old(Here()), argument, StorFile(old(workingDirectory), argument), env)
    {
      if argument == "" {
        Reply2(501, "No arguments presented.");
        return;
      }
      if pending.write != "" {
        return;
      }
      var file := ReadFile(argument);
      pending := pending.(write := file);
      var missing := ParentIsMissing(file);
      if missing {
        return;
      }
      BeginSTOR(env);
    }

    /** Write the buffer to the stream, if anything has arrived; what the file does not take
        stays in the buffer. */
    method WriteChunk(bytes: seq<Byte>, written: nat) returns (failed: bool)
      requires up.stream.Recv?
      modifies this`unread, db
      ensures Here() == Written(old(Here()), bytes, written)
      ensures failed == WriteFails(up.stream, bytes, written)
    {
      failed := up.stream.target.None?;
      if |bytes| > 0 && !failed {
        var id := up.stream.target.value;
        if id in db.blobs {
          db.blobs := db.blobs[id := db.blobs[id] + Prefix(unread, written)];
        }
        unread := Rest(unread, written);
        failed := written == 0;
      }
    }

    method HandleDataAsyncReceiveCallback(bytes: seq<Byte>, outcome: Outcome, written: nat, now: string)
      requires data.recvOps > 0
      modifies this, db
      ensures Here() == ReceiveStep(old(Here()), bytes, outcome, written, now)
    {
      Count(bytes);
      if up.stream.NoRecv? {
        fault := true;
        return;
      }
      WriteAndGoOn(bytes, outcome, written, now);
    }

    method Count(bytes: seq<Byte>)
      requires data.recvOps > 0
      modifies this`data, this`up, this`unread
      ensures Here() == Counted(old(Here()), bytes)
    {
      data := data.(recvOps := data.recvOps - 1);
      unread := unread + bytes;
      up := up.(size := up.size + |bytes|);
    }

    method WriteAndGoOn(bytes: seq<Byte>, outcome: Outcome, written: nat, now: string)
      requires up.stream.Recv?
      modifies this, db
      ensures Here() == TakeIn(old(Here()), bytes, outcome, written, now)
    {
      var failed := WriteChunk(bytes, written);
      EndOrRead(failed || outcome != Success, now);
    }

    /** A failed write, the end of the data and a failed read all end the upload. */
    method EndOrRead(over: bool, now: string)
      modifies this, db
      ensures Here() == EndOrReadOn(old(Here()), over, now)
    {
      if over {
        DataAsyncReceiveEnd(now);
        return;
      }
      data := data.(recvOps := data.recvOps + 1);
    }

    method DataAsyncReceiveEnd(now: string)
      modifies this, db
      ensures Here() == ReceiveEnd(old(Here()), now)
    {
      up := up.(stream := NoRecv);
      var updated := db.UpdateObjectSize(login.userid, up.name, up.path, up.size, now);
      pending := pending.(write := "");
      ControlSend(226, "Received.");
      DataClose();
    }

    // ----- RETR -----

    method ParseRETRArgument(argument: string)
      modifies this
      ensures Here() == ParseRetr(old(Here()), argument, RetrTarget(old(workingDirectory), argument))
    {
      if argument == "" {
        Reply2(501, "No arguments presented.");
        return;
      }
      if pending.id != "" {
        return;
      }
      var objectPath, objectName;
      var segments := StringSplit(argument, "/");
      if |segments| == 1 {
        objectPath, objectName := workingDirectory, argument;
      } else if StartsWith(argument, "/") {
        objectPath := GetParentPath(argument);
        objectName := GetBasename(argument);
      } else {
        objectPath := GetParentPath(workingDirectory + argument);
        objectName := GetBasename(argument);
      }
      var o := db.GetObject(login.userid, objectName, objectPath);
      if o.id == "" {
        ControlSend(550, "File unavailable.");
        return;
      }
      pending := pending.(id := o.id);
    }

    method RunRETR(opens: bool)
      modifies this
      ensures Here() == RunRetr(old(Here()), opens)
    {
      if data.open {
        ControlSend(150, "Opening connection.");
        DataSendFile(opens);
        ControlReceive();
        return;
      }
      ControlSend(150, "Waiting for connection");
      ControlReceive();
      DataAcceptorStartAccept();
    }

    method ParseAndRunRETR(argument: string, opens: bool)
      modifies this
      ensures var w := old(Here());
              Here() == RunRetr(ParseRetr(w, argument, RetrTarget(w.s.workingDirectory, argument)), opens)
    {
      ParseRETRArgument(argument);
      RunRETR(opens);
    }

    method DataSendFile(opens: bool)
      modifies this
      ensures Here() == StartSend(old(Here()), opens)
    {
      if !(opens && (pending.id == "" || pending.id in db.blobs)) {
        down := down.(stream := Send([], 0, false, true));
        DataClose();
        return;
      }
      if pending.id == "" {
        down := down.(stream := Send([], 0, false, true));
      } else {
        down := down.(stream := Send(db.blobs[pending.id], 0, false, false));
      }
      down := down.(sent := []);
      DataAsyncSend();
    }

    /** Read a buffer, note a short read as the end of the file, write the buffer out. */
    method DataAsyncSend()
      modifies this`down, this`data, this`fault
      ensures State() == SendNext(old(State()))
    {
      if down.stream.NoSend? {
        fault := true;
        return;
      }
      if down.stream.broken || down.stream.pos > |down.stream.content| {
        down := down.(chunk := []);
      } else {
        var from := down.stream;
        var left := |from.content| - from.pos;
        var n := Min(left, SEND_BUFFER_SIZE);
        down := down.(chunk := from.content[from.pos..from.pos + n]);
        down := down.(stream := from.(pos := from.pos + n, eof := left < SEND_BUFFER_SIZE));
      }
      data := data.(sendOps := data.sendOps + 1);
    }

    method HandleDataAsyncSendCallback(outcome: Outcome, count: nat)
      requires data.sendOps > 0
      modifies this
      ensures State() == SendStep(old(State()), outcome, count)
    {
      data := data.(sendOps := data.sendOps - 1);
      down := down.(sent := down.sent + Prefix(down.chunk, count));
      if down.stream.NoSend? {
        fault := true;
        return;
      }
      if down.stream.eof {
        DataAsyncSendEnd();
        return;
      }
      if outcome != Success {
        DataAsyncSendEnd();
        return;
      }
      DataAsyncSend();
    }

    method DataAsyncSendEnd()
      modifies this
      ensures State() == SendEnd(old(State()))
    {
      down := down.(stream := NoSend);
      pending := pending.(id := "");
      ControlSend(226, "Sent.");
      DataClose();
    }

    // ----- accepting -----

    method HandleAccept(env: Env)
      requires data.accepts > 0
      modifies this, db
      ensures Here() == Accept(old(Here()), env)
    {
      data := data.(accepts := data.accepts - 1);
      data := data.(open := true);
      BeginWhatWaits(env);
    }

    method BeginWhatWaits(env: Env)
      modifies this, db
      ensures Here() == BeginPending(old(Here()), env)
    {
      if pending.list != "" {
        DataDirectoryListing();
        return;
      }
      if pending.write != "" {
        DataReceiveFile(env);
        return;
      }
      if pending.id != "" {
        DataSendFile(env.opens);
        return;
      }
    }

    // ----- the other commands -----

    /** The walk of CWD, segment by segment; None is "550 No such file or directory." */
    method WalkTo(argument: string) returns (to: Option<string>)
      requires argument != "" && argument != ".." && argument != "/"
      ensures to == ChangeDirectory(db.rows, login.userid, workingDirectory, argument)
    {
      var objectPath;
      var segments := StringSplit(argument, "/");
      SegmentsExist(argument);
      if argument[0] == '/' {
        objectPath := "/";
        segments := segments[1..];
      } else {
        objectPath := workingDirectory;
      }
      to := Walk(objectPath, segments);
    }

    method Walk(start: string, segments: seq<string>) returns (to: Option<string>)
      requires segments != []
      ensures to == if WalkOk(db.rows, login.userid, start, segments) then Some(WalkEnd(start, segments)) else None
    {
      var objectPath := start;
      var o := db.GetObject(login.userid, segments[0], objectPath);
      WalkBegins(db.rows, login.userid, start, segments);
      if o.id == "" {
        return None;
      }
      if objectPath == "/" {
        objectPath := "";
      }
      var i := 0;
      while i < |segments| - 1
        invariant Walking(db.rows, login.userid, start, segments, i, objectPath)
      {
        WalkGoesOn(db.rows, login.userid, start, segments, i, objectPath, i + 1);
        objectPath := objectPath + "/";
        objectPath := objectPath + segments[i];
        o := db.GetObject(login.userid, segments[i + 1], objectPath);
        if o.id == "" {
          return None;
        }
        i := i + 1;
      }
      WalkArrives(db.rows, login.userid, start, segments, i, objectPath);
      if objectPath != "/" {
        objectPath := objectPath + "/";
      }
      return Some(objectPath + segments[i]);
    }

    method RunCWD(argument: string)
      modifies this
      ensures var w := old(Here());
              var to := ChangeDirectory(w.db.rows, w.s.login.userid, w.s.workingDirectory, argument);
              Here() == w.(s := RunCwd(w, argument, to))
    {
      if argument == "" {
        Reply2(501, "No arguments presented.");
        return;
      }
      if argument == ".." {
        workingDirectory := GetParentPath(workingDirectory);
        Reply2(250, "Changed working directory.");
        return;
      }
      if argument == "/" {
        workingDirectory := "/";
        Reply2(250, "Changed working directory.");
        return;
      }
      var to := WalkTo(argument);
      if to.None? {
        Reply2(550, "No such file or directory.");
        return;
      }
      workingDirectory := to.value;
      Reply2(250, "Changed working directory.");
    }

    method RunCDUP()
      modifies this
      ensures var s := old(State());
              State() == Answer(s.(workingDirectory := ParentPath(s.workingDirectory)), 250, "Okay.")
    {
      workingDirectory := GetParentPath(workingDirectory);
      Reply2(250, "Okay.");
    }

    /** A single name is taken in the working directory, anything else from the root. */
    method ReadTarget(argument: string) returns (at: Target)
      ensures at == MkdTarget(workingDirectory, argument)
    {
      var segments := StringSplit(argument, "/");
      if |segments| == 1 {
        return Target(workingDirectory, argument);
      }
      var path := GetParentPath("/" + argument);
      var name := GetBasename(argument);
      return Target(path, name);
    }

    method RunMKD(argument: string, env: Env)
      modifies this, db
      ensures var w := old(Here());
              Here() == RunMkd(w, argument, MakeDirectoryAt(w, MkdTarget(w.s.workingDirectory, argument), env))
    {
      if argument == "" {
        Reply2(501, "No arguments presented.");
        return;
      }
      var at := ReadTarget(argument);
      var id := db.CreateObject(login.userid, at.name, at.path, 0, true, env.id, env.now);
      if id == "" {
        Reply2(250, "Failed.");
        return;
      }
      Reply2(250, "Directory created.");
    }

    method RunRMD(argument: string)
      modifies this, db
      ensures var w := old(Here());
              Here() == RunRemove(w, argument, RmdTarget(w.s.workingDirectory, argument))
    {
      if argument == "" {
        Reply2(501, "No arguments presented.");
        return;
      }
      var objectPath, objectName;
      var segments := StringSplit(argument, "/");
      if |segments| == 1 {
        objectPath, objectName := workingDirectory, argument;
      } else if argument[0] != '/' {
        objectPath := GetParentPath("/" + argument);
        objectName := GetBasename(argument);
      } else {
        objectPath := GetParentPath(argument);
        objectName := GetBasename(argument);
      }
      var removed := db.RemoveFsObject(login.userid, objectName, objectPath);
      Reply2(250, "Deleted.");
    }

    method RunDELE(argument: string)
      modifies this, db
      ensures var w := old(Here());
              Here() == RunRemove(w, argument, MkdTarget(w.s.workingDirectory, argument))
    {
      if argument == "" {
        Reply2(501, "No arguments presented.");
        return;
      }
      var at := ReadTarget(argument);
      var removed := db.RemoveFsObject(login.userid, at.name, at.path);
      Reply2(250, "Deleted.");
    }

    method RunSIZE(argument: string)
      modifies this
      ensures var w := old(Here());
              var at := SizeTarget(argument);
              Here() == w.(s := RunSize(w, Lookup(w.db.rows, w.s.login.userid, at.name, at.path)))
    {
      var path := GetParentPath(argument);
      var name := GetBasename(argument);
      var o := db.GetObject(login.userid, name, path);
      if o.id == "" {
        ControlSend(550, "File unavailable.");
        return;
      }
      ControlSend(213, o.size);
    }

    method RunUSER(argument: string)
      modifies this
      ensures var w := old(Here()); Here() == w.(s := RunUser(w, argument))
    {
      if argument == "" {
        Reply2(530, "Invalid username.");
        return;
      }
      var uid := Users.IdByName(users, argument);
      if uid == "" {
        Reply2(530, "Invalid username.");
        return;
      }
      login := login.(userid := uid);
      login := login.(username := argument);
      Reply2(331, "Username okay, password needed.");
    }

    method RunPASS(argument: string)
      modifies this
      ensures var w := old(Here()); Here() == w.(s := RunPass(w, argument))
    {
      if login.userid == "" {
        Reply2(530, "User not found.");
        return;
      }
      if Users.CheckPassword(users, login.userid, argument) {
        login := login.(ok := true);
        Reply2(230, "Logged in.");
        return;
      }
      Reply2(530, "Wrong password.");
    }

    method RunFixed(verb: Verb, argument: string) returns (done: bool)
      modifies this
      ensures var w := old(Here());
              match FixedAnswer(w, verb, argument)
              case None => !done && Here() == w
              case Some(s) => done && Here() == w.(s := s)
    {
      done := true;
      match verb {
        case PWD => Reply2(257, "\"" + workingDirectory + "\"");
        case PASV =>
          var text := Wire.RunPasv(address, port);
          Reply2(227, text);
        case FEAT =>
          ControlSendLines(211, FEATURES);
          ControlReceive();
        case TYPE => Reply2(200, "OK.");
        case PBSZ => Reply2(200, "OK.");
        case PROT => Reply2(200, "OK.");
        case OPTS =>
          if argument == "UTF8 ON" {
            Reply2(200, "Enabled UTF-8 encoding.");
          } else {
            ControlReceive();
          }
        case _ => done := false;
      }
    }

    /** The commands that begin a transfer. */
    method HandleTransfer(verb: Verb, argument: string, env: Env) returns (done: bool)
      modifies this, db
      ensures done == (verb.LIST? || verb.STOR? || verb.RETR?)
      ensures Here() == if done then RunCommand(old(Here()), verb, argument, env) else old(Here())
    {
      done := true;
      if verb == LIST {
        RunLIST(argument);
      } else if verb == STOR {
        RunSTOR(argument, env);
      } else if verb == RETR {
        ParseAndRunRETR(argument, env.opens);
      } else {
        done := false;
      }
    }

    /** The commands that remove. */
    method HandleRemoval(verb: Verb, argument: string, env: Env) returns (done: bool)
      modifies this, db
      ensures done == (verb.RMD? || verb.DELE?)
      ensures Here() == if done then RunCommand(old(Here()), verb, argument, env) else old(Here())
    {
      done := true;
      if verb == RMD {
        RunRMD(argument);
      } else if verb == DELE {
        RunDELE(argument);
      } else {
        done := false;
      }
    }

    /** The commands that move or only answer. */
    method HandleRest(verb: Verb, argument: string, env: Env)
      requires verb !in {LIST, STOR, RETR, MKD, RMD, DELE}
      modifies this
      ensures Here() == RunCommand(old(Here()), verb, argument, env)
    {
      if verb == CDUP {
        RunCDUP();
      } else if verb == CWD {
        RunCWD(argument);
      } else if verb == SIZE {
        RunSIZE(argument);
      } else {
        var done := RunFixed(verb, argument);
      }
    }

    /** The commands that need a login. */
    method HandleLoggedIn(verb: Verb, argument: string, env: Env)
      modifies this, db
      ensures Here() == RunCommand(old(Here()), verb, argument, env)
    {
      var done := HandleTransfer(verb, argument, env);
      if !done {
        done := HandleRemoval(verb, argument, env);
        if !done {
          if verb == MKD {
            RunMKD(argument, env);
          } else {
            HandleRest(verb, argument, env);
          }
        }
      }
    }

    /** The commands that need no login. */
    method HandleOpen(verb: Verb, argument: string) returns (done: bool)
      modifies this
      ensures done == NeedsNoLogin(verb)
      ensures done ==> Here() == RunOpen(old(Here()), verb, argument)
      ensures !done ==> Here() == old(Here())
    {
      done := true;
      if verb == NOTHING {
        return;
      } else if verb == UNSUPPORTED {
        Reply2(502, "Command not implemented.");
      } else if verb == USER {
        RunUSER(argument);
      } else if verb == PASS {
        RunPASS(argument);
      } else if verb == SYST {
        Reply2(215, "UNIX Type: L8");
      } else if verb == QUIT {
        ControlSend(221, "Closing control connection.");
        control := control.(armed := 0);
      } else {
        done := false;
      }
    }

    method Handle(verb: Verb, argument: string, env: Env)
      modifies this, db
      ensures Here() == HandleCommand(old(Here()), verb, argument, env)
    {
      var done := HandleOpen(verb, argument);
      if done {
        return;
      }
      if !login.ok {
        Reply2(530, "Not logged in.");
        return;
      }
      HandleLoggedIn(verb, argument, env);
    }

    /** A control read has completed. */
    method OnCommand(verb: Verb, argument: string, env: Env)
      requires control.armed > 0
      modifies this, db
      ensures Here() == Step(old(Here()), Command(verb, argument, env))
    {
      control := control.(armed := control.armed - 1);
      assert Here() == Taken(old(Here()));
      Handle(verb, argument, env);
    }

    /** The callback of a control read that brought `received` bytes. */
    method OnMessage(buffer: string, received: nat, env: Env)
      requires control.armed > 0 && received <= |buffer|
      modifies this, db
      ensures Here() == Step(old(Here()), Spoken(buffer[..received], env))
    {
      if received <= 2 {
        OnCommand(NOTHING, "", env);
        return;
      }
      var line := Wire.ParseBuffer(buffer, received);
      OnCommand(VerbNamed(line.command), line.argument, env);
    }
  }
}
