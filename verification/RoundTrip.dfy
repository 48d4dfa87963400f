/** Storing a file and retrieving it gives its bytes back, however the upload is cut into
    reads (src/ftp/base_session.cpp:600-770, src/ftp/insecure_session.cpp:107-269). */
module RoundTrip {
  import opened Paths
  import opened FsTable
  import opened FsLaws
  import opened FsRuns
  import opened Navigation
  import opened SessionSpec

  lemma {:induction false} StepsAppend(w: World, a: seq<Event>, b: seq<Event>)
    ensures Steps(w, a + b) == Steps(Steps(w, a), b)
    decreases |a|
  {
    if a == [] {
      assert a + b == b;
    } else {
      var e, rest := a[0], a[1..];
      assert (a + b)[0] == e && (a + b)[1..] == rest + b;
      StepsAppend(Step(w, e), rest, b);
    }
  }

  // ----- receiving -----

  function All(parts: seq<seq<Byte>>): seq<Byte> {
    if parts == [] then [] else parts[0] + All(parts[1..])
  }

  /** Reads that deliver the parts one after another, with every write taking all there is;
      `left` is how much the buffer holds. */
  function Feed(parts: seq<seq<Byte>>, left: nat, now: string): seq<Event> {
    if parts == [] then []
    else
      [Received(parts[0], Success, left + |parts[0]|, now)] +
      Feed(parts[1..], if parts[0] == [] then left else 0, now)
  }

  /** What a file gets of the bytes an upload brings: those left in the buffer come first, if
      anything comes at all. */
  function Uploaded(left: seq<Byte>, bytes: seq<Byte>): seq<Byte> {
    if bytes == [] then [] else left + bytes
  }

  function LeftAfter(left: seq<Byte>, bytes: seq<Byte>): seq<Byte> {
    if bytes == [] then left else []
  }

  function Fed(w: World, id: string, bytes: seq<Byte>): World
    requires id in w.db.blobs
  {
    w.(s := w.s.(up := w.s.up.(size := w.s.up.size + |bytes|), unread := LeftAfter(w.s.unread, bytes)),
       db := w.db.(blobs := w.db.blobs[id := w.db.blobs[id] + Uploaded(w.s.unread, bytes)]))
  }

  predicate Receiving(w: World, id: string) {
    w.s.up.stream == RecvStream.Recv(Some(id)) && w.s.data.recvOps == 1 && id in w.db.blobs
  }

  lemma WriteNothing(b: Blobs, id: string)
    requires id in b
    ensures b[id := b[id] + []] == b
  {
    assert b[id] + [] == b[id];
  }

  lemma ReadOnce(w: World, id: string, part: seq<Byte>, now: string)
    requires Receiving(w, id)
    ensures Step(w, Received(part, Success, |w.s.unread| + |part|, now)) == Fed(w, id, part)
  {
    TakesAll(w.s.unread, part);
    WriteNothing(w.db.blobs, id);
  }

  lemma TakesAll(unread: seq<Byte>, part: seq<Byte>)
    ensures var all := unread + part;
            Prefix(all, |unread| + |part|) == all && Rest(all, |unread| + |part|) == [] && unread + [] == unread
  {
  }

  lemma FedTwice(w: World, id: string, a: seq<Byte>, b: seq<Byte>)
    requires id in w.db.blobs
    ensures Fed(Fed(w, id, a), id, b) == Fed(w, id, a + b)
  {
    var blob, u := w.db.blobs[id], w.s.unread;
    if a == [] {
      assert a + b == b;
      WriteNothing(w.db.blobs, id);
    } else {
      assert blob + Uploaded(u, a) + Uploaded([], b) == blob + Uploaded(u, a + b);
      assert w.db.blobs[id := blob + Uploaded(u, a)][id := blob + Uploaded(u, a) + Uploaded([], b)]
          == w.db.blobs[id := blob + Uploaded(u, a + b)];
    }
  }

  /** However the bytes are cut, the blob grows by all of them and the counter by their number. */
  lemma {:induction false} ReadAll(w: World, id: string, parts: seq<seq<Byte>>, now: string)
    requires Receiving(w, id)
    ensures Steps(w, Feed(parts, |w.s.unread|, now)) == Fed(w, id, All(parts))
    decreases |parts|
  {
    if parts == [] {
      WriteNothing(w.db.blobs, id);
    } else {
      FeedSteps(w, id, parts, now);
      ReadAll(Fed(w, id, parts[0]), id, parts[1..], now);
      FedTwice(w, id, parts[0], All(parts[1..]));
    }
  }

  lemma FeedSteps(w: World, id: string, parts: seq<seq<Byte>>, now: string)
    requires Receiving(w, id) && parts != []
    ensures var v := Fed(w, id, parts[0]);
            Receiving(v, id) &&
            Steps(w, Feed(parts, |w.s.unread|, now)) == Steps(v, Feed(parts[1..], |v.s.unread|, now))
  {
    var e := Received(parts[0], Success, |w.s.unread| + |parts[0]|, now);
    var rest := Feed(parts[1..], |LeftAfter(w.s.unread, parts[0])|, now);
    ReadOnce(w, id, parts[0], now);
    assert ([e] + rest)[0] == e && ([e] + rest)[1..] == rest;
  }

  function Landed(w: World): World {
    w.(s := w.s.(data := w.s.data.(recvOps := 0)))
  }

  /** The last read, which finds the end of the data. */
  function LastRead(part: seq<Byte>, left: nat, now: string): Event {
    Received(part, Eof, left + |part|, now)
  }

  lemma ReadLast(w: World, id: string, part: seq<Byte>, now: string)
    requires Receiving(w, id)
    ensures Step(w, LastRead(part, |w.s.unread|, now)) == ReceiveEnd(Landed(Fed(w, id, part)), now)
  {
    TakesAll(w.s.unread, part);
    WriteNothing(w.db.blobs, id);
  }

  /** All reads of an upload, when the buffer holds `left` bytes at its start. */
  function Reads(parts: seq<seq<Byte>>, last: seq<Byte>, left: nat, now: string): seq<Event> {
    Feed(parts, left, now) + [LastRead(last, if All(parts) == [] then left else 0, now)]
  }

  /** A whole upload, from the opened stream to the 226. */
  lemma ReadToEnd(w: World, id: string, parts: seq<seq<Byte>>, last: seq<Byte>, now: string)
    requires Receiving(w, id)
    ensures Steps(w, Reads(parts, last, |w.s.unread|, now)) == ReceiveEnd(Landed(Fed(w, id, All(parts) + last)), now)
  {
    var v := Fed(w, id, All(parts));
    var end := LastRead(last, |v.s.unread|, now);
    StepsAppend(w, Feed(parts, |w.s.unread|, now), [end]);
    ReadAll(w, id, parts, now);
    ReadLast(v, id, last, now);
    FedTwice(w, id, All(parts), last);
    assert [end][1..] == [];
  }

  // ----- sending -----

  /** What has gone out and the buffer on its way make up what has been read; the end of the
      file is noticed by a short read. */
  predicate Sending(s: Session, content: seq<Byte>) {
    var f := s.down.stream;
    && f.Send? && f.content == content && !f.broken && f.pos <= |content|
    && s.down.sent + s.down.chunk == content[..f.pos]
    && (f.eof ==> f.pos == |content|)
    && s.data.sendOps == 1
  }

  function WritesLeft(s: Session): nat
    requires s.down.stream.Send? && s.down.stream.pos <= |s.down.stream.content|
  {
    var f := s.down.stream;
    if f.eof then 1 else (|f.content| - f.pos) / SEND_BUFFER_SIZE + 2
  }

  /** Every write completes in full. */
  function Deliver(w: World, k: nat): World
    decreases k
  {
    if k == 0 then w else Deliver(Step(w, Delivered(Success, |w.s.down.chunk|)), k - 1)
  }

  lemma SendNextKeeps(s: Session, content: seq<Byte>)
    requires s.down.stream.Send? && s.down.stream.content == content && !s.down.stream.broken && !s.down.stream.eof
    requires s.down.stream.pos <= |content| && s.data.sendOps == 0 && s.down.sent == content[..s.down.stream.pos]
    ensures Sending(SendNext(s), content)
    ensures WritesLeft(SendNext(s)) == (|content| - s.down.stream.pos) / SEND_BUFFER_SIZE + 1
  {
    var p, n := s.down.stream.pos, Min(|content| - s.down.stream.pos, SEND_BUFFER_SIZE);
    assert content[..p] + content[p..p + n] == content[..p + n];
    OneBufferLess(|content| - p);
  }

  lemma OneBufferLess(left: nat)
    ensures left < SEND_BUFFER_SIZE ==> left / SEND_BUFFER_SIZE == 0
    ensures left >= SEND_BUFFER_SIZE ==> (left - SEND_BUFFER_SIZE) / SEND_BUFFER_SIZE == left / SEND_BUFFER_SIZE - 1
  {
  }

  /** A completed write: the last one ends the transfer, any other starts the next. */
  lemma WriteOnce(w: World, content: seq<Byte>)
    requires Sending(w.s, content)
    ensures var v := Step(w, Delivered(Success, |w.s.down.chunk|));
            if w.s.down.stream.eof then
              v.s.down.stream.NoSend? && v.s.down.sent == content && v.s.data.sendOps == 0
            else Sending(v.s, content) && WritesLeft(v.s) == WritesLeft(w.s) - 1
  {
    var s := w.s;
    assert Prefix(s.down.chunk, |s.down.chunk|) == s.down.chunk;
    assert content[..|content|] == content;
    if !s.down.stream.eof {
      SendNextKeeps(s.(data := s.data.(sendOps := 0), down := s.down.(sent := s.down.sent + s.down.chunk)), content);
    }
  }

  /** The loop sends exactly the content, in exactly as many writes as counted. */
  lemma {:induction false} WriteAll(w: World, content: seq<Byte>, k: nat)
    requires Sending(w.s, content)
    ensures var v := Deliver(w, k).s;
            if k < WritesLeft(w.s) then v.down.stream.Send?
            else k == WritesLeft(w.s) ==> v.down.stream.NoSend? && v.down.sent == content
    decreases k
  {
    if k > 0 {
      WriteOnce(w, content);
      if !w.s.down.stream.eof {
        WriteAll(Step(w, Delivered(Success, |w.s.down.chunk|)), content, k - 1);
      }
    }
  }

  /** With errors at any point, partial writes included, what went out is a prefix. */
  lemma WritesArePrefix(w: World, content: seq<Byte>, outcome: Outcome, count: nat)
    requires Sending(w.s, content) && Enabled(w, Delivered(outcome, count))
    ensures var v := Step(w, Delivered(outcome, count)).s;
            && v.down.sent <= content && |v.down.sent| == |w.s.down.sent| + count
            && (v.down.stream.NoSend? || Sending(v, content))
  {
    var s := w.s;
    var part := Prefix(s.down.chunk, count);
    assert s.down.sent + part == (s.down.sent + s.down.chunk)[..|s.down.sent| + |part|];
    if outcome == Success {
      WriteOnce(w, content);
    }
  }

  // ----- a transfer over a new connection -----

  /** Logged in, nothing pending, no data operation in flight, no connection. */
  predicate Idle(w: World) {
    && w.s.login.ok
    && w.s.pending.list == "" && w.s.pending.write == "" && w.s.pending.id == ""
    && !w.s.data.open && w.s.data.listOps == 0 && w.s.data.recvOps == 0 && w.s.data.sendOps == 0
    && w.backlog == 0
  }

  /** The command, then the connection and its accept: the order of a client that waits for
      the 150. Or, `late`, the connection first, taken by an accept a failed RETR left. */
  function Opening(verb: Verb, arg: string, first: Env, second: Env, late: bool): seq<Event> {
    if late then [Connected, Accepted(second), Command(verb, arg, first)]
    else [Command(verb, arg, first), Connected, Accepted(second)]
  }

  /** The event that opens the file is the second of command and accept. */
  function Opener(first: Env, second: Env, late: bool): Env {
    if late then first else second
  }

  lemma StepsThree(w: World, a: Event, b: Event, c: Event)
    ensures Steps(w, [a, b, c]) == Step(Step(Step(w, a), b), c)
  {
    assert [a, b, c][1..] == [b, c] && [b, c][1..] == [c] && [c][1..] == [];
    assert Steps(Step(Step(w, a), b), [c]) == Step(Step(Step(w, a), b), c);
    assert Steps(Step(w, a), [b, c]) == Steps(Step(Step(w, a), b), [c]);
  }

  /** The part of the state a transfer does not touch. */
  predicate SameClient(w: World, v: World) {
    v.s.login == w.s.login && v.s.workingDirectory == w.s.workingDirectory
  }

  /** A connection accepted with nothing pending. */
  lemma Joins(w: World, env: Env)
    requires Idle(w)
    ensures var v := Step(Step(w, Connected), Accepted(env));
            v == w.(s := w.s.(data := w.s.data.(accepts := Dec(w.s.data.accepts), open := true)))
  {
  }

  /** The upload has begun on what OpenUpload opened. */
  predicate StoreBegan(w: World, v: World, file: string, env: Env) {
    var o := OpenUpload(w.db, w.s.login.userid, Basename(file), ParentPath(file), env.id, env.now, env.opens);
    && SameClient(w, v) && v.db == o.store && v.backlog == 0 && v.s.unread == w.s.unread
    && v.s.pending.list == "" && v.s.pending.id == "" && v.s.data.listOps == 0 && v.s.data.sendOps == 0
    && v.s.up == SessionSpec.Upload(Basename(file), ParentPath(file), o.size, Recv(o.target))
    && v.s.data.recvOps == (if o.target.Some? then 1 else 0)
  }

  lemma StorOpens(w: World, arg: string, first: Env, second: Env, late: bool)
    requires Idle(w) && arg != "" && !StorParentMissing(w, StorFile(w.s.workingDirectory, arg))
    ensures StoreBegan(w, Steps(w, Opening(STOR, arg, first, second, late)), StorFile(w.s.workingDirectory, arg),
                       Opener(first, second, late))
  {
    if late {
      StorOpensLate(w, arg, first, second);
    } else {
      StorOpensEarly(w, arg, first, second);
    }
  }

  lemma StorOpensLate(w: World, arg: string, first: Env, second: Env)
    requires Idle(w) && arg != "" && !StorParentMissing(w, StorFile(w.s.workingDirectory, arg))
    ensures StoreBegan(w, Steps(w, Opening(STOR, arg, first, second, true)), StorFile(w.s.workingDirectory, arg), first)
  {
    var v := Step(Step(w, Connected), Accepted(second));
    StepsThree(w, Connected, Accepted(second), Command(STOR, arg, first));
    Joins(w, second);
    StorLate(Taken(v), arg, StorFile(w.s.workingDirectory, arg), first);
  }

  lemma StorOpensEarly(w: World, arg: string, first: Env, second: Env)
    requires Idle(w) && arg != "" && !StorParentMissing(w, StorFile(w.s.workingDirectory, arg))
    ensures StoreBegan(w, Steps(w, Opening(STOR, arg, first, second, false)), StorFile(w.s.workingDirectory, arg),
                       second)
  {
    var file := StorFile(w.s.workingDirectory, arg);
    StepsThree(w, Command(STOR, arg, first), Connected, Accepted(second));
    StorSteps(w, arg, file, first);
    AcceptUpload(w, Step(Step(w, Command(STOR, arg, first)), Connected), file, second);
  }

  lemma StorLate(w: World, arg: string, file: string, env: Env)
    requires Idle(w.(s := CloseData(w.s))) && w.s.data.open && arg != "" && !StorParentMissing(w, file)
    ensures StoreBegan(w, RunStor(w, arg, file, env), file, env)
  {
    LateBegins(w.(s := w.s.(pending := w.s.pending.(write := file))), env);
  }

  lemma LateBegins(w: World, env: Env)
    requires w.s.data.open && w.s.pending.list == "" && w.s.pending.id == "" && w.backlog == 0
    requires w.s.data.listOps == 0 && w.s.data.recvOps == 0 && w.s.data.sendOps == 0
    ensures StoreBegan(w, BeginStor(w, env), w.s.pending.write, env)
  {
  }

  lemma StorSteps(w: World, arg: string, file: string, first: Env)
    requires Idle(w) && arg != "" && file == StorFile(w.s.workingDirectory, arg) && !StorParentMissing(w, file)
    ensures var v := Step(Step(w, Command(STOR, arg, first)), Connected);
            && SameClient(w, v) && v.db == w.db && v.backlog == 1 && v.s.unread == w.s.unread
            && v.s.pending == w.s.pending.(write := file) && v.s.pending.write != ""
            && v.s.data.listOps == 0 && v.s.data.recvOps == 0 && v.s.data.sendOps == 0
  {
    StorWaits(Taken(w), arg, file, first);
  }

  lemma StorWaits(w: World, arg: string, file: string, env: Env)
    requires Idle(w) && arg != "" && file != "" && !StorParentMissing(w, file)
    ensures var v := RunStor(w, arg, file, env);
            && SameClient(w, v) && v.db == w.db && v.backlog == 0 && v.s.unread == w.s.unread
            && v.s.pending == w.s.pending.(write := file) && !v.s.data.open
            && v.s.data.listOps == 0 && v.s.data.recvOps == 0 && v.s.data.sendOps == 0
  {
  }

  lemma AcceptUpload(w: World, u: World, file: string, env: Env)
    requires Idle(w) && file != "" && SameClient(w, u) && u.db == w.db && u.backlog == 1 && u.s.unread == w.s.unread
    requires u.s.pending == w.s.pending.(write := file)
    requires u.s.data.listOps == 0 && u.s.data.recvOps == 0 && u.s.data.sendOps == 0
    ensures StoreBegan(w, Step(u, Accepted(env)), file, env)
  {
  }

  /** What the stream of an upload is opened on: a row of that name with an empty file. */
  lemma OpenedOnEmpty(s: Store, user: string, name: string, path: string, id: Uuid, now: string)
    requires Distinct(s.rows)
    requires Lookup(s.rows, user, name, path).Some? ||
             (CanCreate(s.rows, user, name, path) && id !in Ids(s.rows) && id !in s.blobs &&
              !HeldByAnother(s.rows, user, name, path))
    ensures var o := OpenUpload(s, user, name, path, id, now, true);
            && o.target.Some? && o.target.value in o.store.blobs && o.store.blobs[o.target.value] == []
            && Distinct(o.store.rows)
            && Lookup(o.store.rows, user, name, path).Some?
            && Lookup(o.store.rows, user, name, path).value.id == o.target.value
  {
    if Lookup(s.rows, user, name, path).None? {
      CreatedIdIsLive(s.rows, user, name, path, 0, false, id, now);
      CreateDistinct(s.rows, user, name, path, 0, false, id, now);
    }
  }

  lemma LookupAfterResize(rows: Rows, user: string, name: string, path: string, size: nat, now: string)
    requires Distinct(rows) && Lookup(rows, user, name, path).Some?
    ensures var o := Lookup(rows, user, name, path).value;
            Lookup(Resize(rows, user, name, path, size, now).0, user, name, path) ==
            Some(o.(size := size, modified := now))
  {
    LookupFacts(rows, user, name, path);
    var o := Lookup(rows, user, name, path).value;
    var i :| 0 <= i < |rows| && rows[i] == o;
    var after := SetSize(rows, o.id, size, now);
    SetSizeDistinct(rows, o.id, size, now);
    assert after[i] in after;
    LookupFinds(after, after[i]);
  }

  /** A whole STOR: the parts one by one, the last with the end of the data. */
  function StoreEvents(arg: string, first: Env, second: Env, late: bool, parts: seq<seq<Byte>>, last: seq<Byte>,
                       left: nat, now: string)
    : seq<Event>
  {
    Opening(STOR, arg, first, second, late) + Reads(parts, last, left, now)
  }

  /** Some object of the user is where the parent of a path should be. */
  predicate ParentThere(w: World, path: string) {
    path == "/" ||
    exists d :: d in w.db.rows && d.user == w.s.login.userid && d.name == Basename(path) && d.path == ParentPath(path)
  }

  /** STOR can succeed: the object is there, with its parent, or can be created with an id not
      in use and a pair no other user holds. */
  predicate CanStore(w: World, arg: string, id: Uuid) {
    var at, user := StorTarget(w.s.workingDirectory, arg), w.s.login.userid;
    || (Lookup(w.db.rows, user, at.name, at.path).Some? && ParentThere(w, at.path))
    || (CanCreate(w.db.rows, user, at.name, at.path) && id !in Ids(w.db.rows) && id !in w.db.blobs &&
        !HeldByAnother(w.db.rows, user, at.name, at.path))
  }

  /** The check of the parent lets pass exactly the files whose parent is there. */
  lemma ParentIsChecked(w: World, file: string)
    ensures StorParentMissing(w, file) <==> !ParentThere(w, ParentPath(file))
  {
    var parent := ParentPath(file);
    LookupFacts(w.db.rows, w.s.login.userid, Basename(parent), ParentPath(parent));
  }

  lemma StorePasses(w: World, arg: string, id: Uuid)
    requires CanStore(w, arg, id)
    ensures !StorParentMissing(w, StorFile(w.s.workingDirectory, arg))
  {
    var path := StorTarget(w.s.workingDirectory, arg).path;
    ParentIsChecked(w, StorFile(w.s.workingDirectory, arg));
    LookupFacts(w.db.rows, w.s.login.userid, Basename(path), ParentPath(path));
  }

  /** The object is in the table and its file holds these bytes. */
  predicate Holds(w: World, at: Target, bytes: seq<Byte>) {
    var found := Lookup(w.db.rows, w.s.login.userid, at.name, at.path);
    found.Some? && found.value.id in w.db.blobs && w.db.blobs[found.value.id] == bytes
  }

  /** The stream of an upload is open on the empty file of its object. */
  predicate StoreOpen(w: World, at: Target) {
    && w.s.up.stream.Recv? && w.s.up.stream.target.Some?
    && w.s.data.recvOps == 1 && w.s.data.listOps == 0 && w.s.data.sendOps == 0
    && w.s.pending.list == "" && w.s.pending.id == "" && w.backlog == 0
    && w.s.up.name == at.name && w.s.up.path == at.path
    && Distinct(w.db.rows)
    && Holds(w, at, [])
    && Lookup(w.db.rows, w.s.login.userid, at.name, at.path).value.id == w.s.up.stream.target.value
  }

  lemma StorReady(w: World, arg: string, first: Env, second: Env, late: bool)
    requires Idle(w) && arg != "" && Distinct(w.db.rows)
    requires Opener(first, second, late).opens && CanStore(w, arg, Opener(first, second, late).id)
    ensures var v := Steps(w, Opening(STOR, arg, first, second, late));
            SameClient(w, v) && StoreOpen(v, StorTarget(w.s.workingDirectory, arg)) && v.s.unread == w.s.unread
  {
    var at, env := StorTarget(w.s.workingDirectory, arg), Opener(first, second, late);
    StorePasses(w, arg, env.id);
    StorOpens(w, arg, first, second, late);
    OpenedOnEmpty(w.db, w.s.login.userid, at.name, at.path, env.id, env.now);
  }

  lemma StoreCloses(w: World, at: Target, bytes: seq<Byte>, now: string)
    requires StoreOpen(w, at) && w.s.login.ok
    ensures var v := ReceiveEnd(Landed(Fed(w, w.s.up.stream.target.value, bytes)), now);
            SameClient(w, v) && Idle(v) && Holds(v, at, Uploaded(w.s.unread, bytes)) &&
            v.s.unread == LeftAfter(w.s.unread, bytes) && Distinct(v.db.rows)
  {
    var id := w.s.up.stream.target.value;
    assert [] + Uploaded(w.s.unread, bytes) == Uploaded(w.s.unread, bytes);
    LookupAfterResize(w.db.rows, w.s.login.userid, at.name, at.path, w.s.up.size + |bytes|, now);
    ResizeDistinct(w.db.rows, w.s.login.userid, at.name, at.path, w.s.up.size + |bytes|, now);
  }

  /** After a whole STOR in either order the row is there, its file holds what was left in the
      buffer and then what was sent, and the session is idle. */
  lemma Stored(w: World, arg: string, first: Env, second: Env, late: bool, parts: seq<seq<Byte>>, last: seq<Byte>,
               now: string)
    requires Idle(w) && arg != "" && Distinct(w.db.rows)
    requires Opener(first, second, late).opens && CanStore(w, arg, Opener(first, second, late).id)
    ensures var v := Steps(w, StoreEvents(arg, first, second, late, parts, last, |w.s.unread|, now));
            var bytes := All(parts) + last;
            && SameClient(w, v) && Idle(v)
            && Holds(v, StorTarget(w.s.workingDirectory, arg), Uploaded(w.s.unread, bytes))
            && v.s.unread == LeftAfter(w.s.unread, bytes)
  {
    var at := StorTarget(w.s.workingDirectory, arg);
    var open := Opening(STOR, arg, first, second, late);
    var u := Steps(w, open);
    StepsAppend(w, open, Reads(parts, last, |w.s.unread|, now));
    StorReady(w, arg, first, second, late);
    ReadToEnd(u, u.s.up.stream.target.value, parts, last, now);
    StoreCloses(u, at, All(parts) + last, now);
  }

  /** An upload whose first write moves nothing ends there, with an empty file and all it
      brought in the buffer. */
  lemma FailedStore(w: World, arg: string, first: Env, second: Env, late: bool, bytes: seq<Byte>, outcome: Outcome,
                    now: string)
    requires Idle(w) && arg != "" && Distinct(w.db.rows) && bytes != []
    requires Opener(first, second, late).opens && CanStore(w, arg, Opener(first, second, late).id)
    ensures var v := FailStore(w, arg, first, second, late, bytes, outcome, now);
            SameClient(w, v) && Idle(v) && Distinct(v.db.rows) && Holds(v, StorTarget(w.s.workingDirectory, arg), []) &&
            v.s.unread == w.s.unread + bytes
  {
    StorReady(w, arg, first, second, late);
    var at := StorTarget(w.s.workingDirectory, arg);
    FailedWrite(Steps(w, Opening(STOR, arg, first, second, late)), at, bytes, outcome, now);
  }

  function FailStore(w: World, arg: string, first: Env, second: Env, late: bool, bytes: seq<Byte>, outcome: Outcome,
                     now: string): World {
    Step(Steps(w, Opening(STOR, arg, first, second, late)), Received(bytes, outcome, 0, now))
  }

  lemma FailedWrite(w: World, at: Target, bytes: seq<Byte>, outcome: Outcome, now: string)
    requires StoreOpen(w, at) && w.s.login.ok && bytes != []
    ensures var v := Step(w, Received(bytes, outcome, 0, now));
            SameClient(w, v) && Idle(v) && Distinct(v.db.rows) && Holds(v, at, []) && v.s.unread == w.s.unread + bytes
  {
    var all, id := w.s.unread + bytes, w.s.up.stream.target.value;
    assert Prefix(all, 0) == [] && Rest(all, 0) == all;
    WriteNothing(w.db.blobs, id);
    LookupAfterResize(w.db.rows, w.s.login.userid, at.name, at.path, w.s.up.size + |bytes|, now);
    ResizeDistinct(w.db.rows, w.s.login.userid, at.name, at.path, w.s.up.size + |bytes|, now);
  }

  /** RETR of an object, in either order, opens a stream on its bytes. */
  lemma RetrOpens(w: World, arg: string, at: Target, bytes: seq<Byte>, first: Env, second: Env, late: bool)
    requires Idle(w) && arg != "" && Opener(first, second, late).opens && at == RetrTarget(w.s.workingDirectory, arg)
    requires Holds(w, at, bytes)
    ensures var v := Steps(w, Opening(RETR, arg, first, second, late));
            Sending(v.s, bytes) && WritesLeft(v.s) == |bytes| / SEND_BUFFER_SIZE + 1
  {
    var o := Lookup(w.db.rows, w.s.login.userid, at.name, at.path).value;
    if late {
      StepsThree(w, Connected, Accepted(second), Command(RETR, arg, first));
      Joins(w, second);
      RetrLate(Taken(Step(Step(w, Connected), Accepted(second))), arg, at, o, first);
    } else {
      StepsThree(w, Command(RETR, arg, first), Connected, Accepted(second));
      RetrSteps(w, arg, at, o, first);
      AcceptDownload(Step(Step(w, Command(RETR, arg, first)), Connected), second);
    }
  }

  lemma RetrLate(w: World, arg: string, at: Target, o: Row, env: Env)
    requires Idle(w.(s := CloseData(w.s))) && w.s.data.open && arg != "" && env.opens
    requires Lookup(w.db.rows, w.s.login.userid, at.name, at.path) == Some(o) && o.id in w.db.blobs
    ensures var v, content := RunRetr(ParseRetr(w, arg, at), env.opens), w.db.blobs[o.id];
            Sending(v.s, content) && WritesLeft(v.s) == |content| / SEND_BUFFER_SIZE + 1
  {
    var s, content := Say(ParseRetr(w, arg, at).s, 150, "Opening connection."), w.db.blobs[o.id];
    SendNextKeeps(s.(down := Download(Send(content, 0, false, false), s.down.chunk, [])), content);
  }

  lemma RetrSteps(w: World, arg: string, at: Target, o: Row, env: Env)
    requires Idle(w) && arg != "" && at == RetrTarget(w.s.workingDirectory, arg)
    requires Lookup(w.db.rows, w.s.login.userid, at.name, at.path) == Some(o)
    ensures var v := Step(Step(w, Command(RETR, arg, env)), Connected);
            v.s.pending == w.s.pending.(id := o.id) && v.db == w.db && v.s.data.sendOps == 0
  {
    RetrWaits(Taken(w), arg, at, o, env);
  }

  lemma RetrWaits(w: World, arg: string, at: Target, o: Row, env: Env)
    requires Idle(w) && arg != "" && Lookup(w.db.rows, w.s.login.userid, at.name, at.path) == Some(o)
    ensures var v := RunRetr(ParseRetr(w, arg, at), env.opens);
            v.s.pending == w.s.pending.(id := o.id) && v.db == w.db && v.s.data.sendOps == 0
  {
  }

  lemma AcceptDownload(w: World, env: Env)
    requires w.s.pending.list == "" && w.s.pending.write == "" && w.s.pending.id != "" && w.s.pending.id in w.db.blobs
    requires env.opens && w.s.data.sendOps == 0
    ensures var v, content := Step(w, Accepted(env)), w.db.blobs[w.s.pending.id];
            Sending(v.s, content) && WritesLeft(v.s) == |content| / SEND_BUFFER_SIZE + 1
  {
    var s, content := Connect(w).s, w.db.blobs[w.s.pending.id];
    SendNextKeeps(s.(down := Download(Send(content, 0, false, false), s.down.chunk, [])), content);
  }

  /** The send loop from its first buffer on: exactly the bytes, in exactly so many writes. */
  predicate Delivers(w: World, bytes: seq<Byte>, writes: nat) {
    && Deliver(w, writes).s.down.stream.NoSend?
    && Deliver(w, writes).s.down.sent == bytes
    && forall k: nat :: k < writes ==> Deliver(w, k).s.down.stream.Send?
  }

  lemma SendingDelivers(w: World, bytes: seq<Byte>)
    requires Sending(w.s, bytes)
    ensures Delivers(w, bytes, WritesLeft(w.s))
  {
    forall k: nat | k < WritesLeft(w.s)
      ensures Deliver(w, k).s.down.stream.Send?
    {
      WriteAll(w, bytes, k);
    }
    WriteAll(w, bytes, WritesLeft(w.s));
  }

  /** The loop sends one thing only. */
  lemma DeliversOnce(w: World, a: seq<Byte>, m: nat, b: seq<Byte>, n: nat)
    requires Delivers(w, a, m) && Delivers(w, b, n)
    ensures a == b && m == n
  {
  }

  function StoreFile(w: World, arg: string, first: Env, second: Env, late: bool, parts: seq<seq<Byte>>,
                     last: seq<Byte>, now: string): World {
    Steps(w, StoreEvents(arg, first, second, late, parts, last, |w.s.unread|, now))
  }

  function RetrieveFile(w: World, arg: string, first: Env, second: Env, late: bool): World {
    Steps(w, Opening(RETR, arg, first, second, late))
  }

  function WritesFor(bytes: seq<Byte>): nat {
    |bytes| / SEND_BUFFER_SIZE + 1
  }

  /** The arguments STOR and RETR read alike; see StorAndRetrAgree. */
  predicate ReadAlike(wd: string, arg: string) {
    arg != "" && ('/' !in arg || (arg[0] == '/' && |arg| > 1) || wd == "/")
  }

  /** STOR of any bytes in any parts, then RETR of the same single name or absolute path from
      the same directory, each with its connection after or before the command: exactly those
      bytes go out, in length / buffer size + 1 writes, if and only if the buffer was empty
      when the upload started or nothing was sent at all. */
  lemma StoreThenRetrieve(w: World, arg: string, first: Env, second: Env, late: bool, parts: seq<seq<Byte>>,
                          last: seq<Byte>, now: string,
                          third: Env, fourth: Env, lateAgain: bool)
    requires Idle(w) && Distinct(w.db.rows) && Absolute(w.s.workingDirectory)
    requires Opener(first, second, late).opens && Opener(third, fourth, lateAgain).opens
    requires ReadAlike(w.s.workingDirectory, arg) && CanStore(w, arg, Opener(first, second, late).id)
    ensures var bytes := All(parts) + last;
            Delivers(RetrieveFile(StoreFile(w, arg, first, second, late, parts, last, now), arg,
                                  third, fourth, lateAgain),
                     bytes, WritesFor(bytes)) <==>
            w.s.unread == [] || bytes == []
  {
    var v, bytes := StoreFile(w, arg, first, second, late, parts, last, now), All(parts) + last;
    var content := Uploaded(w.s.unread, bytes);
    StorAndRetrAgree(w.s.workingDirectory, arg);
    Stored(w, arg, first, second, late, parts, last, now);
    Retrieved(v, arg, StorTarget(w.s.workingDirectory, arg), content, third, fourth, lateAgain);
    DeliversExactly(RetrieveFile(v, arg, third, fourth, lateAgain), content, bytes);
    UploadedIsSent(w.s.unread, bytes);
  }

  /** RETR of an object, in either order, sends its bytes. */
  lemma Retrieved(w: World, arg: string, at: Target, bytes: seq<Byte>, first: Env, second: Env, late: bool)
    requires Idle(w) && arg != "" && Opener(first, second, late).opens && at == RetrTarget(w.s.workingDirectory, arg)
    requires Holds(w, at, bytes)
    ensures Delivers(RetrieveFile(w, arg, first, second, late), bytes, WritesFor(bytes))
  {
    RetrOpens(w, arg, at, bytes, first, second, late);
    SendingDelivers(RetrieveFile(w, arg, first, second, late), bytes);
  }

  lemma DeliversExactly(r: World, content: seq<Byte>, bytes: seq<Byte>)
    requires Delivers(r, content, WritesFor(content))
    ensures Delivers(r, bytes, WritesFor(bytes)) <==> content == bytes
  {
    if Delivers(r, bytes, WritesFor(bytes)) {
      DeliversOnce(r, content, WritesFor(content), bytes, WritesFor(bytes));
    }
  }

  lemma UploadedIsSent(left: seq<Byte>, bytes: seq<Byte>)
    ensures Uploaded(left, bytes) == bytes <==> left == [] || bytes == []
  {
    if bytes != [] && left != [] {
      assert |left + bytes| > |bytes|;
    }
  }

  /** So one upload whose first write moves nothing spoils the next file that is sent any
      bytes, whatever its name. */
  lemma FailureSpoilsNext(w: World, failed: string, first: Env, second: Env, late: bool, lost: seq<Byte>,
                          outcome: Outcome, now: string,
                          arg: string, third: Env, fourth: Env, lateNext: bool, parts: seq<seq<Byte>>, last: seq<Byte>,
                          fifth: Env, sixth: Env, lateAgain: bool)
    requires Idle(w) && Distinct(w.db.rows) && Absolute(w.s.workingDirectory) && failed != "" && lost != []
    requires Opener(first, second, late).opens && CanStore(w, failed, Opener(first, second, late).id)
    requires var v := FailStore(w, failed, first, second, late, lost, outcome, now);
             CanStore(v, arg, Opener(third, fourth, lateNext).id)
    requires Opener(third, fourth, lateNext).opens && Opener(fifth, sixth, lateAgain).opens
    requires ReadAlike(w.s.workingDirectory, arg) && All(parts) + last != []
    ensures var v := FailStore(w, failed, first, second, late, lost, outcome, now);
            var bytes := All(parts) + last;
            !Delivers(RetrieveFile(StoreFile(v, arg, third, fourth, lateNext, parts, last, now), arg,
                                   fifth, sixth, lateAgain),
                      bytes, WritesFor(bytes))
  {
    var v := FailStore(w, failed, first, second, late, lost, outcome, now);
    FailedStore(w, failed, first, second, late, lost, outcome, now);
    StoreThenRetrieve(v, arg, third, fourth, lateNext, parts, last, now, fifth, sixth, lateAgain);
  }
}
