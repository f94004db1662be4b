/** What each sync request is answered with on the wire, from the bytes of its payload. */
module Requests {
  import opened Basics
  import opened Message
  import opened SyncCodec
  import opened Receiver
  import opened Sender
  import opened SyncService
  import opened Protocol
  import opened StreamMachine

  /** A FAIL frame with its message. */
  function FailBytes(msg: Text): Body {
    Ascii("FAIL") + LeBytes(|msg|) + msg
  }

  lemma FailSpelled(msg: Text)
    ensures ReplyBytes(FailResponse(msg)) == FailBytes(msg)
  {
    FrameIdsSpellTheirNames();
  }

  lemma OkaySpelled()
    ensures ReplyBytes(OkayResponse()) == Ascii("OKAY") + LeBytes(0)
  {
    FrameIdsSpellTheirNames();
  }

  /** An open sync stream that reads its payloads as requests. */
  predicate TakesRequests(s: Stream) {
    s.Valid() && s.service.Sync? && !s.service.session.state.Receiving?
  }

  /** The payload is acknowledged and answered by one more message; the stream is as it was. */
  ghost predicate AnsweredWith(s: Stream, remote: u32, payload: seq<byte>, env: Env, data: Body)
    requires s.Valid() && LocalLegal(Some(s), HostWrte(remote, payload, env))
  {
    Step(Some(s), HostWrte(remote, payload, env)) == (Some(s), [Ack(remote), Write(s.remoteId, data)])
  }

  lemma ResponseOnStream(s: Stream, remote: u32, payload: seq<byte>, env: Env, result: SyncResult)
    requires TakesRequests(s)
    requires Handle(s.service.session, payload, env.fs) == (s.service.session, result)
    ensures LocalLegal(Some(s), HostWrte(remote, payload, env))
    ensures result.Response? ==> AnsweredWith(s, remote, payload, env, ReplyBytes(result.reply))
    ensures result.Stat? ==> AnsweredWith(s, remote, payload, env, StatBytes(result.stat))
  {
    hide Handle, ReplyBytes, StatBytes;
    if result.Response? {
      assert [Ack(remote)] + [Write(s.remoteId, ReplyBytes(result.reply))]
          == [Ack(remote), Write(s.remoteId, ReplyBytes(result.reply))];
    } else if result.Stat? {
      assert [Ack(remote)] + [Write(s.remoteId, StatBytes(result.stat))]
          == [Ack(remote), Write(s.remoteId, StatBytes(result.stat))];
    }
  }

  // ----- QUIT -----

  /** QUIT, whatever follows it, is acknowledged and closes the stream. */
  lemma QuitCloses(s: Stream, remote: u32, rest: seq<byte>, env: Env)
    requires TakesRequests(s)
    ensures Step(Some(s), HostWrte(remote, Ascii("QUIT") + rest, env)) == (None, [Ack(remote), Close(s.remoteId)])
  {
    hide ParseSyncPacket;
    ParseOfQuit(rest);
    assert [Ack(remote)] + [Close(s.remoteId)] == [Ack(remote), Close(s.remoteId)];
  }

  /** On the connection: one OKAY and one CLSE, the stream is gone and nothing else has changed. */
  lemma QuitOnConnection(c: Conn, h: AdbHeader, rest: seq<byte>, env: Env)
    requires c.Valid() && h.command.Wrte?
    requires h.arg1 in c.streams && TakesRequests(c.streams[h.arg1])
    ensures var e := Command(h, Some(Ascii("QUIT") + rest), env);
            && !Panics(c, e)
            && React(c, e) == (c.Remove(h.arg1),
                               [Send(c.version, Okay, h.arg1, h.arg0, []),
                                Send(c.version, Clse, h.arg1, c.streams[h.arg1].remoteId, [])])
  {
    hide ParseSyncPacket;
    ParseOfQuit(rest);
    var s := c.streams[h.arg1];
    assert [OkayMsg(c, h.arg1, h.arg0)] + [ClseMsg(c, h.arg1, s.remoteId)]
        == [OkayMsg(c, h.arg1, h.arg0), ClseMsg(c, h.arg1, s.remoteId)];
  }

  // ----- Requests answered at once -----

  /** What is no request is refused. */
  lemma NoRequestRefused(s: Stream, remote: u32, payload: seq<byte>, env: Env)
    requires TakesRequests(s) && !IsRequest(payload)
    ensures LocalLegal(Some(s), HostWrte(remote, payload, env))
    ensures AnsweredWith(s, remote, payload, env, FailBytes(Ascii("invalid sync request")))
  {
    hide ParseSyncPacket, IsRequest, ReplyBytes, AnsweredWith, FailResponse, FailBytes;
    RequestsExactly(payload);
    FailSpelled(Ascii("invalid sync request"));
    ResponseOnStream(s, remote, payload, env, Response(FailResponse(Ascii("invalid sync request"))));
  }

  /** STAT gives the mode, size and mtime of the file, zeros if there is none. */
  lemma StatIsAnswered(s: Stream, remote: u32, payload: seq<byte>, path: seq<byte>, rest: seq<byte>, env: Env)
    requires TakesRequests(s) && PathForm(payload, Ascii("STAT"), path, rest)
    ensures LocalLegal(Some(s), HostWrte(remote, payload, env))
    ensures AnsweredWith(s, remote, payload, env,
              Ascii("STAT") + match env.fs.stat
                              case Found(mode, size, mtime) => LeBytes(mode) + LeBytes(size) + LeBytes(mtime)
                              case NotFound => Zeros(12))
  {
    hide ParseSyncPacket, AnsweredWith, LeBytes, PathRequest;
    PathRequestForm(payload, ID_LSTAT_V1, path, rest);
    ParseOfPathRequest(ID_LSTAT_V1, path, rest);
    var stat := StatOf(env.fs.stat);
    ResponseOnStream(s, remote, payload, env, SyncResult.Stat(stat));
    RequestIdsSpellTheirNames();
    LeZero();
    assert StatBytes(stat) == Ascii("STAT") + (LeBytes(stat.mode) + LeBytes(stat.size) + LeBytes(stat.mtime));
    assert env.fs.stat.NotFound? ==> LeBytes(0) + LeBytes(0) + LeBytes(0) == Zeros(12);
  }

  lemma LeZero()
    ensures LeBytes(0) == Zeros(4)
  {
  }

  lemma PathRequestForm(payload: seq<byte>, id: u32, path: seq<byte>, rest: seq<byte>)
    requires id == ID_LSTAT_V1 || id == ID_RECV_V1
    requires PathForm(payload, if id == ID_LSTAT_V1 then Ascii("STAT") else Ascii("RECV"), path, rest)
    ensures payload == PathRequest(id, path) + rest
  {
    hide LeBytes;
    RequestIdsSpellTheirNames();
  }

  /** RECV of a file that cannot be opened. */
  lemma RecvRefused(s: Stream, remote: u32, payload: seq<byte>, path: seq<byte>, rest: seq<byte>, env: Env)
    requires TakesRequests(s) && PathForm(payload, Ascii("RECV"), path, rest) && env.fs.open.OpenFailed?
    ensures LocalLegal(Some(s), HostWrte(remote, payload, env))
    ensures AnsweredWith(s, remote, payload, env, FailBytes(env.fs.open.msg))
  {
    hide ParseSyncPacket, AnsweredWith, LeBytes, PathRequest, ReplyBytes, FailResponse, FailBytes;
    PathRequestForm(payload, ID_RECV_V1, path, rest);
    ParseOfPathRequest(ID_RECV_V1, path, rest);
    FailSpelled(env.fs.open.msg);
    ResponseOnStream(s, remote, payload, env, Response(FailResponse(env.fs.open.msg)));
  }

  /** SEND of a file that cannot be created; the frames behind the request are dropped. */
  lemma SendRefused(s: Stream, remote: u32, payload: seq<byte>, path: seq<byte>, digits: seq<byte>, junk: seq<byte>,
                    rest: seq<byte>, env: Env)
    requires TakesRequests(s) && SendForm(payload, path, digits, junk, rest) && env.fs.create.CreateFailed?
    ensures LocalLegal(Some(s), HostWrte(remote, payload, env))
    ensures AnsweredWith(s, remote, payload, env, FailBytes(env.fs.create.msg))
  {
    hide ParseSyncPacket, SendForm, AnsweredWith, ReplyBytes, FailResponse, FailBytes;
    ParseOfSendForm(payload, path, digits, junk, rest);
    FailSpelled(env.fs.create.msg);
    ResponseOnStream(s, remote, payload, env, Response(FailResponse(env.fs.create.msg)));
  }

  // ----- Frames of a pull -----

  /** The next frame of a file of which pos bytes have been sent: up to 64 KiB of what is left, DONE
      at its end, FAIL if it cannot be read. */
  predicate FrameFor(data: seq<byte>, contents: seq<byte>, pos: nat, a: ReadAnswer)
    requires pos <= |contents|
  {
    match a
    case ReadFailed(msg) => data == FailBytes(msg)
    case Bytes(_) =>
      if pos == |contents| then data == Ascii("DONE") + LeBytes(0)
      else
        var n := |data| - 8;
        && 0 < n <= 64 * 1024 && pos + n <= |contents|
        && data == Ascii("DATA") + LeBytes(n) + contents[pos..pos + n]
  }

  lemma NextFrameSpelled(sender: Sender, a: ReadAnswer)
    requires sender.Valid() && !sender.done
    ensures NextFrame(sender, a).1.Some?
    ensures FrameFor(ReplyBytes(NextFrame(sender, a).1.value), sender.contents, sender.pos, a)
  {
    hide LeBytes, Ascii;
    FrameIdsSpellTheirNames();
  }

  /** RECV of a file that can be opened is answered with the first frame of it. */
  lemma RecvStarts(s: Stream, remote: u32, payload: seq<byte>, path: seq<byte>, rest: seq<byte>, env: Env)
      returns (s': Stream, data: Body)
    requires TakesRequests(s) && !s.waitingForOkay
    requires PathForm(payload, Ascii("RECV"), path, rest) && env.fs.open.Opened?
    ensures Step(Some(s), HostWrte(remote, payload, env)) == (Some(s'), [Ack(remote), Write(s.remoteId, data)])
    ensures FrameFor(data, env.fs.open.contents, 0, env.fs.read) && s'.waitingForOkay
  {
    hide ParseSyncPacket, LeBytes, PathRequest, ReplyBytes, NextFrame, FrameFor;
    PathRequestForm(payload, ID_RECV_V1, path, rest);
    ParseOfPathRequest(ID_RECV_V1, path, rest);
    var sender := Sender(env.fs.open.contents, 0, false);
    NextFrameSpelled(sender, env.fs.read);
    var r := NextFrame(sender, env.fs.read);
    data := ReplyBytes(r.1.value);
    s' := s.(service := Sync(s.service.session.(state := Sending(r.0))), waitingForOkay := true);
    assert [Ack(remote)] + [Write(s.remoteId, data)] == [Ack(remote), Write(s.remoteId, data)];
  }

  /** Each OKAY is answered with the next frame. */
  lemma OkayContinues(s: Stream, env: Env) returns (s': Stream, data: Body)
    requires s.Valid() && s.service.Sync? && s.service.session.state.Sending? && !s.service.session.state.sender.done
    ensures Step(Some(s), HostOkay(env)) == (Some(s'), [Write(s.remoteId, data)])
    ensures var sender := s.service.session.state.sender;
            FrameFor(data, sender.contents, sender.pos, env.fs.read)
    ensures s'.waitingForOkay && s'.service.Sync? && s'.service.session.state.Sending?
    ensures s'.service.session.state.sender.done <==>
              env.fs.read.ReadFailed? || s.service.session.state.sender.pos == |s.service.session.state.sender.contents|
  {
    hide ReplyBytes, FrameFor;
    var session := s.service.session;
    NextFrameSpelled(session.state.sender, env.fs.read);
    var r := NextFrame(session.state.sender, env.fs.read);
    data := ReplyBytes(r.1.value);
    s' := s.(service := Sync(session.(state := Sending(r.0))), waitingForOkay := true);
  }

  /** The OKAY for the last frame, DONE or FAIL, ends the transfer in silence. */
  lemma OkayEnds(s: Stream, env: Env)
    requires s.Valid() && s.service.Sync? && s.service.session.state.Sending? && s.service.session.state.sender.done
    ensures Step(Some(s), HostOkay(env))
            == (Some(s.(service := Sync(Session(Idle, s.service.session.finished)), waitingForOkay := false)), [])
  {
  }

  // ----- What closes a stream -----

  /** All that can close an open stream. */
  predicate Closes(s: Stream, e: LocalEvent) {
    match e
    case HostOkay(_) => false
    case HostClse(_) => !s.service.Forward?
    case PtyDone(res) => res.Ended?
    case SocketDone(res) => res.Ended?
    case HostWrte(_, payload, env) =>
      match s.service
      case Sync(session) => !session.state.Receiving? && Ascii("QUIT") <= payload
      case Shell(_) => env.write.FailsAfter? && env.write.n < |payload|
      case Forward(_, _) => env.write.FailsAfter? && env.write.n < |payload|
      case Reboot => false
  }

  /** A stream is closed exactly by an end or error of its back end, a write into it that fails, a
      QUIT, or a host CLSE unless it forwards; and the host is told last. */
  lemma ClosesExactly(s: Stream, e: LocalEvent)
    requires s.Valid() && LocalLegal(Some(s), e)
    ensures Step(Some(s), e).0.None? <==> Closes(s, e)
    ensures Closes(s, e) ==>
      Step(Some(s), e).1 == (if e.HostWrte? then [Ack(e.remote)] else []) + [Close(s.remoteId)]
  {
    hide ParseSyncPacket, Feed, NextFrame, StatBytes, ReplyBytes;
    if e.HostWrte? {
      QuitExactly(e.payload);
    }
    assert [] + [Close(s.remoteId)] == [Close(s.remoteId)];
  }

  /** A host CLSE leaves a forward stream open with its write side shut down, and sends nothing. */
  lemma ClseShutsForward(s: Stream, remote: u32)
    requires s.service.Forward? && s.remoteId == remote
    ensures Step(Some(s), HostClse(remote))
            == (Some(Stream(remote, Forward(s.service.sent, true), s.waitingForOkay, true)), [])
  {
  }
}
