/** `adb pull` over whole runs of a sync stream, with a host that sends no request while a WRTE is
    unanswered, unless it quits or starts another pull. */
module Pull {
  import opened Basics
  import opened SyncCodec
  import opened Receiver
  import opened Frames
  import opened Sender
  import opened SyncService
  import opened Protocol
  import opened StreamMachine

  /** What an observer outside the daemon knows: WRTEs not yet answered by an OKAY, and about the
      pull begun last, the file, the chunks of the DATA frames seen, every payload byte seen, and
      whether a FAIL frame was among them. */
  datatype Progress = Progress(unacked: nat, file: seq<byte>, chunks: seq<Chunk>, wire: seq<byte>, failed: bool)

  const NOTHING: Progress := Progress(0, [], [], [], false)

  predicate IsFrame(data: seq<byte>, id: u32) {
    |data| >= 8 && data[..4] == LeBytes(id)
  }

  function Observe(g: Progress, o: LocalOut): Progress {
    if !o.Write? then g
    else
      g.(unacked := g.unacked + 1,
         wire := g.wire + o.data,
         chunks := if IsFrame(o.data, ID_DATA) then g.chunks + [o.data[8..]] else g.chunks,
         failed := g.failed || IsFrame(o.data, ID_FAIL))
  }

  function ObserveAll(g: Progress, outs: seq<LocalOut>): Progress
    decreases |outs|
  {
    if outs == [] then g else ObserveAll(Observe(g, outs[0]), outs[1..])
  }

  /** The request is a RECV for a file that can be opened, and is read as a request. */
  predicate StartsPull(s: Session, payload: seq<byte>, fs: FsAnswers) {
    && !s.state.Receiving?
    && ParseSyncPacket(payload).Some? && ParseSyncPacket(payload).value.value.RecvV1?
    && fs.open.Opened?
  }

  /** A RECV that opens its file begins a new pull. */
  function Noted(g: Progress, s: Session, payload: seq<byte>, fs: FsAnswers): Progress {
    if StartsPull(s, payload, fs) then Progress(g.unacked, fs.open.contents, [], [], false) else g
  }

  function Track(g: Progress, st: Slot, e: LocalEvent, outs: seq<LocalOut>): Progress {
    var g1 := match e
              case HostOkay(_) => if g.unacked > 0 then g.(unacked := g.unacked - 1) else g
              case HostWrte(_, payload, env) =>
                if st.Some? && st.value.service.Sync? then Noted(g, st.value.service.session, payload, env.fs) else g
              case _ => g;
    ObserveAll(g1, outs)
  }

  predicate IsSending(st: Slot) {
    st.Some? && st.value.service.Sync? && st.value.service.session.state.Sending?
  }

  predicate Quits(payload: seq<byte>) {
    ParseSyncPacket(payload).Some? && ParseSyncPacket(payload).value.value.Quit?
  }

  /** The payload is met with silence: part of a push that does not end it, or QUIT. */
  predicate Silent(session: Session, payload: seq<byte>, fs: FsAnswers)
    requires session.Valid()
  {
    if session.state.Receiving? then Feed(session.state.receiver, payload).More?
    else
      match ParseSyncPacket(payload)
      case Some(Parsed(Quit, _)) => true
      case Some(Parsed(SendV1(_, mode), leftover)) =>
        fs.create.Created? && Feed(Receiver(EMPTY_FILE, fs.create.disk, mode, Header), leftover).More?
      case _ => false
  }

  /** The host sends a request only when it has answered every WRTE, unless the request is met with
      silence. While a file is being sent it may only quit, or start another pull instead. */
  predicate Disciplined(st: Slot, g: Progress, e: LocalEvent)
    requires ValidSlot(st)
  {
    match e
    case HostWrte(_, payload, env) =>
      st.None? || g.unacked == 0 || !st.value.service.Sync?
      || (if IsSending(st) then Quits(payload) || StartsPull(st.value.service.session, payload, env.fs)
          else Silent(st.value.service.session, payload, env.fs))
    case _ => true
  }

  /** The frames seen so far carry a prefix of the file, and the DONE frame comes after all of it. */
  predicate Pulled(s: Sender, g: Progress) {
    && g.file == s.contents && s.Valid()
    && Concat(g.chunks) == s.contents[..s.pos]
    && (!g.failed ==>
          && g.wire == DataFrames(g.chunks) + (if s.done then DoneFrame(0) else [])
          && (s.done ==> s.pos == |s.contents|))
  }

  /** At most one WRTE is unanswered; the flag is set exactly while a file is being sent. */
  predicate PullInv(st: Slot, g: Progress) {
    && g.unacked <= 1
    && (st.Some? ==>
          && st.value.service.Sync?
          && (st.value.waitingForOkay <==> IsSending(st))
          && (IsSending(st) ==> g.unacked == 1 && Pulled(st.value.service.session.state.sender, g)))
  }

  // ----- One frame -----

  lemma FrameKinds(r: Reply)
    ensures IsFrame(ReplyBytes(r), ID_DATA) <==> r.hdr.id.ReplyData?
    ensures IsFrame(ReplyBytes(r), ID_FAIL) <==> r.hdr.id.ReplyFail?
    ensures ReplyBytes(r)[8..] == r.payload
  {
    LeU32OfLeBytes(ReplyCode(r.hdr.id));
    LeU32OfLeBytes(ID_DATA);
    LeU32OfLeBytes(ID_FAIL);
    assert ReplyBytes(r)[..4] == LeBytes(ReplyCode(r.hdr.id));
  }

  lemma ChunksAppend(chunks: seq<Chunk>, chunk: Chunk)
    ensures DataFrames(chunks + [chunk]) == DataFrames(chunks) + DataFrame(chunk)
    ensures Concat(chunks + [chunk]) == Concat(chunks) + chunk
  {
    hide DataFrame;
    DataFramesAppend(chunks, chunk);
    ConcatAppend(chunks, [chunk]);
    assert Concat([chunk]) == chunk + [];
  }

  /** Sending the next frame keeps what has been sent a prefix of the file. */
  lemma NextFramePulls(s: Sender, g: Progress, remote: u32, a: ReadAnswer)
    requires Pulled(s, g) && !s.done
    ensures var (s', frame) := NextFrame(s, a);
            && frame.Some?
            && Pulled(s', Observe(g, Write(remote, ReplyBytes(frame.value))))
  {
    hide ReplyBytes, DataFrame, DoneFrame, IsFrame, DataFrames, Concat;
    var frame := NextFrame(s, a).1.value;
    FrameKinds(frame);
    if frame.hdr.id.ReplyData? {
      RepliesAreFrames(frame.payload);
      ChunksAppend(g.chunks, frame.payload);
      assert DataFrames(g.chunks) + [] == DataFrames(g.chunks);
      assert DataFrames(g.chunks + [frame.payload]) + [] == DataFrames(g.chunks + [frame.payload]);
    } else {
      RepliesAreFrames([]);
      assert DataFrames(g.chunks) + [] == DataFrames(g.chunks);
    }
  }

  // ----- One event -----

  lemma ObserveHead(g: Progress, o: LocalOut, rest: seq<LocalOut>)
    ensures ObserveAll(g, [o] + rest) == ObserveAll(Observe(g, o), rest)
    ensures ObserveAll(g, [o]) == Observe(g, o)
  {
    assert ([o] + rest)[1..] == rest;
    assert [o][1..] == [];
  }

  /** A session that is not sending starts to exactly when a RECV opens its file. */
  lemma HandleStarts(s: Session, payload: seq<byte>, fs: FsAnswers)
    requires s.Valid() && !s.state.Sending?
    ensures Handle(s, payload, fs).0.state.Sending? <==> StartsPull(s, payload, fs)
    ensures StartsPull(s, payload, fs) ==>
      Handle(s, payload, fs) == (s.(state := Sending(Sender(fs.open.contents, 0, false))), SyncResult.Continue)
  {
    hide ParseSyncPacket, Feed;
  }

  /** Sending a frame on a stream that is not waiting. */
  lemma PushFramePulls(s: Stream, session: Session, g: Progress, fs: FsAnswers)
    requires session.Valid() && session.state.Sending? && !session.state.sender.done
    requires Pulled(session.state.sender, g) && g.unacked == 0
    ensures var (st, outs) := PushFrame(s, session, fs);
            PullInv(st, ObserveAll(g, outs))
  {
    hide ReplyBytes, IsFrame, DataFrames, Concat, Pulled;
    NextFramePulls(session.state.sender, g, s.remoteId, fs.read);
    var outs := PushFrame(s, session, fs).1;
    ObserveHead(g, outs[0], []);
    assert outs == [outs[0]];
  }

  lemma OkayKeepsPull(s: Stream, g: Progress, env: Env)
    requires s.Valid() && PullInv(Some(s), g)
    ensures var (st, outs) := OnOkay(s, env);
            PullInv(st, ObserveAll(g.(unacked := 0), outs))
  {
    hide NextFrame, Pulled, PushFrame;
    var session := s.service.session;
    var s', g' := s.(waitingForOkay := false), g.(unacked := 0);
    if session.state.Sending? && !session.state.sender.done {
      PulledIgnoresUnacked(session.state.sender, g, 0);
      PushFramePulls(s', session, g', env.fs);
    } else {
      IdlePush(s', session, env.fs);
    }
  }

  lemma PulledIgnoresUnacked(s: Sender, g: Progress, n: nat)
    ensures Pulled(s, g) <==> Pulled(s, g.(unacked := n))
  {
  }

  /** Nothing is sent when no transfer runs, or when the last frame has been answered. */
  lemma IdlePush(s: Stream, session: Session, fs: FsAnswers)
    requires session.Valid() && (session.state.Sending? ==> session.state.sender.done)
    ensures PushFrame(s, session, fs)
            == (Some(s.(service := Sync(if session.state.Sending? then session.(state := Idle) else session))), [])
  {
  }

  lemma RequestKeepsPull(s: Stream, g: Progress, payload: seq<byte>, env: Env)
    requires s.Valid() && PullInv(Some(s), g) && g.unacked == 0
    ensures var session := s.service.session;
            var g1 := Noted(g, session, payload, env.fs);
            var (st, outs) := OnRequest(s, session, payload, env);
            PullInv(st, ObserveAll(g1, outs))
  {
    hide Handle, PushFrame, Pulled, StatBytes, ReplyBytes, ParseSyncPacket, IsFrame;
    var session := s.service.session;
    HandleStarts(session, payload, env.fs);
    var (session', result) := Handle(session, payload, env.fs);
    var outs := OnRequest(s, session, payload, env).1;
    if StartsPull(session, payload, env.fs) {
      var g1 := Progress(0, env.fs.open.contents, [], [], false);
      FreshPull(env.fs.open.contents);
      PushFramePulls(s, session', g1, env.fs);
    } else {
      IdlePush(s, session', env.fs);
      if outs != [] {
        ObserveHead(g, outs[0], []);
        assert outs == [outs[0]];
      }
    }
  }

  /** While a file is being sent a request keeps the invariant exactly when it is QUIT or a RECV
      whose file opens: any other is answered by a second WRTE, or leaves the stream waiting with
      nothing to send. */
  lemma RequestWhileSending(s: Stream, g: Progress, payload: seq<byte>, env: Env)
    requires s.Valid() && PullInv(Some(s), g) && IsSending(Some(s))
    ensures var session := s.service.session;
            var g1 := Noted(g, session, payload, env.fs);
            var (st, outs) := OnRequest(s, session, payload, env);
            PullInv(st, ObserveAll(g1, outs)) <==> Quits(payload) || StartsPull(session, payload, env.fs)
  {
    hide PushFrame, Pulled, StatBytes, ReplyBytes, ParseSyncPacket, IsFrame, Feed;
    var session := s.service.session;
    var g1 := Noted(g, session, payload, env.fs);
    var outs := OnRequest(s, session, payload, env).1;
    if StartsPull(session, payload, env.fs) {
      FreshPull(env.fs.open.contents);
      PulledIgnoresUnacked(Sender(env.fs.open.contents, 0, false), g1, 0);
    } else if outs != [] {
      ObserveHead(g1, outs[0], []);
      assert outs == [outs[0]];
    }
  }

  /** While nothing is being sent and one WRTE is unanswered, a request keeps the invariant exactly
      when it is met with silence. */
  lemma RequestWhileUnanswered(s: Stream, g: Progress, payload: seq<byte>, env: Env)
    requires s.Valid() && PullInv(Some(s), g) && !IsSending(Some(s)) && g.unacked == 1
    ensures var session := s.service.session;
            var g1 := Noted(g, session, payload, env.fs);
            var (st, outs) := OnRequest(s, session, payload, env);
            PullInv(st, ObserveAll(g1, outs)) <==> Silent(session, payload, env.fs)
  {
    hide NextFrame, Pulled, StatBytes, ReplyBytes, ParseSyncPacket, IsFrame, Feed;
    var session := s.service.session;
    var g1 := Noted(g, session, payload, env.fs);
    var outs := OnRequest(s, session, payload, env).1;
    if StartsPull(session, payload, env.fs) {
      FreshPull(env.fs.open.contents);
      NextFramePulls(Sender(env.fs.open.contents, 0, false), Progress(0, env.fs.open.contents, [], [], false),
                     s.remoteId, env.fs.read);
    }
    if outs != [] {
      ObserveHead(g1, outs[0], []);
      assert outs == [outs[0]];
    }
  }

  /** A request at a bad moment: an LSTAT during a pull leaves two WRTEs unanswered. */
  lemma StatDuringPull(s: Stream, g: Progress, remote: u32, path: seq<byte>, env: Env)
    requires s.Valid() && PullInv(Some(s), g) && IsSending(Some(s)) && |path| <= U32_MAX
    ensures var e := HostWrte(remote, PathRequest(ID_LSTAT_V1, path), env);
            Track(g, Some(s), e, Step(Some(s), e).1).unacked == 2
  {
    hide ParseSyncPacket, StatBytes, IsFrame;
    var payload := PathRequest(ID_LSTAT_V1, path);
    ParseOfPathRequest(ID_LSTAT_V1, path, []);
    assert payload + [] == payload;
    var outs := OnRequest(s, s.service.session, payload, env).1;
    AckIsInvisible(g, remote, outs);
    ObserveHead(g, outs[0], []);
    assert outs == [outs[0]];
  }

  lemma FreshPull(contents: seq<byte>)
    ensures Pulled(Sender(contents, 0, false), Progress(0, contents, [], [], false))
  {
  }

  /** An event keeps the invariant exactly when the host is disciplined in it. */
  lemma StepKeepsPull(st: Slot, g: Progress, e: LocalEvent)
    requires ValidSlot(st) && LocalLegal(st, e) && PullInv(st, g)
    ensures PullInv(Step(st, e).0, Track(g, st, e, Step(st, e).1)) <==> Disciplined(st, g, e)
  {
    hide OnOkay, OnRequest, Noted, StartsPull, Quits, Silent, Pulled, IsFrame;
    match e
    case HostOkay(env) =>
      if st.Some? {
        OkayKeepsPull(st.value, g, env);
      }
    case HostWrte(remote, payload, env) =>
      if st.Some? {
        if g.unacked == 0 {
          RequestKeepsPull(st.value, g, payload, env);
        } else if IsSending(st) {
          RequestWhileSending(st.value, g, payload, env);
        } else {
          RequestWhileUnanswered(st.value, g, payload, env);
        }
        var outs := OnWrte(st.value, payload, env).1;
        AckIsInvisible(g, remote, outs);
        AckIsInvisible(Noted(g, st.value.service.session, payload, env.fs), remote, outs);
      } else {
        AckIsInvisible(g, remote, []);
        assert [Ack(remote)] + [] == [Ack(remote)];
      }
    case _ =>
      if st.Some? {
        ObserveHead(g, Close(st.value.remoteId), []);
      }
  }

  lemma AckIsInvisible(g: Progress, remote: u32, outs: seq<LocalOut>)
    ensures ObserveAll(g, [Ack(remote)] + outs) == ObserveAll(g, outs)
  {
    ObserveHead(g, Ack(remote), outs);
  }

  // ----- Runs -----

  predicate DisciplinedRun(st: Slot, g: Progress, es: seq<LocalEvent>)
    requires ValidSlot(st) && LegalRun(st, es)
    decreases |es|
  {
    es == [] ||
    (&& Disciplined(st, g, es[0])
     && (StepKeepsValid(st, es[0]);
         DisciplinedRun(Step(st, es[0]).0, Track(g, st, es[0], Step(st, es[0]).1), es[1..])))
  }

  function TrackRun(st: Slot, g: Progress, es: seq<LocalEvent>): Progress
    requires ValidSlot(st) && LegalRun(st, es)
    decreases |es|
  {
    if es == [] then g
    else
      StepKeepsValid(st, es[0]);
      TrackRun(Step(st, es[0]).0, Track(g, st, es[0], Step(st, es[0]).1), es[1..])
  }

  /** In every reachable state at most one WRTE is unanswered, `waiting_for_okay` is set exactly
      while a file is being sent, and the DATA bytes sent are a prefix of the file. */
  lemma {:induction false} PullRuns(st: Slot, g: Progress, es: seq<LocalEvent>)
    requires ValidSlot(st) && LegalRun(st, es)
    requires PullInv(st, g) && DisciplinedRun(st, g, es)
    ensures PullInv(LocalRun(st, es).0, TrackRun(st, g, es))
    decreases |es|
  {
    hide Step, LocalLegal, PullInv, Disciplined, Track;
    if es != [] {
      StepKeepsValid(st, es[0]);
      StepKeepsPull(st, g, es[0]);
      PullRuns(Step(st, es[0]).0, Track(g, st, es[0], Step(st, es[0]).1), es[1..]);
    }
  }

  /** When a transfer that saw no read error ends, the payloads sent since the RECV are the whole
      file as DATA frames followed by one DONE. */
  lemma PullComplete(s: Stream, g: Progress, env: Env)
    requires s.Valid() && PullInv(Some(s), g)
    requires IsSending(Some(s)) && !IsSending(OnOkay(s, env).0) && !g.failed
    ensures OnOkay(s, env).1 == []
    ensures g.wire == FileStream(g.chunks, 0)
    ensures Concat(g.chunks) == g.file
  {
    hide DataFrames, Concat, DoneFrame;
    FileStreamIsDataFrames(g.chunks, 0);
    var sender := s.service.session.state.sender;
    assert sender.done;
    assert sender.contents[..|sender.contents|] == sender.contents;
  }

  /** Pull over a whole session: after any disciplined run of a new sync stream, an OKAY that ends
      an error-free transfer finds that exactly the file's DATA* DONE stream has been sent, and a
      receiver fed those bytes in any pieces writes the same file. */
  lemma PullEndToEnd(remote: u32, es: seq<LocalEvent>, env: Env, pieces: seq<seq<byte>>, r: Receiver)
    requires var st0 := Some(NewStream(remote, Sync(NEW_SESSION)));
             && LegalRun(st0, es) && DisciplinedRun(st0, NOTHING, es)
             && var st, g := LocalRun(st0, es).0, TrackRun(st0, NOTHING, es);
                && IsSending(st) && !IsSending(OnOkay(st.value, env).0) && !g.failed
                && Concat(pieces) == g.wire && |g.file| <= r.Room()
    requires Ready(r) && r.disk.chmodOk
    ensures var g := TrackRun(Some(NewStream(remote, Sync(NEW_SESSION))), NOTHING, es);
            var o := FeedAll(More(r), pieces);
            && g.wire == FileStream(g.chunks, 0) && Concat(g.chunks) == g.file
            && o.Finished? && o.reply == OkayResponse()
            && o.file.contents == r.file.contents + g.file
  {
    hide LegalRun, DisciplinedRun, LocalRun, TrackRun, OnOkay, FileStream, Concat, Feed, FeedAll;
    var st0 := Some(NewStream(remote, Sync(NEW_SESSION)));
    var st, g := LocalRun(st0, es).0, TrackRun(st0, NOTHING, es);
    PullRuns(st0, NOTHING, es);
    PullComplete(st.value, g, env);
    FeedAllConcat(More(r), pieces);
    FeedFileStream(r, g.chunks, 0);
  }

  // ----- Every transfer ends -----

  /** How many OKAYs a transfer can still take: one for each byte left, one that brings the DONE
      frame and one that ends it. */
  function StepsLeft(s: Sender): (n: nat)
    requires s.Valid()
    ensures n >= 1
  {
    if s.done then 1 else |s.contents| - s.pos + 2
  }

  lemma OkayProgress(s: Stream, env: Env)
    requires s.Valid() && IsSending(Some(s))
    ensures var st := OnOkay(s, env).0;
            && st.Some?
            && (IsSending(st) ==>
                  StepsLeft(st.value.service.session.state.sender) < StepsLeft(s.service.session.state.sender))
  {
  }

  function Okays(envs: seq<Env>): seq<LocalEvent> {
    if envs == [] then [] else [HostOkay(envs[0])] + Okays(envs[1..])
  }

  lemma {:induction false} OkaysLegal(s: Stream, envs: seq<Env>)
    requires s.Valid() && !s.service.Reboot?
    ensures LegalRun(Some(s), Okays(envs))
    decreases |envs|
  {
    hide NextFrame, ReplyBytes;
    if envs != [] {
      var e := HostOkay(envs[0]);
      StepKeepsValid(Some(s), e);
      OkaysLegal(Step(Some(s), e).0.value, envs[1..]);
      assert Okays(envs)[1..] == Okays(envs[1..]);
    }
  }

  /** A host that keeps answering sees the transfer end after at most as many OKAYs as the file
      has bytes left, plus two. */
  lemma {:induction false} PullTerminates(s: Stream, envs: seq<Env>) returns (k: nat)
    requires s.Valid() && IsSending(Some(s))
    requires |envs| >= StepsLeft(s.service.session.state.sender)
    ensures k <= StepsLeft(s.service.session.state.sender)
    ensures LegalRun(Some(s), Okays(envs[..k]))
    ensures !IsSending(LocalRun(Some(s), Okays(envs[..k])).0)
    decreases StepsLeft(s.service.session.state.sender)
  {
    hide OnOkay, StepsLeft;
    var e := HostOkay(envs[0]);
    StepKeepsValid(Some(s), e);
    OkayProgress(s, envs[0]);
    var st := Step(Some(s), e).0;
    if IsSending(st) {
      var j := PullTerminates(st.value, envs[1..]);
      k := j + 1;
      assert envs[..k][1..] == envs[1..][..j];
    } else {
      k := 1;
      assert envs[..1][1..] == [] && Okays([]) == [];
    }
    assert Okays(envs[..k])[1..] == Okays(envs[..k][1..]);
    OkaysLegal(s, envs[..k]);
  }
}
