/** Stream isolation: whatever else happens on the connection, each stream behaves as if its own
    events were the only ones. */
module Isolation {
  import opened Basics
  import opened Message
  import opened SyncCodec
  import opened Sender
  import opened SyncService
  import opened Protocol
  import opened StreamMachine

  /** An event as the stream `id` sees it, if it concerns that stream at all. */
  function Own(e: Event, id: LocalId): Option<LocalEvent> {
    match e
    case PtyRead(i, res) => if i == id then Some(PtyDone(res)) else None
    case SocketRead(i, res) => if i == id then Some(SocketDone(res)) else None
    case Command(h, payload, env) =>
      if h.arg1 != id then None
      else
        match h.command
        case Okay => Some(HostOkay(env))
        case Clse => Some(HostClse(h.arg0))
        case Wrte => if payload.Some? then Some(HostWrte(h.arg0, payload.value, env)) else None
        case _ => None
  }

  function Listed<T>(o: Option<T>): seq<T> {
    match o case None => [] case Some(x) => [x]
  }

  function OwnAll(es: seq<Event>, id: LocalId): seq<LocalEvent> {
    if es == [] then [] else Listed(Own(es[0], id)) + OwnAll(es[1..], id)
  }

  /** An output as the stream `id` made it; the protocol version plays no part in it. */
  function LocalOf(o: Output, id: LocalId): Option<LocalOut> {
    match o
    case StartPtyRead(i) => if i == id then Some(ReadPty) else None
    case StartSocketRead(i) => if i == id then Some(ReadSocket) else None
    case Send(_, command, arg0, arg1, payload) =>
      if arg0 != id then None
      else
        match command
        case Okay => Some(Ack(arg1))
        case Wrte => Some(Write(arg1, payload))
        case Clse => Some(Close(arg1))
        case _ => None
  }

  function Local(outs: seq<Output>, id: LocalId): seq<LocalOut> {
    if outs == [] then [] else Listed(LocalOf(outs[0], id)) + Local(outs[1..], id)
  }

  lemma {:induction false} LocalConcat(a: seq<Output>, b: seq<Output>, id: LocalId)
    ensures Local(a + b, id) == Local(a, id) + Local(b, id)
  {
    hide LocalOf, Listed;
    if a == [] {
      assert a + b == b;
    } else {
      LocalConcat(a[1..], b, id);
      HeadTail(a, b);
      var x, y, z := Listed(LocalOf(a[0], id)), Local(a[1..], id), Local(b, id);
      Associative(x, y, z);
    }
  }

  lemma {:induction false} OwnAllConcat(a: seq<Event>, b: seq<Event>, id: LocalId)
    ensures OwnAll(a + b, id) == OwnAll(a, id) + OwnAll(b, id)
  {
    hide Own, Listed;
    if a == [] {
      assert a + b == b;
    } else {
      OwnAllConcat(a[1..], b, id);
      HeadTail(a, b);
      Associative(Listed(Own(a[0], id)), OwnAll(a[1..], id), OwnAll(b, id));
    }
  }

  lemma Local1(o: Output, id: LocalId)
    ensures Local([o], id) == Listed(LocalOf(o, id))
  {
    assert [o][1..] == [];
  }

  lemma Local2(o: Output, p: Output, id: LocalId)
    ensures Local([o, p], id) == Local([o], id) + Local([p], id)
  {
    assert [o, p] == [o] + [p];
    LocalConcat([o], [p], id);
  }

  ghost predicate Matches(c: Conn, r: (Conn, seq<Output>), id: LocalId, e: Option<LocalEvent>)
    requires c.Valid()
  {
    && r.0.nextId >= c.nextId
    && match e
       case None => r.0.Get(id) == c.Get(id) && Local(r.1, id) == []
       case Some(le) => LocalLegal(c.Get(id), le) && (r.0.Get(id), Local(r.1, id)) == Step(c.Get(id), le)
  }

  lemma SyncFrameMatches(c: Conn, at: LocalId, id: LocalId, fs: FsAnswers)
    requires c.Valid() && at in c.streams && c.streams[at].service.Sync? && !c.streams[at].waitingForOkay
    ensures var r := MaybeSyncFrame(c, at, fs);
            && r.0.nextId == c.nextId
            && (id != at ==> r.0.Get(id) == c.Get(id) && Local(r.1, id) == [])
            && (id == at ==> (r.0.Get(id), Local(r.1, id))
                             == PushFrame(c.streams[at], c.streams[at].service.session, fs))
  {
    hide NextFrame, ReplyBytes;
    var r := MaybeSyncFrame(c, at, fs);
    if r.1 != [] {
      Local1(r.1[0], id);
    }
  }

  lemma OkayMatches(c: Conn, h: AdbHeader, env: Env, id: LocalId)
    requires c.Valid() && !Panics(c, Command(h, None, env)) && h.command == Okay
    ensures Matches(c, HandleOkay(c, h, env), id, if h.arg1 == id then Some(HostOkay(env)) else None)
  {
    hide NextFrame, PushFrame, MaybeSyncFrame;
    if h.arg1 in c.streams {
      var s := c.streams[h.arg1].(waitingForOkay := false);
      var c1 := c.Put(h.arg1, s);
      if s.service.Sync? {
        SyncFrameMatches(c1, h.arg1, id, env.fs);
      } else {
        Local1(StartPtyRead(h.arg1), id);
        Local1(StartSocketRead(h.arg1), id);
      }
    }
  }

  lemma ClseMatches(c: Conn, h: AdbHeader, id: LocalId)
    requires c.Valid()
    requires h.arg1 in c.streams ==> c.streams[h.arg1].remoteId == h.arg0
    ensures Matches(c, HandleClse(c, h), id, if h.arg1 == id then Some(HostClse(h.arg0)) else None)
  {
    if h.arg1 in c.streams {
      Local1(ClseMsg(c, h.arg1, c.streams[h.arg1].remoteId), id);
    }
  }

  /** A new stream gets an id of its own, so no other stream notices. */
  lemma OpenMatches(c: Conn, h: AdbHeader, payload: seq<byte>, env: Env, id: LocalId)
    requires c.Valid()
    requires Requested(payload, env).Some? ==> c.nextId < U32_MAX
    requires id < c.nextId || HandleOpen(c, h, payload, env).0.nextId <= id
    ensures Matches(c, HandleOpen(c, h, payload, env), id, None)
  {
    hide Requested;
    var o := if Requested(payload, env).Some? then OkayMsg(c, c.nextId, h.arg0) else ClseMsg(c, 0, h.arg0);
    var p := if Requested(payload, env).Some? && Requested(payload, env).value.Shell?
             then StartPtyRead(c.nextId) else StartSocketRead(c.nextId);
    Local1(o, id);
    Local1(p, id);
    Local2(o, p, id);
    assert [o] + [] == [o];
  }

  lemma SyncPayloadMatches(c: Conn, at: LocalId, payload: seq<byte>, env: Env, id: LocalId)
    requires c.Valid() && at in c.streams && c.streams[at].service.Sync?
    ensures var s := c.streams[at];
            var r := SyncPayload(c, at, s, payload, env);
            && r.0.nextId == c.nextId
            && (id != at ==> r.0.Get(id) == c.Get(id) && Local(r.1, id) == [])
            && (id == at ==> (r.0.Get(id), Local(r.1, id)) == OnRequest(s, s.service.session, payload, env))
  {
    hide Handle, MaybeSyncFrame, PushFrame, ReplyBytes, StatBytes;
    var s := c.streams[at];
    var (session, result) := Handle(s.service.session, payload, env.fs);
    var c1 := c.Put(at, s.(service := Sync(session)));
    match result
    case Stat(stat) => Local1(WrteMsg(c, at, s.remoteId, StatBytes(stat)), id);
    case Response(reply) => Local1(WrteMsg(c, at, s.remoteId, ReplyBytes(reply)), id);
    case Continue => ContinueMatches(c, at, s, session, env.fs, id);
    case Quit => Local1(ClseMsg(c, at, s.remoteId), id);
  }

  lemma ContinueMatches(c: Conn, at: LocalId, s: Stream, session: Session, fs: FsAnswers, id: LocalId)
    requires c.Valid() && c.Get(at) == Some(s) && s.service.Sync? && session.Valid()
    ensures var s' := s.(service := Sync(session));
            var r := MaybeSyncFrame(c.Put(at, s'), at, fs);
            && r.0.nextId == c.nextId
            && (id != at ==> r.0.Get(id) == c.Get(id) && Local(r.1, id) == [])
            && (id == at ==> (r.0.Get(id), Local(r.1, id))
                             == if s.waitingForOkay then (Some(s'), []) else PushFrame(s, session, fs))
  {
    hide NextFrame, ReplyBytes;
    var s' := s.(service := Sync(session));
    if !s.waitingForOkay {
      SyncFrameMatches(c.Put(at, s'), at, id, fs);
    }
  }

  lemma WrteMatches(c: Conn, h: AdbHeader, payload: seq<byte>, env: Env, id: LocalId)
    requires c.Valid()
    requires h.arg1 in c.streams ==> !c.streams[h.arg1].service.Reboot?
    ensures Matches(c, HandleWrte(c, h, payload, env), id,
                    if h.arg1 == id then Some(HostWrte(h.arg0, payload, env)) else None)
  {
    hide SyncPayload, OnRequest;
    var ack := OkayMsg(c, h.arg1, h.arg0);
    var r := HandleWrte(c, h, payload, env);
    Local1(ack, id);
    if h.arg1 in c.streams {
      var s := c.streams[h.arg1];
      assert payload[..|payload|] == payload;
      if s.service.Sync? {
        SyncPayloadMatches(c, h.arg1, payload, env, id);
      } else {
        Local1(ClseMsg(c, h.arg1, s.remoteId), id);
      }
      LocalConcat([ack], r.1[1..], id);
      assert r.1 == [ack] + r.1[1..];
    }
  }

  lemma ReadDoneMatches(c: Conn, at: LocalId, res: ReadResult, pty: bool, id: LocalId)
    requires c.Valid()
    ensures Matches(c, HandleReadDone(c, at, res, pty), id,
                    if at != id then None else if pty then Some(PtyDone(res)) else Some(SocketDone(res)))
  {
    var r := HandleReadDone(c, at, res, pty);
    if r.1 != [] {
      Local1(r.1[0], id);
    }
  }

  /** One event of the connection is one event of the stream it names and no event of any other.
      This holds of every id but one that the event itself hands out. */
  lemma OneStep(c: Conn, e: Event, id: LocalId)
    requires c.Valid() && !Panics(c, e) && (id < c.nextId || React(c, e).0.nextId <= id)
    ensures Matches(c, React(c, e), id, Own(e, id))
  {
    hide Matches, HandleOkay, HandleClse, HandleOpen, HandleWrte, HandleReadDone, Requested;
    match e
    case PtyRead(at, res) => ReadDoneMatches(c, at, res, true, id);
    case SocketRead(at, res) => ReadDoneMatches(c, at, res, false, id);
    case Command(h, payload, env) =>
      match h.command
      case Okay => OkayMatches(c, h, env, id);
      case Clse => ClseMatches(c, h, id);
      case Open => OpenMatches(c, h, payload.value, env, id);
      case Wrte => WrteMatches(c, h, payload.value, env, id);
      case _ => QuietMatches(c, h, id);
  }

  lemma QuietMatches(c: Conn, h: AdbHeader, id: LocalId)
    requires c.Valid()
    ensures Matches(c, (c, []), id, None)
    ensures Matches(c, HandleCnxn(c, h), id, None)
  {
    var r := HandleCnxn(c, h);
    Local1(r.1[0], id);
  }

  /** Over any run, an allocated stream ends in the state, and submits the operations, that its
      own events alone lead to. */
  lemma {:induction false} StreamIsolation(c: Conn, es: seq<Event>, id: LocalId)
    requires c.Valid() && Legal(c, es) && id < c.nextId
    ensures LegalRun(c.Get(id), OwnAll(es, id))
    ensures (Run(c, es).0.Get(id), Local(Run(c, es).1, id)) == LocalRun(c.Get(id), OwnAll(es, id))
    ensures Run(c, es).0.nextId >= c.nextId
    decreases |es|
  {
    hide React, Panics, Own, Step, LocalLegal, LocalOf;
    if es != [] {
      var (c1, outs) := React(c, es[0]);
      OneStep(c, es[0], id);
      ReactKeepsValid(c, es[0]);
      StreamIsolation(c1, es[1..], id);
      LocalConcat(outs, Run(c1, es[1..]).1, id);
      LocalRunStep(c.Get(id), Own(es[0], id), OwnAll(es[1..], id));
      assert [] + Local(Run(c1, es[1..]).1, id) == Local(Run(c1, es[1..]).1, id);
    }
  }

  lemma LocalRunStep(st: Slot, e: Option<LocalEvent>, rest: seq<LocalEvent>)
    requires ValidSlot(st)
    requires e.Some? ==> LocalLegal(st, e.value)
    requires e.Some? ==> (StepKeepsValid(st, e.value); LegalRun(Step(st, e.value).0, rest))
    requires e.None? ==> LegalRun(st, rest)
    ensures LegalRun(st, Listed(e) + rest)
    ensures e.None? ==> LocalRun(st, Listed(e) + rest) == LocalRun(st, rest)
    ensures e.Some? ==>
      LocalRun(st, Listed(e) + rest)
      == (LocalRun(Step(st, e.value).0, rest).0, Step(st, e.value).1 + LocalRun(Step(st, e.value).0, rest).1)
  {
    hide Step, LocalLegal;
    if e.None? {
      assert Listed(e) + rest == rest;
    } else {
      StepKeepsValid(st, e.value);
      assert (Listed(e) + rest)[0] == e.value && (Listed(e) + rest)[1..] == rest;
    }
  }
}
