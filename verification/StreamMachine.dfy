/** One stream on its own: what it does with its own events, with no other stream in sight. */
module StreamMachine {
  import opened Basics
  import opened SyncCodec
  import opened Sender
  import opened SyncService
  import opened Protocol

  datatype LocalEvent =
    | HostOkay(env: Env)
    | HostWrte(remote: u32, payload: seq<byte>, env: Env)
    | HostClse(remote: u32)
    | PtyDone(res: ReadResult)
    | SocketDone(res: ReadResult)

  datatype LocalOut =
    | Ack(remote: u32)
    | Write(remote: u32, data: Body)
    | Close(remote: u32)
    | ReadPty
    | ReadSocket

  /** An open stream, or none: not opened yet, or removed. */
  type Slot = Option<Stream>

  predicate ValidSlot(st: Slot) {
    st.Some? ==> st.value.Valid()
  }

  /** The stream's share of the conditions under which the daemon does not panic. */
  predicate LocalLegal(st: Slot, e: LocalEvent) {
    st.Some? ==>
      match e
      case HostOkay(_) => !st.value.service.Reboot?
      case HostWrte(_, _, _) => !st.value.service.Reboot?
      case HostClse(remote) => remote == st.value.remoteId
      case _ => true
  }

  /** The next sync frame of a stream that is not waiting. */
  function PushFrame(s: Stream, session: Session, fs: FsAnswers): (Slot, seq<LocalOut>)
    requires session.Valid()
  {
    if !session.state.Sending? then (Some(s.(service := Sync(session))), [])
    else
      var (sender, frame) := NextFrame(session.state.sender, fs.read);
      match frame
      case None => (Some(s.(service := Sync(session.(state := Idle)))), [])
      case Some(reply) =>
        (Some(s.(service := Sync(session.(state := Sending(sender))), waitingForOkay := true)),
         [Write(s.remoteId, ReplyBytes(reply))])
  }

  function OnOkay(s: Stream, env: Env): (Slot, seq<LocalOut>)
    requires s.Valid()
  {
    var s' := s.(waitingForOkay := false);
    match s.service
    case Shell(_) => (Some(s'), [ReadPty])
    case Forward(_, _) => (Some(s'), [ReadSocket])
    case Sync(session) => PushFrame(s', session, env.fs)
    case Reboot => (Some(s'), [])
  }

  function OnWrte(s: Stream, payload: seq<byte>, env: Env): (Slot, seq<LocalOut>)
    requires s.Valid()
  {
    var n := Accepted(payload, env.write);
    match s.service
    case Shell(input) =>
      if n == |payload| then (Some(s.(service := Shell(input + payload))), []) else (None, [Close(s.remoteId)])
    case Forward(sent, shut) =>
      if n == |payload| then (Some(s.(service := Forward(sent + payload, shut))), []) else (None, [Close(s.remoteId)])
    case Sync(session) => OnRequest(s, session, payload, env)
    case Reboot => (Some(s), [])
  }

  function OnRequest(s: Stream, session: Session, payload: seq<byte>, env: Env): (Slot, seq<LocalOut>)
    requires session.Valid()
  {
    var (session', result) := Handle(session, payload, env.fs);
    var s' := s.(service := Sync(session'));
    match result
    case Stat(stat) => (Some(s'), [Write(s.remoteId, StatBytes(stat))])
    case Response(reply) => (Some(s'), [Write(s.remoteId, ReplyBytes(reply))])
    case Continue => if s.waitingForOkay then (Some(s'), []) else PushFrame(s, session', env.fs)
    case Quit => (None, [Close(s.remoteId)])
  }

  function Step(st: Slot, e: LocalEvent): (Slot, seq<LocalOut>)
    requires ValidSlot(st) && LocalLegal(st, e)
  {
    match e
    case HostWrte(remote, payload, env) =>
      if st.None? then (None, [Ack(remote)])
      else (OnWrte(st.value, payload, env).0, [Ack(remote)] + OnWrte(st.value, payload, env).1)
    case HostOkay(env) =>
      if st.None? then (None, []) else OnOkay(st.value, env)
    case HostClse(_) =>
      if st.None? then (None, [])
      else if st.value.service.Forward? then
        (Some(st.value.(service := st.value.service.(shut := true), remoteClosed := true)), [])
      else (None, [Close(st.value.remoteId)])
    case PtyDone(res) => OnRead(st, res, st.Some? && st.value.service.Shell?)
    case SocketDone(res) => OnRead(st, res, st.Some? && st.value.service.Forward?)
  }

  function OnRead(st: Slot, res: ReadResult, relays: bool): (Slot, seq<LocalOut>) {
    if st.None? then (None, [])
    else
      match res
      case Ended => (None, [Close(st.value.remoteId)])
      case Got(data) =>
        if relays then (Some(st.value.(waitingForOkay := true)), [Write(st.value.remoteId, data)]) else (st, [])
  }

  lemma StepKeepsValid(st: Slot, e: LocalEvent)
    requires ValidSlot(st) && LocalLegal(st, e)
    ensures ValidSlot(Step(st, e).0)
  {
    hide Handle, NextFrame;
  }

  predicate LegalRun(st: Slot, es: seq<LocalEvent>)
    requires ValidSlot(st)
    decreases |es|
  {
    es == [] || (LocalLegal(st, es[0]) && (StepKeepsValid(st, es[0]); LegalRun(Step(st, es[0]).0, es[1..])))
  }

  function LocalRun(st: Slot, es: seq<LocalEvent>): (r: (Slot, seq<LocalOut>))
    requires ValidSlot(st) && LegalRun(st, es)
    ensures ValidSlot(r.0)
    decreases |es|
  {
    if es == [] then (st, [])
    else
      StepKeepsValid(st, es[0]);
      var (st1, outs) := Step(st, es[0]);
      var (st2, rest) := LocalRun(st1, es[1..]);
      (st2, outs + rest)
  }
}
