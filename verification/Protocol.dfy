/** The connection state machine (`AdbConnection` handlers in src/main.rs with src/stream.rs), as
    functions from a state and an event to a new state and the operations submitted. */
module Protocol {
  import opened Basics
  import opened Utf8
  import opened Message
  import opened SyncCodec
  import opened Sender
  import opened SyncService

  // ----- What the environment answers -----

  /** How far a write into a PTY or socket gets before it fails, if it does. */
  datatype WriteAnswer = Accepts | FailsAfter(n: nat)

  function Accepted(data: seq<byte>, a: WriteAnswer): (n: nat)
    ensures n <= |data|
  {
    match a
    case Accepts => |data|
    case FailsAfter(n) => Min(n, |data|)
  }

  datatype Env = Env(spawned: bool, connected: bool, write: WriteAnswer, fs: FsAnswers)

  // ----- State -----

  /** A back end, with the bytes the daemon has written into it so far. */
  datatype Service =
    | Sync(session: Session)
    | Shell(input: seq<byte>)
    | Reboot
    | Forward(sent: seq<byte>, shut: bool)

  datatype Stream = Stream(remoteId: u32, service: Service, waitingForOkay: bool, remoteClosed: bool) {
    predicate Valid() {
      service.Sync? ==> service.session.Valid()
    }
  }

  type LocalId = x: u32 | x > 0 witness 1

  datatype Conn = Conn(version: Version, identity: Text, streams: map<u32, Stream>, nextId: u32) {
    /** Every id in use was handed out before, and ids start at 1. */
    predicate Valid() {
      && nextId >= 1
      && (forall id <- streams :: 1 <= id < nextId && streams[id].Valid())
    }

    function Get(id: u32): Option<Stream> {
      if id in streams then Some(streams[id]) else None
    }

    function Put(id: u32, s: Stream): Conn {
      this.(streams := streams[id := s])
    }

    function Remove(id: u32): Conn {
      this.(streams := streams - {id})
    }
  }

  function Fresh(identity: Text): Conn {
    Conn(V0, identity, map[], 1)
  }

  // ----- Events and outputs -----

  type Body = s: seq<byte> | |s| <= U32_MAX
  type NonEmpty = s: seq<byte> | 0 < |s| < 0x8000_0000 witness [0]

  /** A completed PTY or socket read: data, or end of file and errors alike. */
  datatype ReadResult = Got(data: NonEmpty) | Ended

  datatype Event =
    | Command(header: AdbHeader, payload: Option<seq<byte>>, env: Env)
    | PtyRead(id: LocalId, res: ReadResult)
    | SocketRead(id: LocalId, res: ReadResult)

  /** What a handler submits: a message to the host, or a read from a back end. */
  datatype Output =
    | Send(version: Version, command: Command, arg0: u32, arg1: u32, payload: Body)
    | StartPtyRead(id: LocalId)
    | StartSocketRead(id: LocalId)

  function OkayMsg(c: Conn, local: u32, remote: u32): Output { Send(c.version, Okay, local, remote, []) }
  function ClseMsg(c: Conn, local: u32, remote: u32): Output { Send(c.version, Clse, local, remote, []) }
  function WrteMsg(c: Conn, local: u32, remote: u32, data: Body): Output { Send(c.version, Wrte, local, remote, data) }

  function CnxnMsg(version: Version, identity: Text): Output {
    Send(version, Cnxn, VersionCode(PROTOCOL_VERSION), MaxPayload(PROTOCOL_VERSION), identity)
  }

  // ----- Opening streams -----

  /** The service a name asks for, if it is known and its back end starts. */
  function StartService(name: seq<byte>, env: Env): (r: Option<Service>)
    ensures r.Some? && r.value.Sync? ==> r.value.session == NEW_SESSION
    ensures r.Some? && r.value.Forward? ==> r.value.sent == []
    ensures r.Some? && r.value.Shell? ==> r.value.input == []
  {
    if name == Ascii("sync:") then Some(Sync(NEW_SESSION))
    else if Ascii("shell:") <= name then
      if env.spawned then Some(Shell([])) else None
    else if Ascii("reboot:") <= name then Some(Reboot)
    else if Ascii("tcp:") <= name || Ascii("localabstract:") <= name || Ascii("localfilesystem:") <= name then
      if env.connected then Some(Forward([], false)) else None
    else None
  }

  /** The back end an OPEN payload leads to: the name is the bytes before the first NUL. */
  function Requested(payload: seq<byte>, env: Env): (r: Option<Service>)
    ensures r.Some? && r.value.Sync? ==> r.value.session == NEW_SESSION
    ensures r.Some? && r.value.Forward? ==> r.value.sent == []
    ensures r.Some? && r.value.Shell? ==> r.value.input == []
  {
    var n := FirstIndex(payload, 0);
    if n == |payload| then None
    else if !IsUtf8(payload[..n]) then None
    else StartService(payload[..n], env)
  }

  /** A stream as `open` inserts it. */
  function NewStream(remote: u32, service: Service): Stream {
    Stream(remote, service, false, false)
  }

  // ----- Handlers -----

  function HandleCnxn(c: Conn, h: AdbHeader): (Conn, seq<Output>) {
    var v := match VersionOf(h.arg0) case Some(v) => v case None => V0;
    (c.(version := v), [CnxnMsg(v, c.identity)])
  }

  function HandleOpen(c: Conn, h: AdbHeader, payload: seq<byte>, env: Env): (Conn, seq<Output>)
    requires c.Valid()
    requires Requested(payload, env).Some? ==> c.nextId < U32_MAX
  {
    match Requested(payload, env)
    case None => (c, [ClseMsg(c, 0, h.arg0)])
    case Some(service) =>
      var id: LocalId := c.nextId;
      (c.(streams := c.streams[id := NewStream(h.arg0, service)], nextId := id + 1),
       [OkayMsg(c, id, h.arg0)] + FirstRead(id, service))
  }

  /** The read a new stream starts with. */
  function FirstRead(id: LocalId, service: Service): seq<Output> {
    match service
    case Shell(_) => [StartPtyRead(id)]
    case Forward(_, _) => [StartSocketRead(id)]
    case _ => []
  }

  function HandleClse(c: Conn, h: AdbHeader): (Conn, seq<Output>) {
    match c.Get(h.arg1)
    case None => (c, [])
    case Some(s) =>
      if s.service.Forward? then
        (c.Put(h.arg1, s.(service := s.service.(shut := true), remoteClosed := true)), [])
      else (c.Remove(h.arg1), [ClseMsg(c, h.arg1, s.remoteId)])
  }

  function MaybePtyRead(c: Conn, id: u32): seq<Output>
    requires c.Valid()
  {
    match c.Get(id)
    case None => []
    case Some(s) => if s.waitingForOkay || !s.service.Shell? then [] else [StartPtyRead(id)]
  }

  function MaybeSocketRead(c: Conn, id: u32): seq<Output>
    requires c.Valid()
  {
    match c.Get(id)
    case None => []
    case Some(s) => if s.waitingForOkay || !s.service.Forward? then [] else [StartSocketRead(id)]
  }

  function MaybeSyncFrame(c: Conn, id: u32, fs: FsAnswers): (Conn, seq<Output>)
    requires c.Valid()
  {
    match c.Get(id)
    case None => (c, [])
    case Some(s) =>
      if s.waitingForOkay || !s.service.Sync? || !s.service.session.state.Sending? then (c, [])
      else
        var session := s.service.session;
        var (sender, frame) := NextFrame(session.state.sender, fs.read);
        match frame
        case Some(reply) =>
          var s' := s.(service := Sync(session.(state := Sending(sender))), waitingForOkay := true);
          (c.Put(id, s'), [WrteMsg(c, id, s.remoteId, ReplyBytes(reply))])
        case None =>
          (c.Put(id, s.(service := Sync(session.(state := Idle)))), [])
  }

  function MaybeContinue(c: Conn, id: u32, env: Env): (Conn, seq<Output>)
    requires c.Valid()
    requires id in c.streams ==> !c.streams[id].service.Reboot?
  {
    match c.Get(id)
    case None => (c, [])
    case Some(s) =>
      match s.service
      case Sync(_) => MaybeSyncFrame(c, id, env.fs)
      case Shell(_) => (c, MaybePtyRead(c, id))
      case Forward(_, _) => (c, MaybeSocketRead(c, id))
      case Reboot => assert false; (c, [])
  }

  function HandleOkay(c: Conn, h: AdbHeader, env: Env): (Conn, seq<Output>)
    requires c.Valid()
    requires h.arg1 in c.streams ==> !c.streams[h.arg1].service.Reboot?
  {
    match c.Get(h.arg1)
    case None => (c, [])
    case Some(s) => MaybeContinue(c.Put(h.arg1, s.(waitingForOkay := false)), h.arg1, env)
  }

  /** A WRTE is acknowledged first, whatever becomes of it. */
  function HandleWrte(c: Conn, h: AdbHeader, payload: seq<byte>, env: Env): (Conn, seq<Output>)
    requires c.Valid()
    requires h.arg1 in c.streams ==> !c.streams[h.arg1].service.Reboot?
  {
    var ack := OkayMsg(c, h.arg1, h.arg0);
    match c.Get(h.arg1)
    case None => (c, [ack])
    case Some(s) =>
      var (c', outs) :=
        match s.service
        case Sync(session) => SyncPayload(c, h.arg1, s, payload, env)
        case Shell(input) =>
          var n := Accepted(payload, env.write);
          BackEndWrite(c, h.arg1, s.(service := Shell(input + payload[..n])), n == |payload|)
        case Forward(sent, shut) =>
          var n := Accepted(payload, env.write);
          BackEndWrite(c, h.arg1, s.(service := Forward(sent + payload[..n], shut)), n == |payload|)
        case Reboot => assert false; (c, []);
      (c', [ack] + outs)
  }

  function BackEndWrite(c: Conn, id: u32, s: Stream, ok: bool): (Conn, seq<Output>) {
    if ok then (c.Put(id, s), []) else (c.Remove(id), [ClseMsg(c, id, s.remoteId)])
  }

  function SyncPayload(c: Conn, id: u32, s: Stream, payload: seq<byte>, env: Env): (Conn, seq<Output>)
    requires c.Valid() && c.Get(id) == Some(s) && s.service.Sync?
  {
    var (session, result) := Handle(s.service.session, payload, env.fs);
    var c1 := c.Put(id, s.(service := Sync(session)));
    match result
    case Stat(stat) => (c1, [WrteMsg(c, id, s.remoteId, StatBytes(stat))])
    case Response(reply) => (c1, [WrteMsg(c, id, s.remoteId, ReplyBytes(reply))])
    case Continue => MaybeSyncFrame(c1, id, env.fs)
    case Quit => (c.Remove(id), [ClseMsg(c, id, s.remoteId)])
  }

  /** Where the daemon would panic: a payload missing or not allowed, a CLSE naming the wrong
      remote id, traffic to a Reboot stream, or no local ids left. */
  predicate Panics(c: Conn, e: Event) {
    match e
    case Command(h, payload, env) =>
      (match h.command
       case Cnxn => payload.None?
       case Open => payload.None? || (c.nextId == U32_MAX && Requested(payload.value, env).Some?)
       case Wrte => payload.None? || (h.arg1 in c.streams && c.streams[h.arg1].service.Reboot?)
       case Okay => payload.Some? || (h.arg1 in c.streams && c.streams[h.arg1].service.Reboot?)
       case Clse => h.arg1 in c.streams && c.streams[h.arg1].remoteId != h.arg0
       case _ => false)
    case PtyRead(_, _) => false
    case SocketRead(_, _) => false
  }

  function HandleCommand(c: Conn, h: AdbHeader, payload: Option<seq<byte>>, env: Env): (Conn, seq<Output>)
    requires c.Valid() && !Panics(c, Command(h, payload, env))
  {
    match h.command
    case Cnxn => HandleCnxn(c, h)
    case Open => HandleOpen(c, h, payload.value, env)
    case Wrte => HandleWrte(c, h, payload.value, env)
    case Okay => HandleOkay(c, h, env)
    case Clse => HandleClse(c, h)
    case Auth => (c, [])
    case Stls => (c, [])
  }

  function HandleReadDone(c: Conn, id: LocalId, res: ReadResult, pty: bool): (Conn, seq<Output>) {
    match c.Get(id)
    case None => (c, [])
    case Some(s) =>
      match res
      case Ended => (c.Remove(id), [ClseMsg(c, id, s.remoteId)])
      case Got(data) =>
        if (if pty then s.service.Shell? else s.service.Forward?) then
          (c.Put(id, s.(waitingForOkay := true)), [WrteMsg(c, id, s.remoteId, data)])
        else (c, [])
  }

  function React(c: Conn, e: Event): (Conn, seq<Output>)
    requires c.Valid() && !Panics(c, e)
  {
    match e
    case Command(h, payload, env) => HandleCommand(c, h, payload, env)
    case PtyRead(id, res) => HandleReadDone(c, id, res, true)
    case SocketRead(id, res) => HandleReadDone(c, id, res, false)
  }

  lemma CommandKeepsValid(c: Conn, h: AdbHeader, payload: Option<seq<byte>>, env: Env)
    requires c.Valid() && !Panics(c, Command(h, payload, env))
    ensures HandleCommand(c, h, payload, env).0.Valid()
  {
    hide Handle, NextFrame, Requested, SyncPayload, MaybeSyncFrame;
    match h.command
    case Okay =>
      if h.arg1 in c.streams {
        SyncFrameKeepsValid(c.Put(h.arg1, c.streams[h.arg1].(waitingForOkay := false)), h.arg1, env.fs);
      }
    case Wrte =>
      if h.arg1 in c.streams && c.streams[h.arg1].service.Sync? {
        SyncPayloadKeepsValid(c, h.arg1, c.streams[h.arg1], payload.value, env);
      }
    case _ =>
  }

  lemma SyncFrameKeepsValid(c: Conn, id: u32, fs: FsAnswers)
    requires c.Valid()
    ensures MaybeSyncFrame(c, id, fs).0.Valid()
  {
    hide NextFrame;
  }

  lemma SyncPayloadKeepsValid(c: Conn, id: u32, s: Stream, payload: seq<byte>, env: Env)
    requires c.Valid() && c.Get(id) == Some(s) && s.service.Sync?
    ensures SyncPayload(c, id, s, payload, env).0.Valid()
  {
    hide Handle, MaybeSyncFrame;
    var session := Handle(s.service.session, payload, env.fs).0;
    SyncFrameKeepsValid(c.Put(id, s.(service := Sync(session))), id, env.fs);
  }

  lemma ReactKeepsValid(c: Conn, e: Event)
    requires c.Valid() && !Panics(c, e)
    ensures React(c, e).0.Valid()
  {
    hide HandleCommand;
    if e.Command? {
      CommandKeepsValid(c, e.header, e.payload, e.env);
    }
  }

  // ----- Runs -----

  /** No event of the run panics. */
  predicate Legal(c: Conn, es: seq<Event>)
    requires c.Valid()
    decreases |es|
  {
    es == [] || (!Panics(c, es[0]) && (ReactKeepsValid(c, es[0]); Legal(React(c, es[0]).0, es[1..])))
  }

  /** Where a run leads and everything it submits, in order. */
  function Run(c: Conn, es: seq<Event>): (r: (Conn, seq<Output>))
    requires c.Valid() && Legal(c, es)
    ensures r.0.Valid()
    decreases |es|
  {
    if es == [] then (c, [])
    else
      ReactKeepsValid(c, es[0]);
      var (c1, outs) := React(c, es[0]);
      var (c2, rest) := Run(c1, es[1..]);
      (c2, outs + rest)
  }
}
