/** The event loop's view of io_uring: entries pushed, operations pending, buffers lent to the
    kernel, and what each completion does (`run` and `submit_message` in src/main.rs). */
module EventRing {
  import opened Basics
  import opened Message
  import opened Tags
  import opened Buffers
  import opened Protocol

  datatype Sqe =
    | WriteOp(tag: u64, data: seq<byte>, link: bool)
    | ReadOp(tag: u64)
    | PollOp(tag: u64)

  /** The pool, every entry pushed so far in order, the tags not completed yet, and the bytes each
      pending write was submitted with. */
  datatype Ring = Ring(slots: Slots, sq: seq<Sqe>, pending: multiset<u64>, writes: map<SlotId, seq<byte>>)

  function Tag(op: OpType, data: Option<NonZero>): u64 {
    Pack(UserData(op, data))
  }

  function WriteTag(slot: SlotId): u64 { Tag(BulkInWrite, Some(slot)) }
  function PtyTag(id: LocalId): u64 { Tag(OpType.PtyRead, Some(id)) }
  function SocketTag(id: LocalId): u64 { Tag(OpType.SocketRead, Some(id)) }
  function HeaderTag(): u64 { Tag(BulkOutReadHeader, None) }
  function PayloadTag(): u64 { Tag(BulkOutReadPayload, None) }
  function Ep0Tag(): u64 { Tag(Ep0Poll, None) }

  function Push(r: Ring, sqe: Sqe): Ring {
    r.(sq := r.sq + [sqe], pending := r.pending + multiset{sqe.tag})
  }

  /** One buffer of a message: a slot is taken, filled, and lent to the kernel. */
  function PutBuffer(r: Ring, data: seq<byte>, link: bool): (r': Ring)
    requires CountFree(r.slots) > 0
    ensures CountFree(r'.slots) == CountFree(r.slots) - 1
  {
    CountFreeZero(r.slots);
    var slot := FirstFree(r.slots);
    CountFreeUpdate(r.slots, slot - 1, Some(data));
    Push(r.(slots := r.slots[slot - 1 := Some(data)], writes := r.writes[slot := data]),
         WriteOp(WriteTag(slot), data, link))
  }

  /** A header and, linked behind it, the payload if there is one. */
  function SubmitMessage(r: Ring, h: AdbHeader, payload: seq<byte>): (r': Ring)
    requires CountFree(r.slots) >= if payload == [] then 1 else 2
    ensures CountFree(r'.slots) == CountFree(r.slots) - if payload == [] then 1 else 2
  {
    var r1 := PutBuffer(r, HeaderBytes(h), payload != []);
    if payload == [] then r1 else PutBuffer(r1, payload, false)
  }

  function HeaderOf(o: Output): AdbHeader
    requires o.Send?
  {
    HeaderFromPayload(o.version, o.command, o.arg0, o.arg1, o.payload)
  }

  function SlotsNeeded(o: Output): nat {
    if !o.Send? then 0 else if o.payload == [] then 1 else 2
  }

  function AllSlotsNeeded(outs: seq<Output>): nat {
    if outs == [] then 0 else SlotsNeeded(outs[0]) + AllSlotsNeeded(outs[1..])
  }

  function Submit(r: Ring, o: Output): (r': Ring)
    requires SlotsNeeded(o) <= CountFree(r.slots)
    ensures CountFree(r'.slots) == CountFree(r.slots) - SlotsNeeded(o)
  {
    match o
    case Send(_, _, _, _, payload) => SubmitMessage(r, HeaderOf(o), payload)
    case StartPtyRead(id) => Push(r, ReadOp(PtyTag(id)))
    case StartSocketRead(id) => Push(r, ReadOp(SocketTag(id)))
  }

  function SubmitAll(r: Ring, outs: seq<Output>): (r': Ring)
    requires AllSlotsNeeded(outs) <= CountFree(r.slots)
    ensures CountFree(r'.slots) == CountFree(r.slots) - AllSlotsNeeded(outs)
    decreases |outs|
  {
    if outs == [] then r else SubmitAll(Submit(r, outs[0]), outs[1..])
  }

  /** The kernel hands an operation back. */
  function Complete(r: Ring, tag: u64): Ring {
    r.(pending := r.pending - multiset{tag})
  }

  function FreeSlot(r: Ring, slot: SlotId): Ring {
    r.(slots := r.slots[slot - 1 := None], writes := r.writes - {slot})
  }

  // ----- The loop -----

  datatype World = World(conn: Conn, pendingHeader: Option<AdbHeader>, ring: Ring, running: bool)

  /** A completion: its tag, its result, the bytes it read, and what the environment answers while
      it is handled; `disabled` is what the ep0 event says. */
  datatype Cqe = Cqe(tag: u64, res: int, data: Text, env: Env, disabled: bool)

  function Start(identity: Text): World {
    World(Fresh(identity), None,
          Push(Push(Ring(ALL_FREE, [], multiset{}, map[]), PollOp(Ep0Tag())), ReadOp(HeaderTag())),
          true)
  }

  function ReadResultOf(cqe: Cqe): ReadResult {
    if cqe.res <= 0 || cqe.data == [] then Ended else Got(cqe.data)
  }

  /** What a completed header read leaves pending, and what it dispatches. */
  function AfterHeader(w: World, cqe: Cqe): (Option<AdbHeader>, Option<Event>) {
    match ParseHeader(cqe.data)
    case None => (w.pendingHeader, None)
    case Some(h) =>
      if h.dataLength > 0 then (Some(h), None) else (w.pendingHeader, Some(Command(h, None, cqe.env)))
  }

  /** What a completed payload read dispatches: nothing when the checksum is required and wrong. */
  function AfterPayload(w: World, cqe: Cqe): Option<Event> {
    match w.pendingHeader
    case None => None
    case Some(h) =>
      if w.conn.version == V0 && Checksum(cqe.data) != h.dataCheck then None
      else Some(Command(h, Some(cqe.data), cqe.env))
  }

  /** The event a completion raises on the connection, if any. */
  function Raised(w: World, cqe: Cqe): Option<Event> {
    match Unpack(cqe.tag)
    case Some(UserData(PtyRead, Some(id))) => Some(Event.PtyRead(id, ReadResultOf(cqe)))
    case Some(UserData(SocketRead, Some(id))) => Some(Event.SocketRead(id, ReadResultOf(cqe)))
    case Some(UserData(BulkOutReadHeader, _)) => if cqe.res < 0 then None else AfterHeader(w, cqe).1
    case Some(UserData(BulkOutReadPayload, _)) => if cqe.res < 0 then None else AfterPayload(w, cqe)
    case _ => None
  }

  /** The completion is one the ring owes, and its data is what it read. */
  predicate Owed(w: World, cqe: Cqe) {
    && cqe.tag in w.ring.pending
    && |cqe.data| == if cqe.res > 0 then cqe.res else 0
  }

  /** No panic while it is handled: tags carry the data their operation needs, the event does not
      panic, and the pool has room for exactly the messages it leads to. */
  predicate Calm(w: World, cqe: Cqe)
    requires w.conn.Valid()
  {
    && (match Unpack(cqe.tag)
        case Some(UserData(PtyRead, d)) => d.Some?
        case Some(UserData(SocketRead, d)) => d.Some?
        case Some(UserData(BulkInWrite, d)) => if d.Some? then d.value <= MAX_BUFFER_SLOTS else cqe.res < 0
        case _ => true)
    && (Raised(w, cqe).Some? ==>
          && !Panics(w.conn, Raised(w, cqe).value)
          && AllSlotsNeeded(React(w.conn, Raised(w, cqe).value).1) <= CountFree(w.ring.slots))
  }

  function Perform(w: World, r: (Conn, seq<Output>)): World
    requires AllSlotsNeeded(r.1) <= CountFree(w.ring.slots)
  {
    w.(conn := r.0, ring := SubmitAll(w.ring, r.1))
  }

  function PerformRaised(w: World, e: Option<Event>): World
    requires w.conn.Valid()
    requires e.Some? ==> !Panics(w.conn, e.value) && AllSlotsNeeded(React(w.conn, e.value).1) <= CountFree(w.ring.slots)
  {
    if e.None? then w else Perform(w, React(w.conn, e.value))
  }

  function Issue(w: World, sqe: Sqe): World {
    w.(ring := Push(w.ring, sqe))
  }

  /** One completion, matched in the order the loop matches it. */
  function Dispatch(w: World, cqe: Cqe): World
    requires w.conn.Valid() && Calm(w, cqe)
  {
    var w0 := w.(ring := Complete(w.ring, cqe.tag));
    match Unpack(cqe.tag)
    case None => w0
    case Some(UserData(op, data)) =>
      if op.PtyRead? || op.SocketRead? then PerformRaised(w0, Raised(w, cqe))
      else if op.BulkInWrite? && data.Some? then w0.(ring := FreeSlot(w0.ring, data.value))
      else if cqe.res < 0 then w0.(running := false)
      else if op.Ep0Poll? then
        if cqe.disabled then w0.(running := false) else Issue(w0, PollOp(Ep0Tag()))
      else if op.BulkOutReadHeader? then
        var (pending, _) := AfterHeader(w, cqe);
        var w1 := PerformRaised(w0.(pendingHeader := pending), Raised(w, cqe));
        var payload := ParseHeader(cqe.data).Some? && ParseHeader(cqe.data).value.dataLength > 0;
        Issue(w1, ReadOp(if payload then PayloadTag() else HeaderTag()))
      else
        assert op.BulkOutReadPayload?;
        Issue(PerformRaised(w0.(pendingHeader := None), Raised(w, cqe)), ReadOp(HeaderTag()))
  }

  lemma DispatchConn(w: World, cqe: Cqe)
    requires w.conn.Valid() && Calm(w, cqe)
    ensures Dispatch(w, cqe).conn == if Raised(w, cqe).Some? then React(w.conn, Raised(w, cqe).value).0 else w.conn
    ensures Dispatch(w, cqe).conn.Valid()
  {
    hide React, Panics;
    if Raised(w, cqe).Some? {
      ReactKeepsValid(w.conn, Raised(w, cqe).value);
    }
  }

  /** Completions the loop handles until it stops; those left when it stops are never looked at. */
  predicate LegalLoop(w: World, cqes: seq<Cqe>)
    requires w.conn.Valid()
    decreases |cqes|
  {
    cqes == [] || !w.running
    || (Owed(w, cqes[0]) && Calm(w, cqes[0])
        && (DispatchConn(w, cqes[0]); LegalLoop(Dispatch(w, cqes[0]), cqes[1..])))
  }

  function Loop(w: World, cqes: seq<Cqe>): (w': World)
    requires w.conn.Valid() && LegalLoop(w, cqes)
    ensures w'.conn.Valid()
    decreases |cqes|
  {
    if cqes == [] || !w.running then w
    else
      DispatchConn(w, cqes[0]);
      Loop(Dispatch(w, cqes[0]), cqes[1..])
  }
}
