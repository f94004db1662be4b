/** What every state of the event loop keeps: the pool agrees with the ring, exactly one bulk-out
    read is outstanding, and the connection is where its dispatched events lead. */
module RingInvariants {
  import opened Basics
  import opened Message
  import opened Tags
  import opened Buffers
  import opened SyncCodec
  import opened Sender
  import opened SyncService
  import opened Protocol
  import opened EventRing

  // ----- The pool -----

  /** A slot is taken exactly while a write of its own is pending, one write, and it still holds
      the bytes the write was submitted with. */
  predicate PoolAt(r: Ring, s: SlotId) {
    && r.pending[WriteTag(s)] == (if s in r.writes then 1 else 0)
    && r.slots[s - 1] == (if s in r.writes then Some(r.writes[s]) else None)
  }

  ghost predicate PoolInv(r: Ring) {
    forall s: SlotId :: PoolAt(r, s)
  }

  lemma PackInjective(u: UserData, v: UserData)
    ensures Pack(u) == Pack(v) <==> u == v
  {
    UnpackOfPack(u);
    UnpackOfPack(v);
  }

  lemma PutBufferKeepsPool(r: Ring, data: seq<byte>, link: bool)
    requires PoolInv(r) && CountFree(r.slots) > 0
    ensures PoolInv(PutBuffer(r, data, link))
  {
    hide Pack;
    CountFreeZero(r.slots);
    var slot := FirstFree(r.slots);
    var r' := PutBuffer(r, data, link);
    forall s: SlotId ensures PoolAt(r', s) {
      assert PoolAt(r, s);
      PackInjective(UserData(BulkInWrite, Some(s)), UserData(BulkInWrite, Some(slot)));
    }
  }

  /** Pushing anything but a write leaves the pool alone. */
  lemma PushKeepsPool(r: Ring, sqe: Sqe, u: UserData)
    requires PoolInv(r) && sqe.tag == Pack(u) && !u.op.BulkInWrite?
    ensures PoolInv(Push(r, sqe))
  {
    hide Pack;
    forall s: SlotId ensures PoolAt(Push(r, sqe), s) {
      assert PoolAt(r, s);
      PackInjective(UserData(BulkInWrite, Some(s)), u);
    }
  }

  lemma SubmitKeepsPool(r: Ring, o: Output)
    requires PoolInv(r) && SlotsNeeded(o) <= CountFree(r.slots)
    ensures PoolInv(Submit(r, o))
  {
    hide PoolInv, Pack, PutBuffer, HeaderBytes, HeaderFromPayload;
    match o
    case Send(_, _, _, _, payload) =>
      PutBufferKeepsPool(r, HeaderBytes(HeaderOf(o)), payload != []);
      if payload != [] {
        PutBufferKeepsPool(PutBuffer(r, HeaderBytes(HeaderOf(o)), true), payload, false);
      }
    case StartPtyRead(id) => PushKeepsPool(r, ReadOp(PtyTag(id)), UserData(OpType.PtyRead, Some(id)));
    case StartSocketRead(id) => PushKeepsPool(r, ReadOp(SocketTag(id)), UserData(OpType.SocketRead, Some(id)));
  }

  lemma {:induction false} SubmitAllKeepsPool(r: Ring, outs: seq<Output>)
    requires PoolInv(r) && AllSlotsNeeded(outs) <= CountFree(r.slots)
    ensures PoolInv(SubmitAll(r, outs))
    decreases |outs|
  {
    hide PoolInv, Submit;
    if outs != [] {
      SubmitKeepsPool(r, outs[0]);
      SubmitAllKeepsPool(Submit(r, outs[0]), outs[1..]);
    }
  }

  lemma CompleteKeepsPool(r: Ring, u: UserData)
    requires PoolInv(r) && !u.op.BulkInWrite?
    ensures PoolInv(Complete(r, Pack(u)))
  {
    hide Pack;
    forall s: SlotId ensures PoolAt(Complete(r, Pack(u)), s) {
      assert PoolAt(r, s);
      PackInjective(UserData(BulkInWrite, Some(s)), u);
    }
  }

  /** A completed write, successful or not, gives back exactly its own slot, which until then held
      the bytes it was submitted with. */
  lemma WriteCompletion(r: Ring, slot: SlotId)
    requires PoolInv(r) && WriteTag(slot) in r.pending
    ensures slot in r.writes && r.slots[slot - 1] == Some(r.writes[slot])
    ensures var r' := FreeSlot(Complete(r, WriteTag(slot)), slot);
            && PoolInv(r')
            && r'.writes.Keys == r.writes.Keys - {slot}
            && CountFree(r'.slots) == CountFree(r.slots) + 1
  {
    hide Pack;
    assert PoolAt(r, slot);
    var r' := FreeSlot(Complete(r, WriteTag(slot)), slot);
    CountFreeUpdate(r.slots, slot - 1, None);
    forall s: SlotId ensures PoolAt(r', s) {
      assert PoolAt(r, s);
      PackInjective(UserData(BulkInWrite, Some(s)), UserData(BulkInWrite, Some(slot)));
    }
  }

  // ----- Tags -----

  /** The data each operation is tagged with; reads name streams that have been opened. */
  predicate GoodTag(t: u64, nextId: u32) {
    match Unpack(t)
    case None => false
    case Some(UserData(op, data)) =>
      match op
      case BulkInWrite => data.Some? && data.value <= MAX_BUFFER_SLOTS
      case PtyRead => data.Some? && data.value < nextId
      case SocketRead => data.Some? && data.value < nextId
      case _ => data.None?
  }

  ghost predicate TagsInv(r: Ring, nextId: u32) {
    forall t <- r.pending :: GoodTag(t, nextId)
  }

  /** The reads an output starts have ids below the bound. */
  predicate ReadsBelow(o: Output, nextId: u32) {
    && (o.StartPtyRead? ==> o.id < nextId)
    && (o.StartSocketRead? ==> o.id < nextId)
  }

  lemma GoodTags(nextId: u32)
    ensures GoodTag(HeaderTag(), nextId) && GoodTag(PayloadTag(), nextId) && GoodTag(Ep0Tag(), nextId)
    ensures forall s: SlotId :: GoodTag(WriteTag(s), nextId)
    ensures forall id: LocalId {:trigger PtyTag(id)} {:trigger SocketTag(id)} ::
      id < nextId ==> GoodTag(PtyTag(id), nextId) && GoodTag(SocketTag(id), nextId)
  {
    hide Pack, Unpack;
    UnpackOfPack(UserData(BulkOutReadHeader, None));
    UnpackOfPack(UserData(BulkOutReadPayload, None));
    UnpackOfPack(UserData(Ep0Poll, None));
    forall s: SlotId ensures GoodTag(WriteTag(s), nextId) {
      UnpackOfPack(UserData(BulkInWrite, Some(s)));
    }
    forall id: LocalId | id < nextId ensures GoodTag(PtyTag(id), nextId) && GoodTag(SocketTag(id), nextId) {
      UnpackOfPack(UserData(OpType.PtyRead, Some(id)));
      UnpackOfPack(UserData(OpType.SocketRead, Some(id)));
    }
  }

  lemma {:induction false} SubmitAllKeepsTags(r: Ring, outs: seq<Output>, nextId: u32)
    requires TagsInv(r, nextId) && AllSlotsNeeded(outs) <= CountFree(r.slots)
    requires forall o <- outs :: ReadsBelow(o, nextId)
    ensures TagsInv(SubmitAll(r, outs), nextId)
    decreases |outs|
  {
    hide GoodTag, Pack, HeaderBytes, HeaderFromPayload, FirstFree;
    if outs != [] {
      GoodTags(nextId);
      assert ReadsBelow(outs[0], nextId);
      SubmitAllKeepsTags(Submit(r, outs[0]), outs[1..], nextId);
    }
  }

  lemma TagsMonotone(r: Ring, a: u32, b: u32)
    requires TagsInv(r, a) && a <= b
    ensures TagsInv(r, b)
  {
    hide Unpack;
    forall t <- r.pending ensures GoodTag(t, b) {
      assert GoodTag(t, a);
    }
  }

  // ----- How often a tag is pending -----

  function Starts(o: Output, u: UserData): nat {
    match o
    case Send(_, _, _, _, _) => 0
    case StartPtyRead(id) => if u == UserData(OpType.PtyRead, Some(id)) then 1 else 0
    case StartSocketRead(id) => if u == UserData(OpType.SocketRead, Some(id)) then 1 else 0
  }

  function AllStarts(outs: seq<Output>, u: UserData): nat {
    if outs == [] then 0 else Starts(outs[0], u) + AllStarts(outs[1..], u)
  }

  lemma PutBufferPending(r: Ring, data: seq<byte>, link: bool, u: UserData)
    requires CountFree(r.slots) > 0 && !u.op.BulkInWrite?
    ensures PutBuffer(r, data, link).pending[Pack(u)] == r.pending[Pack(u)]
  {
    hide Pack;
    CountFreeZero(r.slots);
    PackInjective(u, UserData(BulkInWrite, Some(FirstFree(r.slots))));
  }

  lemma SubmitPending(r: Ring, o: Output, u: UserData)
    requires SlotsNeeded(o) <= CountFree(r.slots) && !u.op.BulkInWrite?
    ensures Submit(r, o).pending[Pack(u)] == r.pending[Pack(u)] + Starts(o, u)
  {
    hide Pack, PutBuffer, HeaderBytes, HeaderFromPayload;
    match o
    case Send(_, _, _, _, payload) =>
      PutBufferPending(r, HeaderBytes(HeaderOf(o)), payload != [], u);
      if payload != [] {
        PutBufferPending(PutBuffer(r, HeaderBytes(HeaderOf(o)), true), payload, false, u);
      }
    case StartPtyRead(id) => PackInjective(u, UserData(OpType.PtyRead, Some(id)));
    case StartSocketRead(id) => PackInjective(u, UserData(OpType.SocketRead, Some(id)));
  }

  lemma {:induction false} SubmitAllPending(r: Ring, outs: seq<Output>, u: UserData)
    requires AllSlotsNeeded(outs) <= CountFree(r.slots) && !u.op.BulkInWrite?
    ensures SubmitAll(r, outs).pending[Pack(u)] == r.pending[Pack(u)] + AllStarts(outs, u)
    decreases |outs|
  {
    hide Pack, Submit, Starts;
    if outs != [] {
      SubmitPending(r, outs[0], u);
      SubmitAllPending(Submit(r, outs[0]), outs[1..], u);
    }
  }

  lemma {:induction false} NoStarts(outs: seq<Output>, u: UserData)
    requires !u.op.PtyRead? && !u.op.SocketRead?
    ensures AllStarts(outs, u) == 0
  {
    if outs != [] {
      NoStarts(outs[1..], u);
    }
  }

  // ----- The loop -----

  /** While the loop runs, one ep0 poll and one bulk-out read are outstanding, the read being a
      payload read exactly when a header waits for its payload. */
  predicate ReaderInv(w: World) {
    && w.ring.pending[Ep0Tag()] == 1
    && w.ring.pending[HeaderTag()] + w.ring.pending[PayloadTag()] == 1
    && (w.ring.pending[PayloadTag()] == 1 <==> w.pendingHeader.Some?)
    && (w.pendingHeader.Some? ==> w.pendingHeader.value.dataLength > 0)
  }

  ghost predicate Inv(w: World) {
    && w.conn.Valid()
    && PoolInv(w.ring)
    && TagsInv(w.ring, w.conn.nextId)
    && (w.running ==> ReaderInv(w))
  }

  lemma WrteStartsNothing(c: Conn, h: AdbHeader, payload: seq<byte>, env: Env)
    requires c.Valid()
    requires h.arg1 in c.streams ==> !c.streams[h.arg1].service.Reboot?
    ensures HandleWrte(c, h, payload, env).0.nextId == c.nextId
    ensures forall o <- HandleWrte(c, h, payload, env).1 :: o.Send?
  {
    hide Handle, NextFrame, StatBytes, ReplyBytes;
  }

  lemma ReactReadsBelow(c: Conn, e: Event)
    requires c.Valid() && !Panics(c, e)
    ensures React(c, e).0.nextId >= c.nextId
    ensures forall o <- React(c, e).1 :: ReadsBelow(o, React(c, e).0.nextId)
  {
    hide Requested, HandleWrte, NextFrame, ReplyBytes;
    if e.Command? && e.header.command.Wrte? {
      WrteStartsNothing(c, e.header, e.payload.value, e.env);
    }
  }

  /** Handling an event leaves the loop's own operations alone. */
  ghost predicate SameReader(w: World, w': World) {
    && w'.running == w.running && w'.pendingHeader == w.pendingHeader
    && w'.ring.pending[Ep0Tag()] == w.ring.pending[Ep0Tag()]
    && w'.ring.pending[HeaderTag()] == w.ring.pending[HeaderTag()]
    && w'.ring.pending[PayloadTag()] == w.ring.pending[PayloadTag()]
  }

  lemma PerformKeeps(w: World, e: Option<Event>)
    requires w.conn.Valid() && PoolInv(w.ring) && TagsInv(w.ring, w.conn.nextId)
    requires e.Some? ==> !Panics(w.conn, e.value) && AllSlotsNeeded(React(w.conn, e.value).1) <= CountFree(w.ring.slots)
    ensures var w' := PerformRaised(w, e);
            && w'.conn.Valid() && PoolInv(w'.ring) && TagsInv(w'.ring, w'.conn.nextId) && SameReader(w, w')
  {
    hide React, Panics, PoolInv, TagsInv, SubmitAll, Pack;
    if e.Some? {
      var (c, outs) := React(w.conn, e.value);
      ReactKeepsValid(w.conn, e.value);
      ReactReadsBelow(w.conn, e.value);
      SubmitAllKeepsPool(w.ring, outs);
      TagsMonotone(w.ring, w.conn.nextId, c.nextId);
      SubmitAllKeepsTags(w.ring, outs, c.nextId);
      SubmitAllLoopTags(w.ring, outs);
    }
  }

  lemma SubmitAllLoopTags(r: Ring, outs: seq<Output>)
    requires AllSlotsNeeded(outs) <= CountFree(r.slots)
    ensures SubmitAll(r, outs).pending[Ep0Tag()] == r.pending[Ep0Tag()]
    ensures SubmitAll(r, outs).pending[HeaderTag()] == r.pending[HeaderTag()]
    ensures SubmitAll(r, outs).pending[PayloadTag()] == r.pending[PayloadTag()]
  {
    hide Pack, SubmitAll;
    var e, h, p := UserData(Ep0Poll, None), UserData(BulkOutReadHeader, None), UserData(BulkOutReadPayload, None);
    SubmitAllPending(r, outs, e);
    SubmitAllPending(r, outs, h);
    SubmitAllPending(r, outs, p);
    NoStarts(outs, e);
    NoStarts(outs, h);
    NoStarts(outs, p);
  }

  lemma LoopTagsDistinct()
    ensures Ep0Tag() != HeaderTag() && Ep0Tag() != PayloadTag() && HeaderTag() != PayloadTag()
  {
    hide Pack;
    PackInjective(UserData(Ep0Poll, None), UserData(BulkOutReadHeader, None));
    PackInjective(UserData(Ep0Poll, None), UserData(BulkOutReadPayload, None));
    PackInjective(UserData(BulkOutReadHeader, None), UserData(BulkOutReadPayload, None));
  }

  /** Completing an operation that is not one of the loop's own. */
  lemma CompleteOther(w: World, u: UserData)
    requires u.op.PtyRead? || u.op.SocketRead? || u.op.BulkInWrite?
    ensures SameReader(w, w.(ring := Complete(w.ring, Pack(u))))
  {
    hide Pack;
    PackInjective(u, UserData(Ep0Poll, None));
    PackInjective(u, UserData(BulkOutReadHeader, None));
    PackInjective(u, UserData(BulkOutReadPayload, None));
  }

  lemma CompleteKeepsTags(r: Ring, tag: u64, nextId: u32)
    requires TagsInv(r, nextId)
    ensures TagsInv(Complete(r, tag), nextId)
  {
    hide GoodTag;
    assert forall t <- Complete(r, tag).pending :: t in r.pending;
  }

  /** Pushing one of the loop's own operations. */
  lemma IssueKeeps(w: World, sqe: Sqe, u: UserData)
    requires PoolInv(w.ring) && TagsInv(w.ring, w.conn.nextId)
    requires sqe.tag == Pack(u) && u.data.None?
    requires u.op.Ep0Poll? || u.op.BulkOutReadHeader? || u.op.BulkOutReadPayload?
    ensures PoolInv(Issue(w, sqe).ring) && TagsInv(Issue(w, sqe).ring, w.conn.nextId)
  {
    hide GoodTag, Pack, PoolInv;
    GoodTags(w.conn.nextId);
    PushKeepsPool(w.ring, sqe, u);
  }

  lemma StreamReadKeepsInv(w: World, cqe: Cqe, u: UserData)
    requires Inv(w) && w.running && Owed(w, cqe) && Calm(w, cqe)
    requires Unpack(cqe.tag) == Some(u) && (u.op.PtyRead? || u.op.SocketRead?)
    ensures Inv(Dispatch(w, cqe))
  {
    hide React, Panics, PoolInv, TagsInv, Pack, Unpack, PerformRaised;
    PackOfUnpack(cqe.tag);
    var w0 := w.(ring := Complete(w.ring, cqe.tag));
    CompleteKeepsPool(w.ring, u);
    CompleteKeepsTags(w.ring, cqe.tag, w.conn.nextId);
    CompleteOther(w, u);
    PerformKeeps(w0, Raised(w, cqe));
  }

  lemma WriteKeepsInv(w: World, cqe: Cqe, slot: SlotId)
    requires Inv(w) && w.running && Owed(w, cqe) && Calm(w, cqe)
    requires Unpack(cqe.tag) == Some(UserData(BulkInWrite, Some(slot)))
    ensures Inv(Dispatch(w, cqe))
  {
    hide PoolInv, TagsInv, Pack, Unpack;
    PackOfUnpack(cqe.tag);
    WriteCompletion(w.ring, slot);
    CompleteKeepsTags(w.ring, cqe.tag, w.conn.nextId);
    CompleteOther(w, UserData(BulkInWrite, Some(slot)));
    TagsIgnoreSlots(Complete(w.ring, cqe.tag), slot, w.conn.nextId);
  }

  lemma TagsIgnoreSlots(r: Ring, slot: SlotId, nextId: u32)
    requires TagsInv(r, nextId)
    ensures TagsInv(FreeSlot(r, slot), nextId)
  {
    hide GoodTag;
  }

  lemma Ep0KeepsInv(w: World, cqe: Cqe)
    requires Inv(w) && w.running && Owed(w, cqe) && Calm(w, cqe)
    requires cqe.tag == Ep0Tag()
    ensures Inv(Dispatch(w, cqe))
  {
    hide PoolInv, TagsInv, Pack, Unpack, React, Panics;
    var u := UserData(Ep0Poll, None);
    UnpackOfPack(u);
    LoopTagsDistinct();
    CompleteKeepsPool(w.ring, u);
    CompleteKeepsTags(w.ring, cqe.tag, w.conn.nextId);
    IssueKeeps(w.(ring := Complete(w.ring, cqe.tag)), PollOp(Ep0Tag()), u);
  }

  lemma HeaderReadKeepsInv(w: World, cqe: Cqe)
    requires Inv(w) && w.running && Owed(w, cqe) && Calm(w, cqe)
    requires cqe.tag == HeaderTag() && cqe.res >= 0
    ensures Inv(Dispatch(w, cqe))
  {
    hide PoolInv, TagsInv, Pack, Unpack, React, Panics, PerformRaised, ParseHeader;
    var u := UserData(BulkOutReadHeader, None);
    UnpackOfPack(u);
    LoopTagsDistinct();
    CompleteKeepsPool(w.ring, u);
    CompleteKeepsTags(w.ring, cqe.tag, w.conn.nextId);
    var w0 := w.(ring := Complete(w.ring, cqe.tag), pendingHeader := AfterHeader(w, cqe).0);
    PerformKeeps(w0, Raised(w, cqe));
    var w1 := PerformRaised(w0, Raised(w, cqe));
    IssueKeeps(w1, ReadOp(HeaderTag()), UserData(BulkOutReadHeader, None));
    IssueKeeps(w1, ReadOp(PayloadTag()), UserData(BulkOutReadPayload, None));
  }

  lemma PayloadReadKeepsInv(w: World, cqe: Cqe)
    requires Inv(w) && w.running && Owed(w, cqe) && Calm(w, cqe)
    requires cqe.tag == PayloadTag() && cqe.res >= 0
    ensures Inv(Dispatch(w, cqe))
  {
    hide PoolInv, TagsInv, Pack, Unpack, React, Panics, PerformRaised, AfterPayload;
    var u := UserData(BulkOutReadPayload, None);
    UnpackOfPack(u);
    LoopTagsDistinct();
    CompleteKeepsPool(w.ring, u);
    CompleteKeepsTags(w.ring, cqe.tag, w.conn.nextId);
    var w0 := w.(ring := Complete(w.ring, cqe.tag), pendingHeader := None);
    PerformKeeps(w0, Raised(w, cqe));
    IssueKeeps(PerformRaised(w0, Raised(w, cqe)), ReadOp(HeaderTag()), UserData(BulkOutReadHeader, None));
  }

  /** A failed bulk-out read ends the loop. */
  lemma FailedReadKeepsInv(w: World, cqe: Cqe, u: UserData)
    requires Inv(w) && w.running && Owed(w, cqe) && Calm(w, cqe)
    requires cqe.tag == Pack(u) && (u.op.BulkOutReadHeader? || u.op.BulkOutReadPayload?) && cqe.res < 0
    ensures Inv(Dispatch(w, cqe))
  {
    hide PoolInv, TagsInv, Pack, Unpack, React, Panics;
    UnpackOfPack(u);
    CompleteKeepsPool(w.ring, u);
    CompleteKeepsTags(w.ring, cqe.tag, w.conn.nextId);
  }

  lemma StepKeepsInv(w: World, cqe: Cqe)
    requires Inv(w) && w.running && Owed(w, cqe) && Calm(w, cqe)
    ensures Inv(Dispatch(w, cqe))
  {
    hide Dispatch, Pack, Unpack, PoolInv, ReaderInv, Calm;
    assert GoodTag(cqe.tag, w.conn.nextId);
    PackOfUnpack(cqe.tag);
    var u := Unpack(cqe.tag).value;
    match u.op
    case PtyRead => StreamReadKeepsInv(w, cqe, u);
    case SocketRead => StreamReadKeepsInv(w, cqe, u);
    case BulkInWrite => WriteKeepsInv(w, cqe, u.data.value);
    case Ep0Poll => Ep0KeepsInv(w, cqe);
    case BulkOutReadHeader =>
      if cqe.res < 0 { FailedReadKeepsInv(w, cqe, u); } else { HeaderReadKeepsInv(w, cqe); }
    case BulkOutReadPayload =>
      if cqe.res < 0 { FailedReadKeepsInv(w, cqe, u); } else { PayloadReadKeepsInv(w, cqe); }
  }

  lemma StartKeepsInv(identity: Text)
    ensures Inv(Start(identity))
  {
    hide Pack, GoodTag;
    var c, nextId := Fresh(identity), 1;
    var r0 := Ring(ALL_FREE, [], multiset{}, map[]);
    var u, v := UserData(Ep0Poll, None), UserData(BulkOutReadHeader, None);
    GoodTags(nextId);
    LoopTagsDistinct();
    assert forall s: SlotId :: PoolAt(r0, s);
    PushKeepsPool(r0, PollOp(Ep0Tag()), u);
    PushKeepsPool(Push(r0, PollOp(Ep0Tag())), ReadOp(HeaderTag()), v);
  }

  /** In every state the loop reaches: occupied slots and pending bulk-in writes correspond one to
      one and each slot still holds the bytes submitted; and while the loop runs exactly one
      bulk-out read is outstanding, a payload read exactly when a header waits for its payload. */
  lemma {:induction false} LoopKeepsInv(w: World, cqes: seq<Cqe>)
    requires Inv(w) && LegalLoop(w, cqes)
    ensures Inv(Loop(w, cqes))
    decreases |cqes|
  {
    hide Dispatch, Calm, PoolInv, TagsInv, ReaderInv;
    if cqes != [] && w.running {
      StepKeepsInv(w, cqes[0]);
      DispatchConn(w, cqes[0]);
      LoopKeepsInv(Dispatch(w, cqes[0]), cqes[1..]);
    }
  }

  /** In such a state the branches the source calls unreachable are: no completion lacks its data
      word, no tag is unknown, and no payload arrives without its header. All that can go wrong
      is a panic of the event itself or a full pool. */
  lemma CalmExactly(w: World, cqe: Cqe)
    requires Inv(w) && w.running && Owed(w, cqe)
    ensures Unpack(cqe.tag).Some?
    ensures Unpack(cqe.tag).value.op.BulkOutReadPayload? ==> w.pendingHeader.Some?
    ensures Calm(w, cqe) <==>
      (Raised(w, cqe).Some? ==>
         && !Panics(w.conn, Raised(w, cqe).value)
         && AllSlotsNeeded(React(w.conn, Raised(w, cqe).value).1) <= CountFree(w.ring.slots))
  {
    hide React, Panics, Pack, Unpack, PoolInv, Raised;
    assert GoodTag(cqe.tag, w.conn.nextId);
    PackOfUnpack(cqe.tag);
  }
}
