/** Flow control in terms of the ring: in every state of the loop, each shell or forward stream has
    one read pending or one WRTE unanswered. Nothing is asked of the ring, and of the host only
    that it does not acknowledge what it has already acknowledged. */
module RingFlow {
  import opened Basics
  import opened Message
  import opened Tags
  import opened SyncCodec
  import opened Sender
  import opened SyncService
  import opened Protocol
  import opened StreamMachine
  import opened Isolation
  import opened Lifecycle
  import opened FlowControl
  import opened EventRing
  import opened RingInvariants
  import opened History

  function PtyData(id: LocalId): UserData { UserData(OpType.PtyRead, Some(id)) }
  function SocketData(id: LocalId): UserData { UserData(OpType.SocketRead, Some(id)) }

  function IsOkayFor(e: Option<Event>, id: LocalId): bool {
    e.Some? && Own(e.value, id).Some? && Own(e.value, id).value.HostOkay?
  }

  /** WRTEs sent on the stream and not answered yet, as the host counts them. */
  function TrackUnacked(u: nat, e: Option<Event>, outs: seq<Output>, id: LocalId): nat {
    (if IsOkayFor(e, id) then Minus1(u) else u) + CountWrites(Local(outs, id))
  }

  function UnackedAfter(w: World, cqes: seq<Cqe>, id: LocalId, u: nat): nat
    requires w.conn.Valid() && LegalLoop(w, cqes)
    decreases |cqes|
  {
    if cqes == [] || !w.running then u
    else
      DispatchConn(w, cqes[0]);
      UnackedAfter(Dispatch(w, cqes[0]), cqes[1..], id,
                   TrackUnacked(u, Raised(w, cqes[0]), StepOutputs(w, cqes[0]), id))
  }

  /** While the stream is open, every OKAY of the host for it answers a WRTE not answered yet. */
  predicate HonestHost(w: World, cqes: seq<Cqe>, id: LocalId, u: nat)
    requires w.conn.Valid() && LegalLoop(w, cqes)
    decreases |cqes|
  {
    cqes == [] || !w.running ||
    (&& (IsOkayFor(Raised(w, cqes[0]), id) && id in w.conn.streams ==> u > 0)
     && (DispatchConn(w, cqes[0]);
         HonestHost(Dispatch(w, cqes[0]), cqes[1..], id,
                    TrackUnacked(u, Raised(w, cqes[0]), StepOutputs(w, cqes[0]), id))))
  }

  /** What holds of one local id in one state. */
  predicate FlowAt(w: World, id: LocalId, u: nat) {
    var pty, socket := w.ring.pending[PtyTag(id)], w.ring.pending[SocketTag(id)];
    && (id >= w.conn.nextId ==> u == 0)
    && (id in w.conn.streams ==>
          match w.conn.streams[id].service
          case Shell(_) => socket == 0 && Flow(w.conn.Get(id), Outstanding(pty, u), true)
          case Forward(_, _) => pty == 0 && Flow(w.conn.Get(id), Outstanding(socket, u), false)
          case _ => pty == 0 && socket == 0)
  }

  // ----- Counting reads -----

  function CountPty(outs: seq<LocalOut>): nat {
    if outs == [] then 0 else (if outs[0].ReadPty? then 1 else 0) + CountPty(outs[1..])
  }

  function CountSocket(outs: seq<LocalOut>): nat {
    if outs == [] then 0 else (if outs[0].ReadSocket? then 1 else 0) + CountSocket(outs[1..])
  }

  lemma {:induction false} CountsSplit(outs: seq<LocalOut>)
    ensures CountReads(outs) == CountPty(outs) + CountSocket(outs)
  {
    if outs != [] {
      CountsSplit(outs[1..]);
    }
  }

  lemma ReadsHead(o: LocalOut, rest: seq<LocalOut>)
    ensures CountPty([o] + rest) == (if o.ReadPty? then 1 else 0) + CountPty(rest)
    ensures CountSocket([o] + rest) == (if o.ReadSocket? then 1 else 0) + CountSocket(rest)
  {
    assert ([o] + rest)[1..] == rest;
  }

  lemma {:induction false} StartsAreReads(outs: seq<Output>, id: LocalId)
    ensures AllStarts(outs, PtyData(id)) == CountPty(Local(outs, id))
    ensures AllStarts(outs, SocketData(id)) == CountSocket(Local(outs, id))
  {
    if outs != [] {
      var head, rest := Listed(LocalOf(outs[0], id)), Local(outs[1..], id);
      StartsAreReads(outs[1..], id);
      if head == [] {
        assert [] + rest == rest;
      } else {
        assert head == [head[0]] && (head + rest)[1..] == rest;
      }
    }
  }

  /** How a completion changes the number of pending reads with a given tag. */
  lemma DispatchPending(w: World, cqe: Cqe, u: UserData)
    requires w.conn.Valid() && Calm(w, cqe) && cqe.tag in w.ring.pending
    requires u.op.PtyRead? || u.op.SocketRead?
    ensures Dispatch(w, cqe).ring.pending[Pack(u)]
            == w.ring.pending[Pack(u)] - (if cqe.tag == Pack(u) then 1 else 0) + AllStarts(StepOutputs(w, cqe), u)
  {
    hide React, Panics, Pack, Unpack, SubmitAll, Raised, Starts, AfterHeader, ParseHeader, AllStarts;
    var r0 := Complete(w.ring, cqe.tag);
    SubmitAllPending(r0, StepOutputs(w, cqe), u);
    NothingStarts(u);
    PackInjective(u, UserData(Ep0Poll, None));
    PackInjective(u, UserData(BulkOutReadHeader, None));
    PackInjective(u, UserData(BulkOutReadPayload, None));
    QuietOps(w, cqe);
  }

  lemma NothingStarts(u: UserData)
    ensures AllStarts([], u) == 0
  {
  }

  /** Completions that raise no event on the connection. */
  lemma QuietOps(w: World, cqe: Cqe)
    ensures Unpack(cqe.tag).None? ==> Raised(w, cqe).None?
    ensures Unpack(cqe.tag).Some? && (Unpack(cqe.tag).value.op.Ep0Poll? || Unpack(cqe.tag).value.op.BulkInWrite?)
      ==> Raised(w, cqe).None?
    ensures Unpack(cqe.tag).Some? && cqe.res < 0
            && !Unpack(cqe.tag).value.op.PtyRead? && !Unpack(cqe.tag).value.op.SocketRead?
      ==> Raised(w, cqe).None?
  {
    hide Unpack, AfterHeader, AfterPayload;
  }

  lemma RaisedByRead(w: World, cqe: Cqe, id: LocalId)
    ensures cqe.tag == PtyTag(id)
            <==> (Raised(w, cqe).Some? && Raised(w, cqe).value.PtyRead? && Raised(w, cqe).value.id == id)
    ensures cqe.tag == SocketTag(id)
            <==> (Raised(w, cqe).Some? && Raised(w, cqe).value.SocketRead? && Raised(w, cqe).value.id == id)
  {
    hide Pack, Unpack, ParseHeader, Checksum;
    UnpackOfPack(PtyData(id));
    UnpackOfPack(SocketData(id));
    PackOfUnpack(cqe.tag);
  }

  // ----- One completion -----

  /** An open stream emits reads of its own kind only, and keeps its kind. */
  lemma StepKind(s: Stream, e: LocalEvent)
    requires s.Valid() && LocalLegal(Some(s), e)
    ensures var (st, outs) := Step(Some(s), e);
            && (!s.service.Shell? ==> CountPty(outs) == 0)
            && (!s.service.Forward? ==> CountSocket(outs) == 0)
            && (st.Some? ==>
                  && (st.value.service.Shell? <==> s.service.Shell?)
                  && (st.value.service.Forward? <==> s.service.Forward?))
  {
    hide Handle, NextFrame, StatBytes, ReplyBytes;
    var outs := Step(Some(s), e).1;
    if outs != [] {
      ReadsHead(outs[0], outs[1..]);
      assert outs == [outs[0]] + outs[1..];
    }
  }

  /** What an event of its own does to an open stream and to its pending reads. */
  lemma OwnEvent(w: World, cqe: Cqe, id: LocalId, le: LocalEvent)
    requires w.conn.Valid() && cqe.tag in w.ring.pending && Calm(w, cqe) && id in w.conn.streams && id < w.conn.nextId
    requires Raised(w, cqe).Some? && Own(Raised(w, cqe).value, id) == Some(le)
    ensures LocalLegal(w.conn.Get(id), le)
    ensures var w', (st, outs) := Dispatch(w, cqe), Step(w.conn.Get(id), le);
            && w'.conn.Get(id) == st && Local(StepOutputs(w, cqe), id) == outs
            && w'.conn.nextId >= w.conn.nextId
            && w'.ring.pending[PtyTag(id)]
               == w.ring.pending[PtyTag(id)] - (if le.PtyDone? then 1 else 0) + CountPty(outs)
            && w'.ring.pending[SocketTag(id)]
               == w.ring.pending[SocketTag(id)] - (if le.SocketDone? then 1 else 0) + CountSocket(outs)
            && (le.PtyDone? ==> w.ring.pending[PtyTag(id)] > 0)
            && (le.SocketDone? ==> w.ring.pending[SocketTag(id)] > 0)
  {
    hide Dispatch, React, Panics, Step, Pack, Raised;
    var e, outs := Raised(w, cqe).value, StepOutputs(w, cqe);
    OneStep(w.conn, e, id);
    DispatchConn(w, cqe);
    DispatchPending(w, cqe, PtyData(id));
    DispatchPending(w, cqe, SocketData(id));
    StartsAreReads(outs, id);
    RaisedByRead(w, cqe, id);
  }

  /** A stream that some event of its own reaches. */
  lemma OwnEventKeepsFlow(w: World, cqe: Cqe, id: LocalId, u: nat, le: LocalEvent)
    requires Inv(w) && w.running && Owed(w, cqe) && Calm(w, cqe)
    requires FlowAt(w, id, u) && id in w.conn.streams
    requires Raised(w, cqe).Some? && Own(Raised(w, cqe).value, id) == Some(le)
    requires IsOkayFor(Raised(w, cqe), id) ==> u > 0
    ensures FlowAt(Dispatch(w, cqe), id, TrackUnacked(u, Raised(w, cqe), StepOutputs(w, cqe), id))
  {
    hide Dispatch, React, Panics, Step, Pack, PoolInv, TagsInv, Raised, Flow, ReaderInv, Calm, Own;
    var s := w.conn.streams[id];
    OwnEvent(w, cqe, id, le);
    var outs := Step(Some(s), le).1;
    CountsSplit(outs);
    StepKind(s, le);
    if s.service.Shell? {
      StepKeepsFlow(Some(s), Outstanding(w.ring.pending[PtyTag(id)], u), le, true);
    } else if s.service.Forward? {
      StepKeepsFlow(Some(s), Outstanding(w.ring.pending[SocketTag(id)], u), le, false);
    }
  }

  /** A stream that the completion does not concern. */
  lemma OtherEventKeepsFlow(w: World, cqe: Cqe, id: LocalId, u: nat)
    requires Inv(w) && w.running && Owed(w, cqe) && Calm(w, cqe)
    requires FlowAt(w, id, u) && id < w.conn.nextId
    requires Raised(w, cqe).None? || Own(Raised(w, cqe).value, id).None?
    ensures FlowAt(Dispatch(w, cqe), id, TrackUnacked(u, Raised(w, cqe), StepOutputs(w, cqe), id))
  {
    hide Dispatch, React, Panics, Step, Pack, PoolInv, TagsInv, Raised, Flow, ReaderInv;
    var outs := StepOutputs(w, cqe);
    if Raised(w, cqe).Some? {
      OneStep(w.conn, Raised(w, cqe).value, id);
    }
    DispatchConn(w, cqe);
    DispatchPending(w, cqe, PtyData(id));
    DispatchPending(w, cqe, SocketData(id));
    StartsAreReads(outs, id);
    RaisedByRead(w, cqe, id);
    assert w.conn.nextId <= Dispatch(w, cqe).conn.nextId;
    assert Dispatch(w, cqe).conn.Get(id) == w.conn.Get(id);
  }

  /** A removed stream stays removed. */
  lemma RemovedKeepsFlow(w: World, cqe: Cqe, id: LocalId, u: nat)
    requires w.conn.Valid() && Calm(w, cqe) && id < w.conn.nextId && id !in w.conn.streams
    requires Raised(w, cqe).Some?
    ensures FlowAt(Dispatch(w, cqe), id, u)
  {
    hide Dispatch, React, Panics, Raised, Flow;
    OneStep(w.conn, Raised(w, cqe).value, id);
    DispatchConn(w, cqe);
    assert w.conn.Get(id) == None;
    assert Dispatch(w, cqe).conn.Get(id) == None;
  }

  lemma {:induction false} AcksWriteNothing(outs: seq<LocalOut>)
    requires OnlyAcks(outs)
    ensures CountWrites(outs) == 0
  {
    if outs != [] {
      assert outs[0].Ack?;
      AcksWriteNothing(outs[1..]);
    }
  }

  /** An id not handed out yet: the completion opens it, or leaves it alone. */
  lemma UnopenedKeepsFlow(w: World, cqe: Cqe, id: LocalId)
    requires Inv(w) && w.running && Owed(w, cqe) && Calm(w, cqe)
    requires FlowAt(w, id, 0) && id >= w.conn.nextId
    ensures FlowAt(Dispatch(w, cqe), id, TrackUnacked(0, Raised(w, cqe), StepOutputs(w, cqe), id))
  {
    hide Dispatch, React, Panics, Pack, PoolInv, TagsInv, Raised, ReaderInv, Requested, LocalOf;
    var outs := StepOutputs(w, cqe);
    DispatchConn(w, cqe);
    if Raised(w, cqe).Some? {
      var e := Raised(w, cqe).value;
      NextIdStep(w.conn, e);
      if Opens(e) && id == w.conn.nextId {
        OpeningFlow(w, cqe, e);
      } else {
        StepBeforeOpen(w.conn, e, id);
        AcksWriteNothing(Local(outs, id));
        ReactKeepsValid(w.conn, e);
      }
    }
  }

  lemma NoReadsPending(w: World, id: LocalId)
    requires Inv(w) && id >= w.conn.nextId
    ensures w.ring.pending[PtyTag(id)] == 0 && w.ring.pending[SocketTag(id)] == 0
  {
    hide Pack, Unpack, PoolInv;
    UnpackOfPack(PtyData(id));
    UnpackOfPack(SocketData(id));
    assert !GoodTag(PtyTag(id), w.conn.nextId);
    assert !GoodTag(SocketTag(id), w.conn.nextId);
  }

  lemma OpeningFlow(w: World, cqe: Cqe, e: Event)
    requires Inv(w) && Owed(w, cqe) && Calm(w, cqe)
    requires Raised(w, cqe) == Some(e) && Opens(e)
    ensures var id: LocalId := w.conn.nextId;
            FlowAt(Dispatch(w, cqe), id, TrackUnacked(0, Some(e), StepOutputs(w, cqe), id))
  {
    hide Dispatch, React, Panics, Pack, PoolInv, TagsInv, Raised, ReaderInv, Requested;
    var id: LocalId := w.conn.nextId;
    var outs, s := StepOutputs(w, cqe), OpenedAs(e);
    OpenStep(w.conn, e);
    DispatchConn(w, cqe);
    NoReadsPending(w, id);
    DispatchPending(w, cqe, PtyData(id));
    DispatchPending(w, cqe, SocketData(id));
    StartsAreReads(outs, id);
    OpeningCounts(s);
    assert Dispatch(w, cqe).conn.Get(id) == Some(s);
  }

  lemma OpeningCounts(s: Stream)
    ensures CountWrites(Opening(s)) == 0
    ensures CountPty(Opening(s)) == (if s.service.Shell? then 1 else 0)
    ensures CountSocket(Opening(s)) == (if s.service.Forward? then 1 else 0)
  {
    CountsHead(Ack(s.remoteId), Opening(s)[1..]);
    ReadsHead(Ack(s.remoteId), Opening(s)[1..]);
    assert Opening(s) == [Ack(s.remoteId)] + Opening(s)[1..];
  }

  lemma StepKeepsFlowAt(w: World, cqe: Cqe, id: LocalId, u: nat)
    requires Inv(w) && w.running && Owed(w, cqe) && Calm(w, cqe)
    requires FlowAt(w, id, u)
    requires IsOkayFor(Raised(w, cqe), id) && id in w.conn.streams ==> u > 0
    ensures FlowAt(Dispatch(w, cqe), id, TrackUnacked(u, Raised(w, cqe), StepOutputs(w, cqe), id))
  {
    hide Dispatch, Raised, Flow, PoolInv, TagsInv, ReaderInv, React, Panics;
    if id >= w.conn.nextId {
      UnopenedKeepsFlow(w, cqe, id);
    } else if Raised(w, cqe).None? || Own(Raised(w, cqe).value, id).None? {
      OtherEventKeepsFlow(w, cqe, id, u);
    } else if id in w.conn.streams {
      OwnEventKeepsFlow(w, cqe, id, u, Own(Raised(w, cqe).value, id).value);
    } else {
      RemovedKeepsFlow(w, cqe, id, TrackUnacked(u, Raised(w, cqe), StepOutputs(w, cqe), id));
    }
  }

  // ----- Runs of the loop -----

  lemma {:induction false} LoopKeepsFlow(w: World, cqes: seq<Cqe>, id: LocalId, u: nat)
    requires Inv(w) && LegalLoop(w, cqes) && HonestHost(w, cqes, id, u) && FlowAt(w, id, u)
    ensures FlowAt(Loop(w, cqes), id, UnackedAfter(w, cqes, id, u))
    decreases |cqes|
  {
    hide Dispatch, Raised, FlowAt, PoolInv, TagsInv, ReaderInv, StepOutputs, TrackUnacked, IsOkayFor, React, Panics;
    if cqes != [] && w.running {
      StepKeepsInv(w, cqes[0]);
      StepKeepsFlowAt(w, cqes[0], id, u);
      LoopKeepsFlow(Dispatch(w, cqes[0]), cqes[1..], id,
                    TrackUnacked(u, Raised(w, cqes[0]), StepOutputs(w, cqes[0]), id));
    }
  }

  /** In every state of the event loop, whatever the interleaving, an open shell or forward stream
      has exactly one of these outstanding: a read pending in the ring, or a WRTE the host has not
      answered; `waiting_for_okay` says which. So its one read buffer never serves two reads. */
  lemma OneThingOutstanding(identity: Text, cqes: seq<Cqe>, id: LocalId)
    requires LegalLoop(Start(identity), cqes) && HonestHost(Start(identity), cqes, id, 0)
    ensures var w, u := Loop(Start(identity), cqes), UnackedAfter(Start(identity), cqes, id, 0);
            id in w.conn.streams && (w.conn.streams[id].service.Shell? || w.conn.streams[id].service.Forward?) ==>
              && w.ring.pending[PtyTag(id)] + w.ring.pending[SocketTag(id)] + u == 1
              && (w.conn.streams[id].waitingForOkay <==> u == 1)
  {
    hide Loop, LegalLoop, HonestHost, UnackedAfter, Inv, Pack;
    StartKeepsInv(identity);
    LoopKeepsFlow(Start(identity), cqes, id, 0);
  }
}
