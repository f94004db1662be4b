/** The connection as the daemon runs it: objects updated in place (`StreamManager` in src/stream.rs,
    `AdbConnection` in src/main.rs), proved against the functions of Protocol and EventRing. */
module Connection {
  import opened Basics
  import opened Utf8
  import opened Message
  import opened Tags
  import opened SyncCodec
  import opened Sender
  import opened SyncService
  import opened Protocol
  import opened Buffers
  import opened EventRing
  import opened RingInvariants

  class StreamManager {
    var streams: map<u32, Stream>
    var nextId: u32

    constructor ()
      ensures streams == map[] && nextId == 1
    {
      streams, nextId := map[], 1;
    }

    /** Starts the named service; the new stream gets the next id, which no stream had before. */
    method Open(remote: u32, name: seq<byte>, env: Env) returns (id: Option<LocalId>)
      requires nextId >= 1 && (StartService(name, env).Some? ==> nextId < U32_MAX)
      modifies this
      ensures match StartService(name, env)
              case None => id == None && streams == old(streams) && nextId == old(nextId)
              case Some(service) =>
                && id == Some(old(nextId)) && nextId == old(nextId) + 1
                && streams == old(streams)[old(nextId) := NewStream(remote, service)]
    {
      var service := StartService(name, env);
      if service.None? {
        return None;
      }
      var local := nextId;
      nextId := nextId + 1;
      streams := streams[local := NewStream(remote, service.value)];
      return Some(local);
    }

    /** Writes back a stream that `get` lent for update. */
    method Set(id: u32, s: Stream)
      requires id in streams
      modifies this`streams
      ensures streams == old(streams)[id := s]
    {
      streams := streams[id := s];
    }

    method Close(id: u32)
      modifies this`streams
      ensures streams == old(streams) - {id}
    {
      streams := streams - {id};
    }
  }

  // ----- Performing outputs one by one -----

  lemma {:induction false} SubmitAllConcat(r: Ring, a: seq<Output>, b: seq<Output>)
    requires AllSlotsNeeded(a + b) <= CountFree(r.slots)
    ensures AllSlotsNeeded(a + b) == AllSlotsNeeded(a) + AllSlotsNeeded(b)
    ensures SubmitAll(r, a + b) == SubmitAll(SubmitAll(r, a), b)
    decreases |a|
  {
    hide Submit, SlotsNeeded;
    if a == [] {
      assert a + b == b;
    } else {
      HeadTail(a, b);
      SubmitAllConcat(Submit(r, a[0]), a[1..], b);
    }
  }

  lemma SubmitOne(r: Ring, o: Output)
    ensures AllSlotsNeeded([o]) == SlotsNeeded(o) && AllSlotsNeeded([]) == 0
    ensures SlotsNeeded(o) <= CountFree(r.slots) ==> SubmitAll(r, [o]) == Submit(r, o)
    ensures SubmitAll(r, []) == r
  {
    assert [o][1..] == [];
  }

  class AdbConnection {
    const identity: Text
    const streams: StreamManager
    const buffers: BufferManager
    var version: Version
    var pendingHeader: Option<AdbHeader>
    var running: bool
    var sq: seq<Sqe>
    ghost var pending: multiset<u64>
    ghost var writes: map<SlotId, seq<byte>>

    ghost function Model(): World
      requires buffers.Valid()
      reads this, streams, buffers.slots
    {
      World(Conn(version, identity, streams.streams, streams.nextId), pendingHeader,
            Ring.Ring(buffers.View(), sq, pending, writes), running)
    }

    ghost predicate Valid()
      reads this, streams, buffers.slots
    {
      buffers.Valid() && Model().conn.Valid()
    }

    /** A new connection with its first two operations submitted. */
    constructor (identity: Text)
      ensures Valid() && Model() == Start(identity)
      ensures fresh(streams) && fresh(buffers.slots)
    {
      this.identity := identity;
      streams := new StreamManager();
      buffers := new BufferManager();
      version, pendingHeader, running := V0, None, true;
      sq := [PollOp(Ep0Tag()), ReadOp(HeaderTag())];
      pending := multiset{} + multiset{Ep0Tag()} + multiset{HeaderTag()};
      writes := map[];
      new;
      assert sq == [] + [PollOp(Ep0Tag())] + [ReadOp(HeaderTag())];
    }

    // ----- Submission -----

    method PushEntry(sqe: Sqe)
      requires buffers.Valid()
      modifies this`sq, this`pending
      ensures Model() == Issue(old(Model()), sqe)
    {
      sq := sq + [sqe];
      pending := pending + multiset{sqe.tag};
    }

    /** Copies data into a free buffer and lends it to the ring. */
    method PushBuffer(data: seq<byte>, link: bool)
      requires buffers.Valid() && CountFree(buffers.View()) > 0
      modifies this`sq, this`pending, this`writes, buffers.slots
      ensures buffers.Valid()
      ensures Model() == old(Model()).(ring := PutBuffer(old(Model()).ring, data, link))
    {
      CountFreeZero(buffers.View());
      var slot := buffers.Alloc();
      buffers.Extend(slot, data);
      assert [] + data == data;
      writes := writes[slot := data];
      PushEntry(WriteOp(WriteTag(slot), data, link));
      assert buffers.View() == old(buffers.View())[slot - 1 := Some(data)];
    }

    /** `submit_message`: an empty payload counts as none. */
    method SubmitMessage(h: AdbHeader, payload: Option<seq<byte>>)
      requires buffers.Valid()
      requires CountFree(buffers.View()) >= if payload.None? || payload.value == [] then 1 else 2
      modifies this`sq, this`pending, this`writes, buffers.slots
      ensures buffers.Valid()
      ensures Model() == old(Model()).(ring :=
                EventRing.SubmitMessage(old(Model()).ring, h, if payload.Some? then payload.value else []))
    {
      var body := if payload.Some? && payload.value != [] then payload else None;
      PushBuffer(HeaderBytes(h), body.Some?);
      if body.Some? {
        PushBuffer(body.value, false);
      }
    }

    /** Submits a message of the connection. */
    method Emit(o: Output)
      requires buffers.Valid() && o.Send? && SlotsNeeded(o) <= CountFree(buffers.View())
      modifies this`sq, this`pending, this`writes, buffers.slots
      ensures buffers.Valid()
      ensures Model() == old(Model()).(ring := Submit(old(Model()).ring, o))
    {
      hide HeaderOf, EventRing.SubmitMessage;
      SubmitMessage(HeaderOf(o), if o.payload == [] then None else Some(o.payload));
    }

    // ----- Handlers -----

    method HandleCommandCnxn(h: AdbHeader)
      requires Valid() && AllSlotsNeeded(HandleCnxn(Model().conn, h).1) <= CountFree(Model().ring.slots)
      modifies this, buffers.slots
      ensures Valid() && Model() == Perform(old(Model()), HandleCnxn(old(Model()).conn, h))
    {
      hide Submit;
      ghost var w := Model();
      version := match VersionOf(h.arg0) case Some(v) => v case None => V0;
      var o := CnxnMsg(version, identity);
      SubmitOne(w.ring, o);
      Emit(o);
    }

    method HandleCommandClse(h: AdbHeader)
      requires Valid() && AllSlotsNeeded(HandleClse(Model().conn, h).1) <= CountFree(Model().ring.slots)
      requires h.arg1 in streams.streams ==> streams.streams[h.arg1].remoteId == h.arg0
      modifies this, streams, buffers.slots
      ensures Valid() && Model() == Perform(old(Model()), HandleClse(old(Model()).conn, h))
    {
      hide Submit;
      ghost var w := Model();
      var id := h.arg1;
      SubmitOne(w.ring, ClseMsg(w.conn, id, 0));
      if id !in streams.streams {
        return;
      }
      var s := streams.streams[id];
      if s.service.Forward? {
        streams.Set(id, s.(service := s.service.(shut := true), remoteClosed := true));
        return;
      }
      var o := Send(version, Clse, id, s.remoteId, []);
      SubmitOne(w.ring, o);
      Emit(o);
      streams.Close(id);
    }

    method MaybeSubmitPtyRead(id: u32)
      requires Valid()
      modifies this
      ensures Valid() && AllSlotsNeeded(MaybePtyRead(old(Model()).conn, id)) == 0
      ensures Model() == Perform(old(Model()), (old(Model()).conn, MaybePtyRead(old(Model()).conn, id)))
    {
      ghost var w := Model();
      if id !in streams.streams || streams.streams[id].waitingForOkay || !streams.streams[id].service.Shell? {
        return;
      }
      var o := StartPtyRead(id);
      SubmitOne(w.ring, o);
      PushEntry(ReadOp(PtyTag(id)));
    }

    method MaybeSubmitSocketRead(id: u32)
      requires Valid()
      modifies this
      ensures Valid() && AllSlotsNeeded(MaybeSocketRead(old(Model()).conn, id)) == 0
      ensures Model() == Perform(old(Model()), (old(Model()).conn, MaybeSocketRead(old(Model()).conn, id)))
    {
      ghost var w := Model();
      if id !in streams.streams || streams.streams[id].waitingForOkay || !streams.streams[id].service.Forward? {
        return;
      }
      var o := StartSocketRead(id);
      SubmitOne(w.ring, o);
      PushEntry(ReadOp(SocketTag(id)));
    }

    method SubmitWrteSync(id: u32, remote: u32, reply: Reply)
      requires Valid() && CountFree(Model().ring.slots) >= 2
      modifies this, buffers.slots
      ensures Valid()
      ensures Model() == Perform(old(Model()), (old(Model()).conn,
                [WrteMsg(old(Model()).conn, id, remote, ReplyBytes(reply))]))
    {
      hide Submit, ReplyBytes;
      ghost var w := Model();
      var o := Send(version, Wrte, id, remote, ReplyBytes(reply));
      SubmitOne(w.ring, o);
      Emit(o);
    }

    method MaybeSubmitWrteSync(id: u32, fs: FsAnswers)
      requires Valid() && AllSlotsNeeded(MaybeSyncFrame(Model().conn, id, fs).1) <= CountFree(Model().ring.slots)
      modifies this, streams, buffers.slots
      ensures Valid() && Model() == Perform(old(Model()), MaybeSyncFrame(old(Model()).conn, id, fs))
    {
      hide Submit, ReplyBytes;
      ghost var w := Model();
      if id !in streams.streams || streams.streams[id].waitingForOkay {
        return;
      }
      var s := streams.streams[id];
      if !s.service.Sync? || !s.service.session.state.Sending? {
        return;
      }
      var session := s.service.session;
      var (sender, frame) := NextFrame(session.state.sender, fs.read);
      if frame.Some? {
        SubmitOne(w.ring, WrteMsg(w.conn, id, s.remoteId, ReplyBytes(frame.value)));
        streams.Set(id, s.(service := Sync(session.(state := Sending(sender))), waitingForOkay := true));
        SubmitWrteSync(id, s.remoteId, frame.value);
      } else {
        streams.Set(id, s.(service := Sync(session.(state := Idle))));
      }
    }

    method MaybeContinueStream(id: u32, env: Env)
      requires Valid() && (id in streams.streams ==> !streams.streams[id].service.Reboot?)
      requires AllSlotsNeeded(MaybeContinue(Model().conn, id, env).1) <= CountFree(Model().ring.slots)
      modifies this, streams, buffers.slots
      ensures Valid() && Model() == Perform(old(Model()), MaybeContinue(old(Model()).conn, id, env))
    {
      hide MaybeSyncFrame, Submit;
      if id !in streams.streams {
        return;
      }
      match streams.streams[id].service
      case Sync(_) => MaybeSubmitWrteSync(id, env.fs);
      case Shell(_) => MaybeSubmitPtyRead(id);
      case Forward(_, _) => MaybeSubmitSocketRead(id);
    }

    method HandleCommandOkay(h: AdbHeader, env: Env)
      requires Valid() && (h.arg1 in streams.streams ==> !streams.streams[h.arg1].service.Reboot?)
      requires AllSlotsNeeded(HandleOkay(Model().conn, h, env).1) <= CountFree(Model().ring.slots)
      modifies this, streams, buffers.slots
      ensures Valid() && Model() == Perform(old(Model()), HandleOkay(old(Model()).conn, h, env))
    {
      hide MaybeContinue, Submit;
      var id := h.arg1;
      if id in streams.streams {
        streams.Set(id, streams.streams[id].(waitingForOkay := false));
        MaybeContinueStream(id, env);
      }
    }

    method HandleCommandOpen(h: AdbHeader, payload: seq<byte>, env: Env)
      requires Valid() && (Requested(payload, env).Some? ==> streams.nextId < U32_MAX)
      requires AllSlotsNeeded(HandleOpen(Model().conn, h, payload, env).1) <= CountFree(Model().ring.slots)
      modifies this, streams, buffers.slots
      ensures Valid() && Model() == Perform(old(Model()), HandleOpen(old(Model()).conn, h, payload, env))
    {
      hide Submit, StartService, IsUtf8, FirstRead;
      var remote := h.arg0;
      var refused := Send(version, Clse, 0, remote, []);
      SubmitOne(Model().ring, refused);
      var n := FirstIndex(payload, 0);
      if n == |payload| || !IsUtf8(payload[..n]) {
        Emit(refused);
        return;
      }
      var id := streams.Open(remote, payload[..n], env);
      if id.None? {
        Emit(refused);
        return;
      }
      AcceptOpen(id.value, remote);
    }

    /** Tells the host the id of its new stream, and starts that stream's first read. */
    method AcceptOpen(id: LocalId, remote: u32)
      requires Valid() && id in streams.streams && !streams.streams[id].waitingForOkay
      requires AllSlotsNeeded([OkayMsg(Model().conn, id, remote)] + FirstRead(id, streams.streams[id].service))
               <= CountFree(Model().ring.slots)
      modifies this, buffers.slots
      ensures Valid()
      ensures Model() == Perform(old(Model()), (old(Model()).conn,
                [OkayMsg(old(Model()).conn, id, remote)] + FirstRead(id, streams.streams[id].service)))
    {
      hide Submit;
      ghost var w := Model();
      var okay := Send(version, Okay, id, remote, []);
      SubmitOne(w.ring, okay);
      SubmitAllConcat(w.ring, [okay], FirstRead(id, streams.streams[id].service));
      Emit(okay);
      match streams.streams[id].service
      case Shell(_) => MaybeSubmitPtyRead(id);
      case Forward(_, _) => MaybeSubmitSocketRead(id);
      case _ =>
    }

    /** A write into a PTY or socket that failed closes the stream. */
    method FinishInput(id: u32, s: Stream, ok: bool)
      requires Valid() && id in streams.streams && s.Valid()
      requires AllSlotsNeeded(BackEndWrite(Model().conn, id, s, ok).1) <= CountFree(Model().ring.slots)
      modifies this, streams, buffers.slots
      ensures Valid() && Model() == Perform(old(Model()), BackEndWrite(old(Model()).conn, id, s, ok))
    {
      hide Submit;
      ghost var w := Model();
      if ok {
        streams.Set(id, s);
      } else {
        var o := Send(version, Clse, id, s.remoteId, []);
        SubmitOne(w.ring, o);
        Emit(o);
        streams.Close(id);
      }
    }

    method HandleSyncPayload(id: u32, payload: seq<byte>, env: Env)
      requires Valid() && id in streams.streams && streams.streams[id].service.Sync?
      requires AllSlotsNeeded(SyncPayload(Model().conn, id, streams.streams[id], payload, env).1)
               <= CountFree(Model().ring.slots)
      modifies this, streams, buffers.slots
      ensures Valid()
      ensures Model() == Perform(old(Model()),
                SyncPayload(old(Model()).conn, id, old(streams.streams)[id], payload, env))
    {
      hide Submit, Handle, MaybeSyncFrame, ReplyBytes, StatBytes;
      ghost var w := Model();
      var s := streams.streams[id];
      var (session, result) := Handle(s.service.session, payload, env.fs);
      match result
      case Stat(stat) =>
        streams.Set(id, s.(service := Sync(session)));
        var o := Send(version, Wrte, id, s.remoteId, StatBytes(stat));
        SubmitOne(w.ring, o);
        Emit(o);
      case Response(reply) =>
        streams.Set(id, s.(service := Sync(session)));
        SubmitOne(w.ring, WrteMsg(w.conn, id, s.remoteId, ReplyBytes(reply)));
        SubmitWrteSync(id, s.remoteId, reply);
      case Continue =>
        streams.Set(id, s.(service := Sync(session)));
        MaybeSubmitWrteSync(id, env.fs);
      case Quit =>
        var o := Send(version, Clse, id, s.remoteId, []);
        SubmitOne(w.ring, o);
        Emit(o);
        streams.Close(id);
    }

    method HandleCommandWrte(h: AdbHeader, payload: seq<byte>, env: Env)
      requires Valid() && (h.arg1 in streams.streams ==> !streams.streams[h.arg1].service.Reboot?)
      requires AllSlotsNeeded(HandleWrte(Model().conn, h, payload, env).1) <= CountFree(Model().ring.slots)
      modifies this, streams, buffers.slots
      ensures Valid() && Model() == Perform(old(Model()), HandleWrte(old(Model()).conn, h, payload, env))
    {
      hide Submit, SyncPayload, BackEndWrite;
      ghost var w := Model();
      ghost var r := HandleWrte(w.conn, h, payload, env);
      var id := h.arg1;
      var okay := Send(version, Okay, id, h.arg0, []);
      SubmitOne(w.ring, okay);
      ghost var outs := r.1[1..];
      assert r.1 == [okay] + outs;
      SubmitAllConcat(w.ring, [okay], outs);
      Emit(okay);
      if id !in streams.streams {
        return;
      }
      var s := streams.streams[id];
      match s.service
      case Sync(_) => HandleSyncPayload(id, payload, env);
      case Shell(input) =>
        var n := Accepted(payload, env.write);
        FinishInput(id, s.(service := Shell(input + payload[..n])), n == |payload|);
      case Forward(sent, shut) =>
        var n := Accepted(payload, env.write);
        FinishInput(id, s.(service := Forward(sent + payload[..n], shut)), n == |payload|);
    }

    method HandleMessage(h: AdbHeader, payload: Option<seq<byte>>, env: Env)
      requires Valid() && !Panics(Model().conn, Command(h, payload, env))
      requires AllSlotsNeeded(HandleCommand(Model().conn, h, payload, env).1) <= CountFree(Model().ring.slots)
      modifies this, streams, buffers.slots
      ensures Valid() && Model() == Perform(old(Model()), HandleCommand(old(Model()).conn, h, payload, env))
    {
      hide HandleCnxn, HandleOpen, HandleWrte, HandleOkay, HandleClse;
      match h.command
      case Cnxn => HandleCommandCnxn(h);
      case Open => HandleCommandOpen(h, payload.value, env);
      case Wrte => HandleCommandWrte(h, payload.value, env);
      case Okay => HandleCommandOkay(h, env);
      case Clse => HandleCommandClse(h);
      case _ =>
    }

    /** The completion of a PTY or socket read. A late one, for a stream already closed, is ignored. */
    method FinishRead(id: LocalId, res: ReadResult, pty: bool)
      requires Valid()
      requires AllSlotsNeeded(HandleReadDone(Model().conn, id, res, pty).1) <= CountFree(Model().ring.slots)
      modifies this, streams, buffers.slots
      ensures Valid() && Model() == Perform(old(Model()), HandleReadDone(old(Model()).conn, id, res, pty))
    {
      hide Submit;
      ghost var w := Model();
      if res.Ended? {
        if id in streams.streams {
          var o := Send(version, Clse, id, streams.streams[id].remoteId, []);
          SubmitOne(w.ring, o);
          Emit(o);
        }
        streams.Close(id);
        return;
      }
      if id !in streams.streams {
        return;
      }
      var s := streams.streams[id];
      var relays := if pty then s.service.Shell? else s.service.Forward?;
      if !relays {
        return;
      }
      var o := Send(version, Wrte, id, s.remoteId, res.data);
      SubmitOne(w.ring, o);
      streams.Set(id, s.(waitingForOkay := true));
      Emit(o);
    }

    // ----- The loop -----

    method FinishHeader(cqe: Cqe)
      requires Valid() && RoomyIfAny(Model(), AfterHeader(Model(), cqe).1)
      modifies this, streams, buffers.slots
      ensures Valid()
      ensures var (after, e) := AfterHeader(old(Model()), cqe);
              var payload := ParseHeader(cqe.data).Some? && ParseHeader(cqe.data).value.dataLength > 0;
              Model() == Issue(PerformRaised(old(Model()).(pendingHeader := after), e),
                               ReadOp(if payload then PayloadTag() else HeaderTag()))
    {
      hide HandleCommand, Panics;
      match ParseHeader(cqe.data)
      case None => PushEntry(ReadOp(HeaderTag()));
      case Some(h) =>
        if h.dataLength > 0 {
          pendingHeader := Some(h);
          PushEntry(ReadOp(PayloadTag()));
        } else {
          HandleMessage(h, None, cqe.env);
          PushEntry(ReadOp(HeaderTag()));
        }
    }

    method FinishPayload(cqe: Cqe)
      requires Valid() && RoomyIfAny(Model(), AfterPayload(Model(), cqe))
      modifies this, streams, buffers.slots
      ensures Valid()
      ensures Model() == Issue(PerformRaised(old(Model()).(pendingHeader := None), AfterPayload(old(Model()), cqe)),
                               ReadOp(HeaderTag()))
    {
      hide HandleCommand, Panics, Checksum;
      if pendingHeader.Some? {
        var h := pendingHeader.value;
        pendingHeader := None;
        if !(version == V0 && Checksum(cqe.data) != h.dataCheck) {
          HandleMessage(h, Some(cqe.data), cqe.env);
        }
      }
      PushEntry(ReadOp(HeaderTag()));
    }

    method FinishBackEndRead(e: Event)
      requires Valid() && !e.Command? && Roomy(Model(), e)
      modifies this, streams, buffers.slots
      ensures Valid() && Model() == PerformRaised(old(Model()), Some(e))
    {
      hide HandleReadDone;
      match e
      case PtyRead(id, res) => FinishRead(id, res, true);
      case SocketRead(id, res) => FinishRead(id, res, false);
    }

    /** A completion that is neither of a back-end read nor of a write. */
    method FinishOther(op: OpType, cqe: Cqe)
      requires Valid() && !op.PtyRead? && !op.SocketRead? && !op.BulkInWrite?
      requires OtherReady(Model(), op, cqe)
      modifies this, streams, buffers.slots
      ensures Valid() && Model() == Otherwise(old(Model()), op, cqe)
    {
      hide RoomyIfAny, PerformRaised, AfterHeader, AfterPayload;
      if cqe.res < 0 {
        running := false;
      } else if op.Ep0Poll? {
        if cqe.disabled {
          running := false;
        } else {
          PushEntry(PollOp(Ep0Tag()));
        }
      } else if op.BulkOutReadHeader? {
        FinishHeader(cqe);
      } else {
        FinishPayload(cqe);
      }
    }

    /** The completion of a bulk-in write: its slot is free again. Without one the loop ends. */
    method FinishWrite(slot: Option<NonZero>)
      requires Valid() && (slot.Some? ==> slot.value <= MAX_BUFFER_SLOTS)
      modifies this, buffers.slots
      ensures Valid()
      ensures Model() == if slot.Some? then old(Model()).(ring := FreeSlot(old(Model()).ring, slot.value))
                         else old(Model()).(running := false)
    {
      if slot.Some? {
        buffers.Free(slot.value);
        writes := writes - {slot.value};
      } else {
        running := false;
      }
    }

    method HandleCompletion(cqe: Cqe)
      requires Valid() && Calm(Model(), cqe)
      modifies this, streams, buffers.slots
      ensures Valid() && Model() == Dispatch(old(Model()), cqe)
    {
      hide Dispatch, Calm, OtherReady, Roomy, PerformRaised, Pack, Unpack, Otherwise, ReadResultOf;
      DispatchCases(Model(), cqe);
      pending := pending - multiset{cqe.tag};
      var tag := Unpack(cqe.tag);
      if tag.None? {
        return;
      }
      var (op, data) := (tag.value.op, tag.value.data);
      if op.PtyRead? {
        FinishBackEndRead(Event.PtyRead(data.value, ReadResultOf(cqe)));
      } else if op.SocketRead? {
        FinishBackEndRead(Event.SocketRead(data.value, ReadResultOf(cqe)));
      } else if !op.BulkInWrite? {
        FinishOther(op, cqe);
      } else {
        FinishWrite(data);
      }
    }

    /** The event loop over the completions the ring delivers, until one stops it. */
    method Run(cqes: seq<Cqe>)
      requires Valid() && LegalLoop(Model(), cqes)
      modifies this, streams, buffers.slots
      ensures Valid() && Model() == Loop(old(Model()), cqes)
    {
      hide Dispatch, Calm, Owed;
      var i := 0;
      while i < |cqes| && running
        invariant i <= |cqes| && Valid()
        invariant LegalLoop(Model(), cqes[i..]) && Loop(Model(), cqes[i..]) == Loop(old(Model()), cqes)
      {
        DispatchConn(Model(), cqes[i]);
        assert cqes[i..][1..] == cqes[i + 1..];
        HandleCompletion(cqes[i]);
        i := i + 1;
      }
    }
  }

  // ----- One completion, by kind -----

  /** The connection can handle the event without a panic. */
  ghost predicate Roomy(w: World, e: Event)
    requires w.conn.Valid()
  {
    !Panics(w.conn, e) && AllSlotsNeeded(React(w.conn, e).1) <= CountFree(w.ring.slots)
  }

  ghost predicate RoomyIfAny(w: World, e: Option<Event>)
    requires w.conn.Valid()
  {
    e.Some? ==> Roomy(w, e.value)
  }

  /** The connection can handle what a completed bulk-out read dispatches. */
  ghost predicate OtherReady(w: World, op: OpType, cqe: Cqe)
    requires w.conn.Valid()
  {
    cqe.res >= 0 ==>
      && (op.BulkOutReadHeader? ==> RoomyIfAny(w, AfterHeader(w, cqe).1))
      && (op.BulkOutReadPayload? ==> RoomyIfAny(w, AfterPayload(w, cqe)))
  }

  /** What is left of `Dispatch` for the tags of ep0 and bulk-out. */
  ghost function Otherwise(w: World, op: OpType, cqe: Cqe): World
    requires w.conn.Valid()
    requires OtherReady(w, op, cqe)
  {
    if cqe.res < 0 then w.(running := false)
    else if op.Ep0Poll? then
      if cqe.disabled then w.(running := false) else Issue(w, PollOp(Ep0Tag()))
    else if op.BulkOutReadHeader? then
      var (after, e) := AfterHeader(w, cqe);
      var payload := ParseHeader(cqe.data).Some? && ParseHeader(cqe.data).value.dataLength > 0;
      Issue(PerformRaised(w.(pendingHeader := after), e), ReadOp(if payload then PayloadTag() else HeaderTag()))
    else if op.BulkOutReadPayload? then
      Issue(PerformRaised(w.(pendingHeader := None), AfterPayload(w, cqe)), ReadOp(HeaderTag()))
    else w
  }

  lemma DispatchCases(w: World, cqe: Cqe)
    requires w.conn.Valid() && Calm(w, cqe)
    ensures var w0 := w.(ring := Complete(w.ring, cqe.tag));
            match Unpack(cqe.tag)
            case None => Dispatch(w, cqe) == w0
            case Some(UserData(op, data)) =>
              if op.PtyRead? || op.SocketRead? then
                && data.Some?
                && var e := if op.PtyRead? then Event.PtyRead(data.value, ReadResultOf(cqe))
                            else Event.SocketRead(data.value, ReadResultOf(cqe));
                   Roomy(w0, e) && Dispatch(w, cqe) == PerformRaised(w0, Some(e))
              else if !op.BulkInWrite? then OtherReady(w0, op, cqe) && Dispatch(w, cqe) == Otherwise(w0, op, cqe)
              else if data.Some? then
                && data.value <= MAX_BUFFER_SLOTS
                && Dispatch(w, cqe) == w0.(ring := FreeSlot(w0.ring, data.value))
              else cqe.res < 0 && Dispatch(w, cqe) == w0.(running := false)
  {
    hide React, Panics, PerformRaised, Pack, Unpack, ParseHeader, Checksum;
  }

  /** A whole life of the daemon's connection, from its first two operations on. */
  method Serve(identity: Text, cqes: seq<Cqe>) returns (c: AdbConnection)
    requires LegalLoop(Start(identity), cqes)
    ensures fresh(c) && c.Valid()
    ensures c.Model() == Loop(Start(identity), cqes) && Inv(c.Model())
  {
    c := new AdbConnection(identity);
    StartKeepsInv(identity);
    LoopKeepsInv(Start(identity), cqes);
    c.Run(cqes);
  }
}
