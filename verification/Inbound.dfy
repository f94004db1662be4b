/** From completions to messages: what the loop makes of the bytes that bulk-out, PTY and socket reads
    return, and when it stops. */
module Inbound {
  import opened Basics
  import opened Message
  import opened Tags
  import opened Buffers
  import opened Protocol
  import opened StreamMachine
  import opened Isolation
  import opened Lifecycle
  import opened FlowControl
  import opened Relay
  import opened Commands
  import opened EventRing
  import opened RingInvariants
  import opened History
  import opened RingFlow

  /** One completion the ring owes, in a state the loop can reach, that does not panic. */
  ghost predicate Handles(w: World, cqe: Cqe) {
    Inv(w) && w.running && Owed(w, cqe) && Calm(w, cqe)
  }

  // ----- When the loop stops -----

  /** The loop stops exactly at an ep0 event that disables the function, and at a failed poll of ep0
      or read from bulk-out; failed writes and back-end reads do not stop it. */
  lemma StopsExactly(w: World, cqe: Cqe)
    requires Handles(w, cqe)
    ensures !Dispatch(w, cqe).running
            <==> || (cqe.tag == Ep0Tag() && (cqe.res < 0 || cqe.disabled))
                 || ((cqe.tag == HeaderTag() || cqe.tag == PayloadTag()) && cqe.res < 0)
  {
    hide React, Panics, Pack, Unpack, PoolInv, ReaderInv, SubmitAll, AfterHeader, AfterPayload, ParseHeader, Raised;
    assert GoodTag(cqe.tag, w.conn.nextId);
    UnpackOfPack(UserData(Ep0Poll, None));
    UnpackOfPack(UserData(BulkOutReadHeader, None));
    UnpackOfPack(UserData(BulkOutReadPayload, None));
    PackOfUnpack(cqe.tag);
  }

  // ----- Host messages -----

  /** A completed payload read is dispatched with the header that waited for it, as it was read,
      exactly if V1 is in force or the header announced the byte sum modulo 2^32. */
  lemma PayloadDispatched(w: World, cqe: Cqe)
    requires Handles(w, cqe) && cqe.tag == PayloadTag() && cqe.res >= 0
    ensures LegalLoop(w, [cqe]) && w.pendingHeader.Some?
    ensures var h := w.pendingHeader.value;
            Events(w, [cqe]) == if w.conn.version == V1 || SumBytes(cqe.data) % 0x1_0000_0000 == h.dataCheck
                                then [Command(h, Some(cqe.data), cqe.env)] else []
    ensures Dispatch(w, cqe).pendingHeader == None
  {
    hide React, Panics, Pack, Unpack, PoolInv, TagsInv, SumBytes;
    UnpackOfPack(UserData(BulkOutReadPayload, None));
    DispatchConn(w, cqe);
    OneEvent(w, cqe);
    StepKeepsInv(w, cqe);
  }

  /** A completed header read: a header without a payload is dispatched at once, another waits. */
  lemma HeaderDispatched(w: World, cqe: Cqe, h: AdbHeader, extra: seq<byte>)
    requires Handles(w, cqe) && cqe.tag == HeaderTag() && cqe.res >= 0
    requires GoodMagic(h) && cqe.data == HeaderBytes(h) + extra
    ensures LegalLoop(w, [cqe])
    ensures Events(w, [cqe]) == if h.dataLength == 0 then [Command(h, None, cqe.env)] else []
    ensures Dispatch(w, cqe).pendingHeader == if h.dataLength == 0 then None else Some(h)
  {
    hide React, Panics, Pack, Unpack, PoolInv, TagsInv, ParseHeader, HeaderBytes, GoodMagic;
    UnpackOfPack(UserData(BulkOutReadHeader, None));
    ParseOfPrint(h, extra);
    DispatchConn(w, cqe);
    OneEvent(w, cqe);
    NoHeaderWaits(w, cqe);
  }

  /** What is no header is dropped. */
  lemma NoHeaderDropped(w: World, cqe: Cqe)
    requires Handles(w, cqe) && cqe.tag == HeaderTag() && cqe.res >= 0
    requires forall h :: GoodMagic(h) ==> !(HeaderBytes(h) <= cqe.data)
    ensures LegalLoop(w, [cqe]) && Events(w, [cqe]) == []
    ensures Dispatch(w, cqe).pendingHeader == None && Dispatch(w, cqe).running
  {
    hide React, Panics, Pack, Unpack, PoolInv, TagsInv, ParseHeader, HeaderBytes, GoodMagic;
    UnpackOfPack(UserData(BulkOutReadHeader, None));
    if ParseHeader(cqe.data).Some? {
      HeaderInFront(cqe.data);
    }
    DispatchConn(w, cqe);
    OneEvent(w, cqe);
    NoHeaderWaits(w, cqe);
  }

  lemma HeaderInFront(b: seq<byte>)
    requires ParseHeader(b).Some?
    ensures GoodMagic(ParseHeader(b).value) && HeaderBytes(ParseHeader(b).value) <= b
  {
    hide HeaderBytes;
    PrintOfParse(b);
  }

  lemma NoHeaderWaits(w: World, cqe: Cqe)
    requires Handles(w, cqe) && cqe.tag == HeaderTag()
    ensures w.pendingHeader == None
  {
    hide Pack, Calm, PoolInv, TagsInv;
    LoopTagsDistinct();
  }

  lemma OneEvent(w: World, cqe: Cqe)
    requires Handles(w, cqe) && Dispatch(w, cqe).conn.Valid()
    ensures LegalLoop(w, [cqe])
    ensures Events(w, [cqe]) == if Raised(w, cqe).None? then [] else [Raised(w, cqe).value]
  {
    hide Dispatch, Raised, Calm, Owed, PoolInv, TagsInv, ReaderInv;
    assert [cqe][1..] == [];
    DispatchConn(w, cqe);
    assert LegalLoop(Dispatch(w, cqe), []);
    assert Events(Dispatch(w, cqe), []) == [];
  }
  // ----- Inbound framing -----

  /** A message the host sends, under the version it was built for, and what the environment answers
      when it is handled. */
  datatype HostMessage = HostMessage(version: Version, command: Command, arg0: u32, arg1: u32, payload: Text, env: Env)

  function HeaderFor(m: HostMessage): AdbHeader {
    HeaderFromPayload(m.version, m.command, m.arg0, m.arg1, m.payload)
  }

  function CommandFor(m: HostMessage): (e: Event)
    ensures e.Command?
  {
    Command(HeaderFor(m), if m.payload == [] then None else Some(m.payload), m.env)
  }

  function CommandsFor(msgs: seq<HostMessage>): seq<Event> {
    if msgs == [] then [] else [CommandFor(msgs[0])] + CommandsFor(msgs[1..])
  }

  /** The host messages among the events. */
  function Dispatched(es: seq<Event>): seq<Event> {
    if es == [] then [] else (if es[0].Command? then [es[0]] else []) + Dispatched(es[1..])
  }

  /** Among the completions, those of bulk-out bring these messages: for each one transfer with its
      header and, if it has a payload, one with that. Under V0 it must have been built for V0. */
  predicate Delivers(w: World, cqes: seq<Cqe>, msgs: seq<HostMessage>)
    requires w.conn.Valid() && LegalLoop(w, cqes)
    decreases |cqes|
  {
    if cqes == [] || !w.running then msgs == []
    else
      var cqe := cqes[0];
      DispatchConn(w, cqe);
      if cqe.tag == HeaderTag() then
        && msgs != [] && cqe.data == HeaderBytes(HeaderFor(msgs[0]))
        && if msgs[0].payload != [] then Delivers(Dispatch(w, cqe), cqes[1..], msgs)
           else cqe.env == msgs[0].env && Delivers(Dispatch(w, cqe), cqes[1..], msgs[1..])
      else if cqe.tag == PayloadTag() then
        && msgs != [] && cqe.data == msgs[0].payload && cqe.env == msgs[0].env
        && (w.conn.version == V0 ==> msgs[0].version == V0)
        && Delivers(Dispatch(w, cqe), cqes[1..], msgs[1..])
      else Delivers(Dispatch(w, cqe), cqes[1..], msgs)
  }

  /** The header that waits, if one does, is the first message's. */
  ghost predicate Waiting(w: World, msgs: seq<HostMessage>) {
    w.running && w.pendingHeader.Some? ==>
      msgs != [] && w.pendingHeader == Some(HeaderFor(msgs[0])) && msgs[0].payload != []
  }

  /** Inbound framing: the messages the loop dispatches are exactly those the host sent, in order and
      unchanged, whatever other completions come between. */
  lemma {:induction false} InboundFraming(w: World, cqes: seq<Cqe>, msgs: seq<HostMessage>)
    requires Inv(w) && LegalLoop(w, cqes) && Delivers(w, cqes, msgs) && Waiting(w, msgs)
    ensures Dispatched(Events(w, cqes)) == CommandsFor(msgs)
    decreases |cqes|
  {
    hide Dispatch, Raised, Calm, Owed, PoolInv, TagsInv, ReaderInv, HeaderFor, HeaderBytes, CommandFor, Waiting;
    hide Events, Dispatched, Handles;
    if cqes == [] || !w.running {
      NothingDispatched(w, cqes);
    } else {
      InStep(w, cqes[0]);
      var cqe, rest := cqes[0], cqes[1..];
      DispatchConn(w, cqe);
      StepKeepsInv(w, cqe);
      LoopTagsDistinct();
      if cqe.tag == HeaderTag() {
        HeaderStep(w, cqe, msgs);
        InboundFraming(Dispatch(w, cqe), rest, if msgs[0].payload != [] then msgs else msgs[1..]);
      } else if cqe.tag == PayloadTag() {
        PayloadStep(w, cqe, msgs);
        InboundFraming(Dispatch(w, cqe), rest, msgs[1..]);
      } else {
        OtherStep(w, cqe, msgs);
        InboundFraming(Dispatch(w, cqe), rest, msgs);
      }
      FirstCommand(w, cqes);
      var later := Dispatched(Events(Dispatch(w, cqe), rest));
      assert [] + later == later;
    }
  }

  lemma NothingDispatched(w: World, cqes: seq<Cqe>)
    requires w.conn.Valid() && (cqes == [] || !w.running)
    ensures LegalLoop(w, cqes) && Dispatched(Events(w, cqes)) == []
  {
  }

  lemma InStep(w: World, cqe: Cqe)
    requires Inv(w) && w.running && Owed(w, cqe) && Calm(w, cqe)
    ensures Handles(w, cqe)
  {
  }

  lemma FirstCommand(w: World, cqes: seq<Cqe>)
    requires w.conn.Valid() && LegalLoop(w, cqes) && cqes != [] && w.running
    ensures Dispatch(w, cqes[0]).conn.Valid() && LegalLoop(Dispatch(w, cqes[0]), cqes[1..])
    ensures Dispatched(Events(w, cqes))
            == (if Raised(w, cqes[0]).Some? && Raised(w, cqes[0]).value.Command?
                then [Raised(w, cqes[0]).value] else [])
               + Dispatched(Events(Dispatch(w, cqes[0]), cqes[1..]))
  {
    hide Dispatch, Raised, Calm, Owed;
    DispatchConn(w, cqes[0]);
    var rest := Events(Dispatch(w, cqes[0]), cqes[1..]);
    assert [] + Dispatched(rest) == Dispatched(rest);
    if Raised(w, cqes[0]).Some? {
      var e := Raised(w, cqes[0]).value;
      assert ([e] + rest)[1..] == rest;
    }
  }

  lemma HeaderStep(w: World, cqe: Cqe, msgs: seq<HostMessage>)
    requires Handles(w, cqe) && cqe.tag == HeaderTag()
    requires msgs != [] && cqe.data == HeaderBytes(HeaderFor(msgs[0]))
    requires msgs[0].payload == [] ==> cqe.env == msgs[0].env
    ensures msgs[0].payload == [] ==> Raised(w, cqe) == Some(CommandFor(msgs[0]))
    ensures msgs[0].payload != [] ==> Raised(w, cqe) == None
    ensures Waiting(Dispatch(w, cqe), if msgs[0].payload != [] then msgs else msgs[1..])
  {
    hide React, Panics, Pack, Unpack, PoolInv, TagsInv, ParseHeader, HeaderBytes;
    var h := HeaderFor(msgs[0]);
    UnpackOfPack(UserData(BulkOutReadHeader, None));
    ParseOfPrint(h, []);
    assert HeaderBytes(h) + [] == HeaderBytes(h);
    DispatchConn(w, cqe);
    OneEvent(w, cqe);
    HeaderDispatched(w, cqe, h, []);
  }

  lemma PayloadStep(w: World, cqe: Cqe, msgs: seq<HostMessage>)
    requires Handles(w, cqe) && cqe.tag == PayloadTag() && Waiting(w, msgs)
    requires msgs != [] && cqe.data == msgs[0].payload && cqe.env == msgs[0].env
    requires w.conn.version == V0 ==> msgs[0].version == V0
    ensures Raised(w, cqe) == Some(CommandFor(msgs[0]))
    ensures Waiting(Dispatch(w, cqe), msgs[1..])
  {
    hide React, Panics, Pack, Unpack, PoolInv, TagsInv, SumBytes;
    UnpackOfPack(UserData(BulkOutReadPayload, None));
    LoopTagsDistinct();
    DispatchConn(w, cqe);
    OneEvent(w, cqe);
    PayloadDispatched(w, cqe);
  }

  lemma OtherStep(w: World, cqe: Cqe, msgs: seq<HostMessage>)
    requires Handles(w, cqe) && cqe.tag != HeaderTag() && cqe.tag != PayloadTag() && Waiting(w, msgs)
    ensures Raised(w, cqe).Some? ==> !Raised(w, cqe).value.Command?
    ensures Waiting(Dispatch(w, cqe), msgs)
  {
    hide React, Panics, Pack, Unpack, PoolInv, ReaderInv, SubmitAll, HeaderFor;
    assert GoodTag(cqe.tag, w.conn.nextId);
    PackOfUnpack(cqe.tag);
  }
  // ----- A host connects -----

  /** The two completions that bring a message with a payload. */
  function HeaderCqe(m: HostMessage): Cqe {
    Cqe(HeaderTag(), 24, HeaderBytes(HeaderFor(m)), m.env, false)
  }

  function PayloadCqe(m: HostMessage): Cqe {
    Cqe(PayloadTag(), |m.payload|, m.payload, m.env, false)
  }

  /** A header that announces a payload raises nothing and costs no buffer; the payload is read next. */
  lemma HeaderWaits(w: World, m: HostMessage)
    requires w.conn.Valid() && m.payload != []
    ensures Raised(w, HeaderCqe(m)) == None && Calm(w, HeaderCqe(m))
    ensures var w1 := Dispatch(w, HeaderCqe(m));
            && w1.conn == w.conn && w1.running == w.running && w1.pendingHeader == Some(HeaderFor(m))
            && w1.ring.slots == w.ring.slots && PayloadTag() in w1.ring.pending
  {
    hide Pack, Unpack, ParseHeader, HeaderBytes, SumBytes;
    var h := HeaderFor(m);
    UnpackOfPack(UserData(BulkOutReadHeader, None));
    ParseOfPrint(h, []);
    assert HeaderBytes(h) + [] == HeaderBytes(h);
  }

  lemma PayloadRaises(w: World, m: HostMessage)
    requires w.pendingHeader == Some(HeaderFor(m)) && (w.conn.version == V0 ==> m.version == V0)
    ensures Raised(w, PayloadCqe(m)) == Some(Command(HeaderFor(m), Some(m.payload), m.env))
  {
    hide Pack, Unpack, SumBytes;
    UnpackOfPack(UserData(BulkOutReadPayload, None));
  }

  lemma TwoSteps(w: World, c1: Cqe, c2: Cqe)
    requires w.conn.Valid() && w.running && Owed(w, c1) && Calm(w, c1)
    requires var w1 := Dispatch(w, c1); w1.conn.Valid() && w1.running && Owed(w1, c2) && Calm(w1, c2)
    ensures LegalLoop(w, [c1, c2])
    ensures Loop(w, [c1, c2]) == Dispatch(Dispatch(w, c1), c2)
    ensures Outputs(w, [c1, c2]) == StepOutputs(w, c1) + StepOutputs(Dispatch(w, c1), c2)
  {
    hide Dispatch, Calm, Owed, StepOutputs;
    var w1 := Dispatch(w, c1);
    var w2 := Dispatch(w1, c2);
    DispatchConn(w1, c2);
    assert [c1, c2][1..] == [c2] && [c2][1..] == [];
    assert LegalLoop(w2, []) && Loop(w2, []) == w2 && Outputs(w2, []) == [];
    assert LegalLoop(w1, [c2]) && Loop(w1, [c2]) == w2 && Outputs(w1, [c2]) == StepOutputs(w1, c2) + [];
  }

  /** The first message on a new connection, a CNXN built for V0: the loop dispatches it without a
      panic and answers with one CNXN in the version agreed on. */
  lemma Handshake(identity: Text, m: HostMessage)
    requires m.version == V0 && m.command.Cnxn? && m.payload != []
    ensures var w, cqes := Start(identity), [HeaderCqe(m), PayloadCqe(m)];
            var v := if m.arg0 == 0x0100_0001 then V1 else V0;
            && LegalLoop(w, cqes)
            && Loop(w, cqes).running && Loop(w, cqes).conn.version == v
            && Outputs(w, cqes) == [Send(v, Cnxn, 0x0100_0001, 0x10_0000, identity)]
  {
    hide Pack, Unpack, HeaderBytes, ParseHeader, SumBytes, PoolInv, TagsInv, Calm, Raised, Dispatch, React, Panics;
    hide LegalLoop, Loop, Outputs;
    var w, c1, c2 := Start(identity), HeaderCqe(m), PayloadCqe(m);
    StartKeepsInv(identity);
    HeaderWaits(w, m);
    StepKeepsInv(w, c1);
    var w1 := Dispatch(w, c1);
    PayloadRaises(w1, m);
    CnxnAnswered(w1.conn, HeaderFor(m), m.payload, m.env);
    AllFree(ALL_FREE);
    OneMessage(React(w1.conn, Raised(w1, c2).value).1[0]);
    CalmExactly(w1, c2);
    DispatchConn(w1, c2);
    LoopTagsDistinct();
    StopsExactly(w1, c2);
    TwoSteps(w, c1, c2);
  }

  lemma OneMessage(o: Output)
    ensures AllSlotsNeeded([o]) <= 2
  {
    assert [o][1..] == [];
  }

  // ----- Back-end reads -----

  function ReadTag(id: LocalId, pty: bool): u64 {
    if pty then PtyTag(id) else SocketTag(id)
  }

  /** A completed read of an open shell or forward stream: the bytes read go to the host in one WRTE,
      all of them; an end or error closes the stream with one CLSE. */
  lemma BackEndRead(w: World, cqe: Cqe, id: LocalId, pty: bool)
    requires Handles(w, cqe) && cqe.tag == ReadTag(id, pty)
    requires id in w.conn.streams && Relays(w.conn.streams[id], pty)
    ensures var s, c := w.conn.streams[id], w.conn;
            if cqe.res > 0 then
              && StepOutputs(w, cqe) == [Send(c.version, Wrte, id, s.remoteId, cqe.data)]
              && Dispatch(w, cqe).conn == c.Put(id, s.(waitingForOkay := true))
            else
              && StepOutputs(w, cqe) == [Send(c.version, Clse, id, s.remoteId, [])]
              && Dispatch(w, cqe).conn == c.Remove(id)
  {
    hide Dispatch, Pack, Unpack, PoolInv, TagsInv, ReaderInv;
    UnpackOfPack(PtyData(id));
    UnpackOfPack(SocketData(id));
    DispatchConn(w, cqe);
  }

  /** The completions the loop gets to see. */
  function Handled(w: World, cqes: seq<Cqe>): (r: seq<Cqe>)
    requires w.conn.Valid() && LegalLoop(w, cqes)
    decreases |cqes|
  {
    if cqes == [] || !w.running then []
    else
      DispatchConn(w, cqes[0]);
      [cqes[0]] + Handled(Dispatch(w, cqes[0]), cqes[1..])
  }

  /** The bytes that completions with this tag read. */
  function BytesRead(cqes: seq<Cqe>, tag: u64): seq<byte> {
    if cqes == [] then [] else (if cqes[0].tag == tag then cqes[0].data else []) + BytesRead(cqes[1..], tag)
  }

  /** If the id is opened at all, it is opened as a shell (or as a forward). */
  predicate OpensAs(w: World, cqes: seq<Cqe>, id: LocalId, pty: bool)
    requires w.conn.Valid() && LegalLoop(w, cqes)
    decreases |cqes|
  {
    && (id in w.conn.streams ==> Relays(w.conn.streams[id], pty))
    && (cqes == [] || !w.running || (DispatchConn(w, cqes[0]); OpensAs(Dispatch(w, cqes[0]), cqes[1..], id, pty)))
  }

  /** One completion: the host is sent what it read for this stream, and nothing for any other. */
  lemma StepSends(w: World, cqe: Cqe, id: LocalId, pty: bool)
    requires Handles(w, cqe) && id in w.conn.streams && Relays(w.conn.streams[id], pty)
    ensures WrittenBytes(Local(StepOutputs(w, cqe), id)) == if cqe.tag == ReadTag(id, pty) then cqe.data else []
  {
    hide Dispatch, React, Panics, Step, Pack, Unpack, PoolInv, TagsInv, ReaderInv, Raised, WrittenBytes;
    var outs := StepOutputs(w, cqe);
    WrittenFew(Close(0));
    if cqe.tag == ReadTag(id, pty) {
      BackEndRead(w, cqe, id, pty);
      Local1(outs[0], id);
      WrittenFew(LocalOf(outs[0], id).value);
    } else if Raised(w, cqe).Some? {
      var e := Raised(w, cqe).value;
      DispatchConn(w, cqe);
      RaisedByRead(w, cqe, id);
      OneStep(w.conn, e, id);
      if Own(e, id).Some? {
        StepRelays(w.conn.streams[id], Own(e, id).value, pty);
      }
    }
  }

  /** An id not handed out yet: nothing is written for it, and no read of it completes. */
  lemma UnopenedSends(w: World, cqe: Cqe, id: LocalId, pty: bool)
    requires Handles(w, cqe) && id >= w.conn.nextId
    ensures WrittenBytes(Local(StepOutputs(w, cqe), id)) == [] && cqe.tag != ReadTag(id, pty)
    ensures id >= Dispatch(w, cqe).conn.nextId || id in Dispatch(w, cqe).conn.streams
  {
    hide Dispatch, React, Panics, Pack, Unpack, PoolInv, TagsInv, ReaderInv, Raised, WrittenBytes, Requested;
    NoReadsPending(w, id);
    DispatchConn(w, cqe);
    WrittenFew(Close(0));
    if Raised(w, cqe).Some? {
      var e := Raised(w, cqe).value;
      NextIdStep(w.conn, e);
      if Opens(e) && id == w.conn.nextId {
        OpenStep(w.conn, e);
        NothingWritten(Opening(OpenedAs(e)));
      } else {
        StepBeforeOpen(w.conn, e, id);
        NothingWritten(Local(StepOutputs(w, cqe), id));
      }
    }
  }

  /** A stream that is gone sends nothing more. */
  lemma {:induction false} GoneSends(w: World, cqes: seq<Cqe>, id: LocalId)
    requires Inv(w) && LegalLoop(w, cqes) && id < w.conn.nextId && id !in w.conn.streams
    ensures WrittenBytes(Local(Outputs(w, cqes), id)) == []
    ensures id !in Loop(w, cqes).conn.streams
    ensures id < Loop(w, cqes).conn.nextId
  {
    hide Loop, Outputs, Events, Run, Legal, LocalRun, LegalRun, PoolInv, TagsInv, ReaderInv;
    var es := Events(w, cqes);
    LoopIsRun(w, cqes);
    StreamIsolation(w.conn, es, id);
    RemovedStaysRemoved(OwnAll(es, id));
    NothingWritten(Local(Outputs(w, cqes), id));
    assert Loop(w, cqes).conn.Get(id) == None;
  }

  /** The stream is open until the n-th of these completions is handled, and that one closes it. */
  ghost predicate ClosedBy(w: World, cqes: seq<Cqe>, n: nat, id: LocalId)
    requires w.conn.Valid()
  {
    && 0 < n <= |cqes|
    && LegalLoop(w, cqes[..n - 1]) && id in Loop(w, cqes[..n - 1]).conn.streams
    && LegalLoop(w, cqes[..n]) && id !in Loop(w, cqes[..n]).conn.streams
  }

  lemma ClosedNow(w: World, cqe: Cqe, later: seq<Cqe>, id: LocalId)
    requires w.conn.Valid() && w.running && Owed(w, cqe) && Calm(w, cqe)
    requires id in w.conn.streams && id !in Dispatch(w, cqe).conn.streams
    ensures ClosedBy(w, [cqe] + later, 1, id)
  {
    hide Dispatch, Calm, Owed;
    DispatchConn(w, cqe);
    var all := [cqe] + later;
    assert all[..1 - 1] == [] && all[..1] == [cqe] && [cqe][1..] == [];
    assert LegalLoop(w, []) && Loop(w, []) == w;
    assert LegalLoop(Dispatch(w, cqe), []) && Loop(Dispatch(w, cqe), []) == Dispatch(w, cqe);
    assert LegalLoop(w, [cqe]) && Loop(w, [cqe]) == Dispatch(w, cqe);
  }

  lemma ClosedLater(w: World, cqe: Cqe, later: seq<Cqe>, n: nat, id: LocalId)
    requires w.conn.Valid() && w.running && Owed(w, cqe) && Calm(w, cqe)
    requires Dispatch(w, cqe).conn.Valid() && ClosedBy(Dispatch(w, cqe), later, n, id)
    ensures ClosedBy(w, [cqe] + later, n + 1, id)
  {
    hide Dispatch, Calm, Owed;
    var all := [cqe] + later;
    assert all[..n][1..] == later[..n - 1] && all[..n + 1][1..] == later[..n];
    assert all[..n][0] == cqe && all[..n + 1][0] == cqe;
  }

  /** Over the whole loop: what a shell or forward stream has written to the host is exactly what its
      completed reads brought, up to the completion that closed it; all of them while it is open. */
  lemma {:induction false} LoopSends(w: World, cqes: seq<Cqe>, id: LocalId, pty: bool) returns (n: nat)
    requires Inv(w) && LegalLoop(w, cqes) && OpensAs(w, cqes, id, pty)
    requires id >= w.conn.nextId || id in w.conn.streams
    ensures n <= |Handled(w, cqes)|
    ensures WrittenBytes(Local(Outputs(w, cqes), id)) == BytesRead(Handled(w, cqes)[..n], ReadTag(id, pty))
    ensures n == |Handled(w, cqes)| || ClosedBy(w, Handled(w, cqes), n, id)
    ensures id in Loop(w, cqes).conn.streams ==> n == |Handled(w, cqes)|
    decreases |cqes|
  {
    hide Dispatch, Raised, Calm, Owed, PoolInv, TagsInv, ReaderInv, StepOutputs, Outputs, Handled, BytesRead, Local;
    hide WrittenBytes, Relays, ReadTag, ClosedBy, Handles;
    n := 0;
    if cqes == [] || !w.running {
      NothingSent(w, cqes, id, ReadTag(id, pty));
    } else {
      var cqe, rest := cqes[0], cqes[1..];
      var w1 := Dispatch(w, cqe);
      InStep(w, cqe);
      DispatchConn(w, cqe);
      StepKeepsInv(w, cqe);
      FirstSent(w, cqes, id);
      if id in w.conn.streams {
        StepSends(w, cqe, id, pty);
      } else {
        UnopenedSends(w, cqe, id, pty);
      }
      if id >= w1.conn.nextId || id in w1.conn.streams {
        var m := LoopSends(w1, rest, id, pty);
        n := m + 1;
        if m < |Handled(w1, rest)| {
          ClosedLater(w, cqe, Handled(w1, rest), m, id);
        }
        assert Handled(w, cqes)[..n] == [cqe] + Handled(w1, rest)[..m];
        BytesReadHead(cqe, Handled(w1, rest)[..m], ReadTag(id, pty));
      } else {
        GoneSends(w1, rest, id);
        n := 1;
        ClosedNow(w, cqe, Handled(w1, rest), id);
        assert Handled(w, cqes)[..1] == [cqe] + [];
        BytesReadHead(cqe, [], ReadTag(id, pty));
      }
    }
  }

  lemma NothingSent(w: World, cqes: seq<Cqe>, id: LocalId, tag: u64)
    requires w.conn.Valid() && (cqes == [] || !w.running)
    ensures LegalLoop(w, cqes) && Handled(w, cqes) == [] && Loop(w, cqes) == w
    ensures WrittenBytes(Local(Outputs(w, cqes), id)) == [] && BytesRead([], tag) == []
  {
  }

  lemma FirstSent(w: World, cqes: seq<Cqe>, id: LocalId)
    requires w.conn.Valid() && LegalLoop(w, cqes) && cqes != [] && w.running
    ensures Dispatch(w, cqes[0]).conn.Valid() && LegalLoop(Dispatch(w, cqes[0]), cqes[1..])
    ensures Handled(w, cqes) == [cqes[0]] + Handled(Dispatch(w, cqes[0]), cqes[1..])
    ensures WrittenBytes(Local(Outputs(w, cqes), id))
            == WrittenBytes(Local(StepOutputs(w, cqes[0]), id))
               + WrittenBytes(Local(Outputs(Dispatch(w, cqes[0]), cqes[1..]), id))
  {
    hide Dispatch, Calm, Owed, StepOutputs, Local, WrittenBytes;
    DispatchConn(w, cqes[0]);
    var outs, rest := StepOutputs(w, cqes[0]), Outputs(Dispatch(w, cqes[0]), cqes[1..]);
    LocalConcat(outs, rest, id);
    WrittenConcat(Local(outs, id), Local(rest, id));
  }

  lemma BytesReadHead(cqe: Cqe, cqes: seq<Cqe>, tag: u64)
    ensures BytesRead([cqe] + cqes, tag) == (if cqe.tag == tag then cqe.data else []) + BytesRead(cqes, tag)
    ensures BytesRead([], tag) == []
  {
    assert ([cqe] + cqes)[1..] == cqes;
  }
}
