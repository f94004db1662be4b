/** Outbound framing: what `submit_message` puts on the wire can be taken apart again. */
module Wire {
  import opened Basics
  import opened Message
  import opened Tags
  import opened Buffers
  import opened Protocol
  import opened EventRing
  import opened History

  /** A message as it goes out. */
  datatype Frame = Frame(header: AdbHeader, payload: Body)

  /** The messages among the outputs, reads left out. */
  function Frames(outs: seq<Output>): seq<Frame> {
    if outs == [] then []
    else (if outs[0].Send? then [Frame(HeaderOf(outs[0]), outs[0].payload)] else []) + Frames(outs[1..])
  }

  /** The buffers in the order they were pushed, concatenated. */
  function Written(sq: seq<Sqe>): seq<byte> {
    if sq == [] then [] else (if sq[0].WriteOp? then sq[0].data else []) + Written(sq[1..])
  }

  function Encode(fs: seq<Frame>): seq<byte> {
    if fs == [] then [] else HeaderBytes(fs[0].header) + fs[0].payload + Encode(fs[1..])
  }

  /** Taking a byte stream apart: a header, as many payload bytes as it announces, and again. */
  function Decode(b: seq<byte>): Option<seq<Frame>>
    decreases |b|
  {
    if b == [] then Some([])
    else
      match ParseHeader(b)
      case None => None
      case Some(h) =>
        if |b| < 24 + h.dataLength then None
        else
          match Decode(b[24 + h.dataLength..])
          case None => None
          case Some(rest) => Some([Frame(h, b[24..24 + h.dataLength])] + rest)
  }

  /** Frames whose header announces their payload and carries the right magic word. */
  predicate Announced(f: Frame) {
    GoodMagic(f.header) && f.header.dataLength == |f.payload|
  }

  lemma {:induction false} DecodeOfEncode(fs: seq<Frame>)
    requires forall f <- fs :: Announced(f)
    ensures Decode(Encode(fs)) == Some(fs)
  {
    hide ParseHeader, HeaderBytes, GoodMagic;
    if fs != [] {
      var f, rest := fs[0], fs[1..];
      var b, tail := Encode(fs), f.payload + Encode(rest);
      assert Announced(f);
      assert b == HeaderBytes(f.header) + tail;
      ParseOfPrint(f.header, tail);
      assert b[24..24 + |f.payload|] == f.payload;
      assert b[24 + |f.payload|..] == Encode(rest);
      DecodeOfEncode(rest);
      assert fs == [f] + rest;
    }
  }

  lemma {:induction false} FramesAnnounced(outs: seq<Output>)
    ensures forall f <- Frames(outs) :: Announced(f)
  {
    hide Check;
    if outs != [] {
      FramesAnnounced(outs[1..]);
    }
  }

  // ----- What the ring is given -----

  lemma {:induction false} WrittenConcat(a: seq<Sqe>, b: seq<Sqe>)
    ensures Written(a + b) == Written(a) + Written(b)
  {
    if a == [] {
      assert a + b == b;
    } else {
      WrittenConcat(a[1..], b);
      HeadTail(a, b);
      Associative(if a[0].WriteOp? then a[0].data else [], Written(a[1..]), Written(b));
    }
  }

  /** The frames a submission queue spells: a write without the link flag is a whole message, a
      linked one is a header and must be followed at once by its payload. */
  function Spelled(sq: seq<Sqe>): Option<seq<(seq<byte>, seq<byte>)>> {
    if sq == [] then Some([])
    else if !sq[0].WriteOp? then Spelled(sq[1..])
    else if !sq[0].link then Cons((sq[0].data, []), Spelled(sq[1..]))
    else if |sq| < 2 || !sq[1].WriteOp? || sq[1].link || sq[1].data == [] then None
    else Cons((sq[0].data, sq[1].data), Spelled(sq[2..]))
  }

  function Cons<T>(x: T, rest: Option<seq<T>>): Option<seq<T>> {
    match rest case None => None case Some(xs) => Some([x] + xs)
  }

  lemma {:induction false} SpelledConcat(a: seq<Sqe>, b: seq<Sqe>)
    requires Spelled(a).Some? && Spelled(b).Some?
    ensures Spelled(a + b) == Some(Spelled(a).value + Spelled(b).value)
    decreases |a|
  {
    if a == [] {
      assert a + b == b;
      assert [] + Spelled(b).value == Spelled(b).value;
    } else {
      HeadTail(a, b);
      if a[0].WriteOp? && a[0].link {
        assert (a + b)[2..] == a[2..] + b;
        SpelledConcat(a[2..], b);
        Associative([(a[0].data, a[1].data)], Spelled(a[2..]).value, Spelled(b).value);
      } else {
        SpelledConcat(a[1..], b);
        if a[0].WriteOp? {
          Associative([(a[0].data, [])], Spelled(a[1..]).value, Spelled(b).value);
        }
      }
    }
  }

  /** The wire image of a frame: header bytes and payload bytes. */
  function Image(f: Frame): (seq<byte>, seq<byte>) {
    (HeaderBytes(f.header), f.payload)
  }

  function Images(fs: seq<Frame>): seq<(seq<byte>, seq<byte>)> {
    if fs == [] then [] else [Image(fs[0])] + Images(fs[1..])
  }

  lemma {:induction false} ImagesConcat(a: seq<Frame>, b: seq<Frame>)
    ensures Images(a + b) == Images(a) + Images(b)
  {
    hide Image;
    if a == [] {
      assert a + b == b;
      assert [] + Images(b) == Images(b);
    } else {
      ImagesConcat(a[1..], b);
      HeadTail(a, b);
      Associative([Image(a[0])], Images(a[1..]), Images(b));
    }
  }

  lemma {:induction false} EncodeConcat(a: seq<Frame>, b: seq<Frame>)
    ensures Encode(a + b) == Encode(a) + Encode(b)
  {
    hide HeaderBytes;
    if a == [] {
      assert a + b == b;
    } else {
      EncodeConcat(a[1..], b);
      HeadTail(a, b);
      Associative(HeaderBytes(a[0].header) + a[0].payload, Encode(a[1..]), Encode(b));
    }
  }

  lemma {:induction false} FramesConcat(a: seq<Output>, b: seq<Output>)
    ensures Frames(a + b) == Frames(a) + Frames(b)
  {
    hide HeaderOf;
    if a == [] {
      assert a + b == b;
    } else {
      FramesConcat(a[1..], b);
      HeadTail(a, b);
    }
  }

  /** The queue grows by entries that spell exactly the frames fs. */
  ghost predicate Carries(sq: seq<Sqe>, sq': seq<Sqe>, fs: seq<Frame>) {
    exists added: seq<Sqe> ::
      sq' == sq + added && Written(added) == Encode(fs) && Spelled(added) == Some(Images(fs))
  }

  lemma CarriesCompose(a: seq<Sqe>, b: seq<Sqe>, c: seq<Sqe>, fs: seq<Frame>, gs: seq<Frame>)
    requires Carries(a, b, fs) && Carries(b, c, gs)
    ensures Carries(a, c, fs + gs)
  {
    hide Written, Spelled, Encode, Images;
    var x: seq<Sqe> :| b == a + x && Written(x) == Encode(fs) && Spelled(x) == Some(Images(fs));
    var y: seq<Sqe> :| c == b + y && Written(y) == Encode(gs) && Spelled(y) == Some(Images(gs));
    WrittenConcat(x, y);
    SpelledConcat(x, y);
    EncodeConcat(fs, gs);
    ImagesConcat(fs, gs);
    assert c == a + (x + y);
  }

  lemma SkipRead(sqe: Sqe, rest: seq<Sqe>)
    requires !sqe.WriteOp?
    ensures Written([sqe] + rest) == Written(rest)
    ensures Spelled([sqe] + rest) == Spelled(rest)
  {
    assert ([sqe] + rest)[1..] == rest;
    assert [] + Written(rest) == Written(rest);
  }

  lemma OneFrame(h: Sqe, p: Sqe, f: Frame)
    requires h.WriteOp? && h.data == HeaderBytes(f.header) && h.link == (f.payload != [])
    requires f.payload != [] ==> p.WriteOp? && p.data == f.payload && !p.link
    ensures var added := if f.payload == [] then [h] else [h, p];
            Written(added) == Encode([f]) && Spelled(added) == Some(Images([f]))
  {
    hide HeaderBytes;
    assert [f][1..] == [] && [h][1..] == [] && [h, p][1..] == [p] && [p][1..] == [] && [h, p][2..] == [];
    assert p.WriteOp? ==> Written([p]) == p.data + [];
    assert HeaderBytes(f.header) + f.payload + [] == HeaderBytes(f.header) + f.payload;
    assert HeaderBytes(f.header) + [] == HeaderBytes(f.header);
  }

  lemma CarriesNothing(sq: seq<Sqe>, added: Option<Sqe>)
    requires added.Some? ==> !added.value.WriteOp?
    ensures Carries(sq, if added.None? then sq else sq + [added.value], [])
  {
    assert Written([]) == Encode([]) && Spelled([]) == Some(Images([]));
    assert sq + [] == sq;
    if added.Some? {
      SkipRead(added.value, []);
      assert [added.value] + [] == [added.value];
    }
  }

  lemma SubmitCarries(r: Ring, o: Output)
    requires SlotsNeeded(o) <= CountFree(r.slots)
    ensures Carries(r.sq, Submit(r, o).sq, Frames([o]))
  {
    hide HeaderBytes, HeaderOf, Pack, FirstFree;
    assert [o][1..] == [];
    match o
    case Send(_, _, _, _, payload) =>
      var f := Frame(HeaderOf(o), payload);
      assert Frames([o]) == [f];
      var sq' := Submit(r, o).sq;
      var h := sq'[|r.sq|];
      var p := if payload == [] then h else sq'[|r.sq| + 1];
      OneFrame(h, p, f);
      assert sq' == r.sq + if payload == [] then [h] else [h, p];
    case StartPtyRead(id) => CarriesNothing(r.sq, Some(ReadOp(PtyTag(id))));
    case StartSocketRead(id) => CarriesNothing(r.sq, Some(ReadOp(SocketTag(id))));
  }

  lemma {:induction false} SubmitAllCarries(r: Ring, outs: seq<Output>)
    requires AllSlotsNeeded(outs) <= CountFree(r.slots)
    ensures Carries(r.sq, SubmitAll(r, outs).sq, Frames(outs))
    decreases |outs|
  {
    hide Submit, Frames, Carries;
    if outs == [] {
      CarriesNothing(r.sq, None);
      FramesOfNothing();
    } else {
      var r1 := Submit(r, outs[0]);
      SubmitCarries(r, outs[0]);
      SubmitAllCarries(r1, outs[1..]);
      CarriesCompose(r.sq, r1.sq, SubmitAll(r, outs).sq, Frames([outs[0]]), Frames(outs[1..]));
      FramesConcat([outs[0]], outs[1..]);
      assert [outs[0]] + outs[1..] == outs;
    }
  }

  lemma FramesOfNothing()
    ensures Frames([]) == []
  {
  }

  lemma DispatchCarries(w: World, cqe: Cqe)
    requires w.conn.Valid() && Calm(w, cqe)
    ensures Carries(w.ring.sq, Dispatch(w, cqe).ring.sq, Frames(StepOutputs(w, cqe)))
  {
    hide Carries, Frames, React, Panics, Pack, Unpack, SubmitAll;
    var w0 := w.(ring := Complete(w.ring, cqe.tag));
    var outs := StepOutputs(w, cqe);
    FramesOfNothing();
    CarriesNothing(w.ring.sq, None);
    CarriesNothing(w.ring.sq, Some(PollOp(Ep0Tag())));
    SubmitAllCarries(w0.ring, outs);
    var sq1 := SubmitAll(w0.ring, outs).sq;
    CarriesNothing(sq1, Some(ReadOp(HeaderTag())));
    CarriesNothing(sq1, Some(ReadOp(PayloadTag())));
    CarriesCompose(w.ring.sq, sq1, sq1 + [ReadOp(HeaderTag())], Frames(outs), []);
    CarriesCompose(w.ring.sq, sq1, sq1 + [ReadOp(PayloadTag())], Frames(outs), []);
    assert Frames(outs) + [] == Frames(outs);
    NothingSubmitted(w0.ring);
  }

  lemma NothingSubmitted(r: Ring)
    ensures SubmitAll(r, []) == r
  {
  }

  lemma {:induction false} LoopCarries(w: World, cqes: seq<Cqe>)
    requires w.conn.Valid() && LegalLoop(w, cqes)
    ensures Carries(w.ring.sq, Loop(w, cqes).ring.sq, Frames(Outputs(w, cqes)))
    decreases |cqes|
  {
    hide Dispatch, Carries, Frames, StepOutputs, Calm;
    FramesOfNothing();
    CarriesNothing(w.ring.sq, None);
    if cqes != [] && w.running {
      DispatchConn(w, cqes[0]);
      var w1 := Dispatch(w, cqes[0]);
      DispatchCarries(w, cqes[0]);
      LoopCarries(w1, cqes[1..]);
      FramesConcat(StepOutputs(w, cqes[0]), Outputs(w1, cqes[1..]));
      CarriesCompose(w.ring.sq, w1.ring.sq, Loop(w, cqes).ring.sq,
                     Frames(StepOutputs(w, cqes[0])), Frames(Outputs(w1, cqes[1..])));
    }
  }

  /** The messages among the outputs. */
  function Sends(outs: seq<Output>): seq<Output> {
    if outs == [] then [] else (if outs[0].Send? then [outs[0]] else []) + Sends(outs[1..])
  }

  /** The frame says what the message says, in the message's own version. */
  predicate Says(f: Frame, o: Output) {
    && o.Send?
    && f.header.command == o.command && f.header.arg0 == o.arg0 && f.header.arg1 == o.arg1
    && f.payload == o.payload && f.header.dataLength == |o.payload|
    && f.header.dataCheck == (match o.version case V0 => SumBytes(o.payload) % 0x1_0000_0000 case V1 => 0)
  }

  predicate AllSay(fs: seq<Frame>, outs: seq<Output>) {
    |fs| == |outs| && forall i :: 0 <= i < |fs| ==> Says(fs[i], outs[i])
  }

  lemma {:induction false} FramesSay(outs: seq<Output>)
    ensures AllSay(Frames(outs), Sends(outs))
  {
    hide Says, SumBytes;
    if outs != [] {
      FramesSay(outs[1..]);
      if outs[0].Send? {
        HeaderSays(outs[0]);
      }
    }
  }

  lemma HeaderSays(o: Output)
    requires o.Send?
    ensures Says(Frame(HeaderOf(o), o.payload), o)
  {
    hide SumBytes;
  }

  /** Outbound framing over whole runs: the buffers of the loop, in the order they were pushed,
      decode to exactly the messages submitted, headers with their length, checksum and magic
      included; and each payload buffer stands right behind its own linked header. */
  lemma OutboundFraming(identity: Text, cqes: seq<Cqe>)
    requires LegalLoop(Start(identity), cqes)
    ensures var sq, fs := Loop(Start(identity), cqes).ring.sq, Frames(Outputs(Start(identity), cqes));
            && Decode(Written(sq)) == Some(fs) && Spelled(sq) == Some(Images(fs))
            && AllSay(fs, Sends(Outputs(Start(identity), cqes)))
  {
    hide Loop, LegalLoop, Outputs, Frames, Sends, AllSay, Decode, Encode, Images, Pack;
    var w := Start(identity);
    var sq, fs := Loop(w, cqes).ring.sq, Frames(Outputs(w, cqes));
    LoopCarries(w, cqes);
    var added: seq<Sqe> :|
      sq == w.ring.sq + added && Written(added) == Encode(fs) && Spelled(added) == Some(Images(fs));
    var a, b := PollOp(Ep0Tag()), ReadOp(HeaderTag());
    assert sq == [a] + ([b] + added);
    SkipRead(b, added);
    SkipRead(a, [b] + added);
    FramesAnnounced(Outputs(w, cqes));
    FramesSay(Outputs(w, cqes));
    DecodeOfEncode(fs);
  }
}
