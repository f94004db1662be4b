/** The incremental decoder behind `adb push` (`FileReceiver` in src/sync.rs), specified by an
    automaton that reads one byte at a time. */
module Receiver {
  import opened Basics
  import opened SyncCodec

  /** A file as the file system holds it. */
  datatype File = File(contents: seq<byte>, mode: Option<u32>, mtime: Option<u32>, linked: bool)

  /** How the file system answers: `limit` is the size at which writes start to fail. */
  datatype Disk = Disk(limit: nat, chmodOk: bool, utimesOk: bool, unlinkOk: bool,
                       writeError: Text, chmodError: Text)

  const EMPTY_FILE: File := File([], None, None, true)

  function INVALID_FRAME(): Text { Ascii("invalid sync frame during send") }

  datatype RecvState = Header | PartialHeader(leftovers: seq<byte>, len: nat) | Data(remaining: nat)

  datatype Receiver = Receiver(file: File, disk: Disk, mode: u32, state: RecvState) {
    /** A partial header holds one to seven bytes, zero-padded to eight. */
    predicate Valid() {
      && |file.contents| <= disk.limit
      && (state.PartialHeader? ==>
            && |state.leftovers| == 8 && 1 <= state.len <= 7
            && forall i :: state.len <= i < 8 ==> state.leftovers[i] == 0)
    }

    function Write(data: seq<byte>): Receiver {
      this.(file := file.(contents := file.contents + data))
    }

    function Room(): int { disk.limit - |file.contents| }
  }

  /** What feeding bytes leads to. A finished receiver is dropped; its file stays. */
  datatype Outcome = More(r: Receiver) | Finished(reply: Reply, file: File)

  function Abort(f: File, d: Disk): File {
    if d.unlinkOk then f.(linked := false) else f
  }

  function Finalize(r: Receiver, mtime: u32): Outcome {
    if !r.disk.chmodOk then Finished(FailResponse(r.disk.chmodError), Abort(r.file, r.disk))
    else
      var f := r.file.(mode := Some(r.mode));
      Finished(OkayResponse(), if r.disk.utimesOk then f.(mtime := Some(mtime)) else f)
  }

  function AcceptHeader(r: Receiver, hdr: seq<byte>): Outcome
    requires |hdr| == 8
  {
    match ParseFrameHeader(hdr)
    case None => Finished(FailResponse(INVALID_FRAME()), Abort(r.file, r.disk))
    case Some(FrameHeader(Data, len)) => More(r.(state := RecvState.Data(len)))
    case Some(FrameHeader(Done, mtime)) => Finalize(r, mtime)
  }

  function Pad(bytes: seq<byte>): (r: seq<byte>)
    requires |bytes| <= 8
    ensures |r| == 8
  {
    bytes + Zeros(8 - |bytes|)
  }

  /** One byte of the stream. */
  function StepByte(r: Receiver, b: byte): (o: Outcome)
    requires r.Valid()
    ensures o.More? ==> o.r.Valid()
  {
    match r.state
    case Header => More(r.(state := PartialHeader(Pad([b]), 1)))
    case PartialHeader(l, n) =>
      if n < 7 then More(r.(state := PartialHeader(l[n := b], n + 1)))
      else AcceptHeader(r, l[7 := b])
    case Data(k) =>
      if k == 0 then More(r.(state := PartialHeader(Pad([b]), 1)))
      else if r.Room() == 0 then Finished(FailResponse(r.disk.writeError), Abort(r.file, r.disk))
      else More(r.Write([b]).(state := if k == 1 then Header else RecvState.Data(k - 1)))
  }

  function Feed(r: Receiver, data: seq<byte>): (o: Outcome)
    requires r.Valid()
    ensures o.More? ==> o.r.Valid()
    decreases |data|, 0
  {
    if data == [] then More(r) else Then(StepByte(r, data[0]), data[1..])
  }

  /** Goes on with more bytes unless the transfer is over; bytes after the end have no effect. */
  function Then(o: Outcome, data: seq<byte>): (o': Outcome)
    requires o.More? ==> o.r.Valid()
    ensures o'.More? ==> o'.r.Valid()
    decreases |data|, 1
  {
    match o
    case More(r) => Feed(r, data)
    case Finished(_, _) => o
  }

  /** Feeding composes over concatenation, in file, reply and exact state. */
  lemma {:induction false} FeedConcat(r: Receiver, a: seq<byte>, b: seq<byte>)
    requires r.Valid()
    ensures Feed(r, a + b) == Then(Feed(r, a), b)
    decreases |a|
  {
    if a == [] {
      assert a + b == b;
    } else {
      HeadTail(a, b);
      var o := StepByte(r, a[0]);
      if o.More? {
        FeedConcat(o.r, a[1..], b);
      }
    }
  }

  // ----- What whole slices do, as the loop takes them -----

  lemma {:induction false} FeedPartialShort(r: Receiver, d: seq<byte>)
    requires r.Valid() && r.state.PartialHeader? && |d| < 8 - r.state.len
    ensures Feed(r, d) == More(r.(state := PartialHeader(Pad(r.state.leftovers[..r.state.len] + d), r.state.len + |d|)))
    decreases |d|
  {
    var PartialHeader(l, n) := r.state;
    if d == [] {
      assert Pad(l[..n] + d) == l;
    } else {
      var r' := r.(state := PartialHeader(l[n := d[0]], n + 1));
      FeedPartialShort(r', d[1..]);
      assert l[n := d[0]][..n + 1] + d[1..] == l[..n] + d;
    }
  }

  /** Accepting a header overwrites the decoder state, whatever it was. */
  lemma AcceptIgnoresState(r: Receiver, s: RecvState, hdr: seq<byte>)
    requires |hdr| == 8
    ensures AcceptHeader(r.(state := s), hdr) == AcceptHeader(r, hdr)
  {
  }

  lemma {:induction false} FeedPartialFull(r: Receiver, d: seq<byte>)
    requires r.Valid() && r.state.PartialHeader? && |d| >= 8 - r.state.len
    ensures var n := r.state.len;
            Feed(r, d) == Then(AcceptHeader(r, r.state.leftovers[..n] + d[..8 - n]), d[8 - n..])
    decreases |d|
  {
    var PartialHeader(l, n) := r.state;
    var l' := l[n := d[0]];
    if n == 7 {
      assert l' == l[..7] + d[..1];
    } else {
      var s' := PartialHeader(l', n + 1);
      var r' := r.(state := s');
      var hdr := l[..n] + d[..8 - n];
      assert Feed(r, d) == Feed(r', d[1..]);
      FeedPartialFull(r', d[1..]);
      assert l'[..n + 1] + d[1..][..7 - n] == hdr;
      assert d[1..][7 - n..] == d[8 - n..];
      AcceptIgnoresState(r, s', hdr);
    }
  }

  lemma FeedHeaderShort(r: Receiver, d: seq<byte>)
    requires r.Valid() && r.state.Header? && 0 < |d| < 8
    ensures Feed(r, d) == More(r.(state := PartialHeader(Pad(d), |d|)))
  {
    FeedPartialShort(r.(state := PartialHeader(Pad([d[0]]), 1)), d[1..]);
    assert Pad([d[0]])[..1] + d[1..] == d;
  }

  lemma FeedHeaderFull(r: Receiver, d: seq<byte>)
    requires r.Valid() && r.state.Header? && |d| >= 8
    ensures Feed(r, d) == Then(AcceptHeader(r, d[..8]), d[8..])
  {
    hide AcceptHeader;
    var s := PartialHeader(Pad([d[0]]), 1);
    assert Feed(r, d) == Feed(r.(state := s), d[1..]);
    FeedPartialFull(r.(state := s), d[1..]);
    assert Pad([d[0]])[..1] + d[1..][..7] == d[..8];
    assert d[1..][7..] == d[8..];
    AcceptIgnoresState(r, s, d[..8]);
  }

  /** A zero-length chunk leaves a state that behaves as Header as soon as a byte arrives. */
  lemma FeedEmptyChunk(r: Receiver, d: seq<byte>)
    requires r.Valid() && r.state == RecvState.Data(0) && d != []
    ensures Feed(r, d) == Feed(r.(state := Header), d)
  {
  }

  function AfterChunk(r: Receiver, data: seq<byte>): Receiver
    requires r.state.Data? && |data| <= r.state.remaining
  {
    r.Write(data).(state :=
      if |data| == r.state.remaining then Header else RecvState.Data(r.state.remaining - |data|))
  }

  lemma {:induction false} FeedDataFits(r: Receiver, a: seq<byte>, b: seq<byte>)
    requires r.Valid() && r.state.Data? && 0 < |a| <= r.state.remaining && |a| <= r.Room()
    ensures AfterChunk(r, a).Valid()
    ensures Feed(r, a + b) == Feed(AfterChunk(r, a), b)
    decreases |a|
  {
    var r' := AfterChunk(r, a[..1]);
    assert a[..1] == [a[0]];
    HeadTail(a, b);
    if |a| > 1 {
      FeedDataFits(r', a[1..], b);
      assert r.file.contents + [a[0]] + a[1..] == r.file.contents + a;
      assert AfterChunk(r', a[1..]) == AfterChunk(r, a);
    } else {
      assert a == [a[0]] && a[1..] + b == b;
    }
  }

  lemma FeedDataOverflows(r: Receiver, d: seq<byte>)
    requires r.Valid() && r.state.Data? && r.Room() < Min(r.state.remaining, |d|)
    ensures Feed(r, d) == Finished(FailResponse(r.disk.writeError), Abort(r.Write(d[..r.Room()]).file, r.disk))
  {
    var k := r.Room();
    var a, b := d[..k], d[k..];
    assert d == a + b;
    if k > 0 {
      FeedDataFits(r, a, b);
    } else {
      assert a == [] && r.file.contents + a == r.file.contents;
      assert b == d;
    }
  }

  // ----- The receiver as the daemon runs it -----

  datatype ReceiveResult = Done(reply: Reply) | Continue

  class FileReceiver {
    var file: File
    const disk: Disk
    const mode: u32
    var state: RecvState

    ghost function View(): Receiver
      reads this
    {
      Receiver(file, disk, mode, state)
    }

    constructor (disk: Disk, mode: u32)
      ensures View() == Receiver(EMPTY_FILE, disk, mode, Header)
    {
      this.file, this.disk, this.mode, this.state := EMPTY_FILE, disk, mode, Header;
    }

    /** `write_all`: on failure everything up to the limit has reached the file. */
    method WriteAll(data: seq<byte>) returns (ok: bool)
      requires View().Valid()
      modifies this`file
      ensures ok == (|data| <= old(View()).Room())
      ensures View() == old(View()).Write(if ok then data else data[..old(View()).Room()])
    {
      ok := |file.contents| + |data| <= disk.limit;
      var accepted := if ok then |data| else disk.limit - |file.contents|;
      file := file.(contents := file.contents + data[..accepted]);
      assert ok ==> data[..accepted] == data;
    }

    /** Removes the file; a failure to remove it is only logged. */
    method AbortTransfer()
      modifies this`file
      ensures file == Abort(old(file), disk)
    {
      if disk.unlinkOk {
        file := file.(linked := false);
      }
    }

    method FinalizeTransfer(mtime: u32) returns (res: ReceiveResult)
      modifies this`file
      ensures Finalize(old(View()), mtime).Finished?
      ensures var Finished(reply, f) := Finalize(old(View()), mtime);
              res == ReceiveResult.Done(reply) && file == f
    {
      if !disk.chmodOk {
        AbortTransfer();
        return ReceiveResult.Done(FailResponse(disk.chmodError));
      }
      file := file.(mode := Some(mode));
      if disk.utimesOk {
        file := file.(mtime := Some(mtime));
      }
      return ReceiveResult.Done(OkayResponse());
    }

    /** Acts on eight header bytes: a DATA header sets the state, anything else ends the transfer. */
    method TakeHeader(hdr: seq<byte>) returns (res: Option<ReceiveResult>)
      requires |hdr| == 8
      modifies this
      ensures match AcceptHeader(old(View()), hdr)
              case More(r) => res == None && View() == r
              case Finished(reply, f) => res == Some(ReceiveResult.Done(reply)) && file == f
    {
      match ParseFrameHeader(hdr)
      case None =>
        AbortTransfer();
        res := Some(ReceiveResult.Done(FailResponse(INVALID_FRAME())));
      case Some(FrameHeader(Data, len)) =>
        state := RecvState.Data(len);
        res := None;
      case Some(FrameHeader(Done, mtime)) =>
        var done := FinalizeTransfer(mtime);
        res := Some(done);
    }

    /** The Header arm of the loop. */
    method HeaderArm(data: seq<byte>, pos: nat) returns (pos': nat, res: Option<ReceiveResult>)
      requires View().Valid() && state.Header? && pos < |data|
      modifies this
      ensures Advanced(old(View()), data, pos, View(), pos', res)
      ensures res.None? ==> pos' > pos
    {
      ghost var r, rest := View(), data[pos..];
      if pos + 8 > |data| {
        var rem := data[pos..];
        var buf := new byte[8](_ => 0);
        forall k | 0 <= k < |rem| { buf[k] := rem[k]; }
        assert buf[..] == Pad(rem);
        FeedHeaderShort(r, rest);
        state := PartialHeader(buf[..], |rem|);
        return |data|, Some(Continue);
      }
      FeedHeaderFull(r, rest);
      assert rest[..8] == data[pos..pos + 8] && rest[8..] == data[pos + 8..];
      res := TakeHeader(data[pos..pos + 8]);
      pos' := pos + 8;
    }

    /** The PartialHeader arm of the loop. */
    method PartialArm(data: seq<byte>, pos: nat) returns (pos': nat, res: Option<ReceiveResult>)
      requires View().Valid() && state.PartialHeader? && pos < |data|
      modifies this
      ensures Advanced(old(View()), data, pos, View(), pos', res)
      ensures res.None? ==> pos' > pos
    {
      ghost var r, rest := View(), data[pos..];
      var PartialHeader(leftovers, leftoversLen) := state;
      var need := 8 - leftoversLen;
      if pos + need > |data| {
        var rem := data[pos..];
        var buf := new byte[8](k requires 0 <= k < 8 => leftovers[k]);
        forall k | 0 <= k < |rem| { buf[leftoversLen + k] := rem[k]; }
        assert buf[..] == Pad(leftovers[..leftoversLen] + rem);
        FeedPartialShort(r, rest);
        state := PartialHeader(buf[..], leftoversLen + |rem|);
        return |data|, Some(Continue);
      }
      FeedPartialFull(r, rest);
      assert rest[..need] == data[pos..pos + need] && rest[need..] == data[pos + need..];
      res := TakeHeader(leftovers[..leftoversLen] + data[pos..pos + need]);
      pos' := pos + need;
    }

    /** The Data arm of the loop. It takes nothing when the chunk is empty, but then leaves Data. */
    method DataArm(data: seq<byte>, pos: nat) returns (pos': nat, res: Option<ReceiveResult>)
      requires View().Valid() && state.Data? && pos < |data|
      modifies this
      ensures Advanced(old(View()), data, pos, View(), pos', res)
      ensures res.None? ==> pos' > pos || (pos' == pos && old(state) == RecvState.Data(0) && state == Header)
    {
      ghost var r, rest := View(), data[pos..];
      var remaining := state.remaining;
      var toWrite := Min(remaining, |data| - pos);
      var chunk := data[pos..pos + toWrite];
      ChunkStep(r, rest, toWrite);
      assert rest[..toWrite] == chunk && rest[toWrite..] == data[pos + toWrite..];
      var ok := WriteAll(chunk);
      pos' := pos + toWrite;
      if !ok {
        AbortTransfer();
        return pos', Some(ReceiveResult.Done(FailResponse(disk.writeError)));
      }
      state := if remaining - toWrite > 0 then RecvState.Data(remaining - toWrite) else Header;
      res := None;
    }

    /** Feeds one WRTE payload. The loop takes whole slices; what it computes is the fold of the
        byte automaton, so how the host cuts the stream into payloads cannot matter. */
    method Receive(data: seq<byte>) returns (res: ReceiveResult)
      requires View().Valid()
      modifies this
      ensures match Feed(old(View()), data)
              case More(r) => res == Continue && View() == r && r.Valid()
              case Finished(reply, f) => res == ReceiveResult.Done(reply) && file == f
    {
      var pos: nat := 0;
      assert data[0..] == data;
      while pos < |data|
        invariant pos <= |data|
        invariant View().Valid()
        invariant Feed(old(View()), data) == Feed(View(), data[pos..])
        decreases |data| - pos, if state == RecvState.Data(0) then 1 else 0
      {
        var stop: Option<ReceiveResult>;
        match state {
          case Header => pos, stop := HeaderArm(data, pos);
          case PartialHeader(_, _) => pos, stop := PartialArm(data, pos);
          case Data(_) => pos, stop := DataArm(data, pos);
        }
        if stop.Some? {
          return stop.value;
        }
      }
      return Continue;
    }
  }

  /** What one arm of the loop must have done to the automaton and the cursor. */
  ghost predicate Advanced(r: Receiver, data: seq<byte>, pos: nat, r': Receiver, pos': nat, res: Option<ReceiveResult>)
    requires r.Valid() && pos <= |data|
  {
    && pos <= pos' <= |data|
    && match res
       case None => r'.Valid() && Feed(r, data[pos..]) == Feed(r', data[pos'..])
       case Some(Continue) => Feed(r, data[pos..]) == More(r')
       case Some(Done(reply)) => Feed(r, data[pos..]) == Finished(reply, r'.file)
  }

  /** One turn of the loop in the Data state. */
  lemma ChunkStep(r: Receiver, rest: seq<byte>, n: nat)
    requires r.Valid() && r.state.Data? && rest != [] && n == Min(r.state.remaining, |rest|)
    ensures n <= r.Room() ==>
      AfterChunk(r, rest[..n]).Valid() && Feed(r, rest) == Feed(AfterChunk(r, rest[..n]), rest[n..])
    ensures n > r.Room() ==>
      Feed(r, rest) == Finished(FailResponse(r.disk.writeError), Abort(r.Write(rest[..n][..r.Room()]).file, r.disk))
  {
    if n > r.Room() {
      FeedDataOverflows(r, rest);
      assert rest[..n][..r.Room()] == rest[..r.Room()];
    } else if n == 0 {
      FeedEmptyChunk(r, rest);
      assert rest[..0] == [] && rest[0..] == rest && r.file.contents + [] == r.file.contents;
      assert AfterChunk(r, []) == r.(state := Header);
    } else {
      FeedDataFits(r, rest[..n], rest[n..]);
      assert rest[..n] + rest[n..] == rest;
    }
  }
}
