/** The frame source behind `adb pull` (`FileSender` in src/sync.rs). */
module Sender {
  import opened Basics
  import opened SyncCodec
  import opened Receiver
  import opened Frames

  /** What one `read` does: `Bytes(want)` is a read the kernel would like to end after `want` bytes. */
  datatype ReadAnswer = Bytes(want: nat) | ReadFailed(msg: Text)

  datatype Sender = Sender(contents: seq<byte>, pos: nat, done: bool) {
    predicate Valid() { pos <= |contents| }
  }

  /** Between one byte and a full buffer while bytes are left, zero at the end of the file. */
  function ReadLength(want: nat, left: nat): (n: nat)
    ensures n == 0 <==> left == 0
    ensures n <= left && n <= PAYLOAD_SIZE_MAX_BYTES
  {
    if left == 0 then 0
    else if want == 0 then 1
    else Min(want, Min(left, PAYLOAD_SIZE_MAX_BYTES))
  }

  /** A read may end after any number of bytes up to its buffer's 64 KiB, and after no other. */
  lemma AnyReadLength(n: nat, left: nat)
    requires left > 0
    ensures (exists want: nat :: ReadLength(want, left) == n) <==> 1 <= n <= left && n <= 64 * 1024
  {
    if 1 <= n <= left && n <= 64 * 1024 {
      assert ReadLength(n, left) == n;
    }
  }

  function NextFrame(s: Sender, a: ReadAnswer): (r: (Sender, Option<Reply>))
    requires s.Valid()
    ensures r.0.Valid() && r.0.contents == s.contents
  {
    if s.done then (s, None)
    else
      match a
      case ReadFailed(msg) => (s.(done := true), Some(FailResponse(msg)))
      case Bytes(want) =>
        var n := ReadLength(want, |s.contents| - s.pos);
        if n == 0 then (s.(done := true), Some(DoneResponse()))
        else (s.(pos := s.pos + n), Some(DataResponse(s.contents[s.pos..s.pos + n])))
  }

  class FileSender {
    const contents: seq<byte>
    var pos: nat
    var done: bool

    ghost function View(): Sender
      reads this
    {
      Sender(contents, pos, done)
    }

    constructor (contents: seq<byte>)
      ensures View() == Sender(contents, 0, false)
    {
      this.contents, this.pos, this.done := contents, 0, false;
    }

    method Next(a: ReadAnswer) returns (frame: Option<Reply>)
      requires View().Valid()
      modifies this
      ensures (View(), frame) == NextFrame(old(View()), a)
    {
      if done {
        return None;
      }
      match a
      case ReadFailed(msg) =>
        done := true;
        frame := Some(FailResponse(msg));
      case Bytes(want) =>
        var n := ReadLength(want, |contents| - pos);
        if n == 0 {
          done := true;
          return Some(DoneResponse());
        }
        frame := Some(DataResponse(contents[pos..pos + n]));
        pos := pos + n;
    }
  }

  // ----- Sender against receiver -----

  /** Every frame of an error-free transfer under a schedule of short reads. */
  function Drain(s: Sender, schedule: nat -> nat, i: nat): seq<Reply>
    requires s.Valid()
    decreases |s.contents| - s.pos, !s.done
  {
    var r := NextFrame(s, Bytes(schedule(i)));
    if r.1.None? then [] else [r.1.value] + Drain(r.0, schedule, i + 1)
  }

  /** The chunk the next read gives. */
  function NextChunk(s: Sender, want: nat): Text
    requires s.Valid()
  {
    s.contents[s.pos..s.pos + ReadLength(want, |s.contents| - s.pos)]
  }

  lemma DrainStep(s: Sender, schedule: nat -> nat, i: nat)
    requires s.Valid() && !s.done
    ensures s.pos == |s.contents| ==> Drain(s, schedule, i) == [DoneResponse()]
    ensures s.pos < |s.contents| ==>
      var chunk := NextChunk(s, schedule(i));
      Drain(s, schedule, i) == [DataResponse(chunk)] + Drain(s.(pos := s.pos + |chunk|), schedule, i + 1)
  {
    var r := NextFrame(s, Bytes(schedule(i)));
    if s.pos == |s.contents| {
      assert Drain(r.0, schedule, i + 1) == [];
    }
  }

  function WireBytes(frames: seq<Reply>): seq<byte> {
    if frames == [] then [] else ReplyBytes(frames[0]) + WireBytes(frames[1..])
  }

  /** The two directions frame bytes the same way. */
  lemma RepliesAreFrames(chunk: Text)
    ensures ReplyBytes(DataResponse(chunk)) == DataFrame(chunk)
    ensures ReplyBytes(DoneResponse()) == DoneFrame(0)
  {
  }

  lemma WireBytesStep(frame: Reply, tail: seq<Reply>)
    ensures WireBytes([frame] + tail) == ReplyBytes(frame) + WireBytes(tail)
  {
    assert ([frame] + tail)[1..] == tail;
  }

  lemma FileStreamStep(chunk: Chunk, rest: seq<Chunk>, mtime: u32)
    ensures FileStream([chunk] + rest, mtime) == DataFrame(chunk) + FileStream(rest, mtime)
  {
    hide DataFrame;
    assert ([chunk] + rest)[1..] == rest;
  }

  lemma ConcatNothing()
    ensures Concat([]) == []
  {
  }

  lemma ConcatStep(chunk: seq<byte>, rest: seq<seq<byte>>)
    ensures Concat([chunk] + rest) == chunk + Concat(rest)
  {
    assert ([chunk] + rest)[1..] == rest;
  }

  lemma SplitAt<T>(s: seq<T>, i: nat, j: nat)
    requires i <= j <= |s|
    ensures s[i..j] + s[j..] == s[i..]
  {
  }

  /** How a schedule of short reads cuts what is left of the file. */
  function Cuts(s: Sender, schedule: nat -> nat, i: nat): (chunks: seq<Chunk>)
    requires s.Valid()
    ensures forall k :: 0 <= k < |chunks| ==> 0 < |chunks[k]| <= PAYLOAD_SIZE_MAX_BYTES
    decreases |s.contents| - s.pos
  {
    if s.pos == |s.contents| then []
    else
      var chunk := NextChunk(s, schedule(i));
      [chunk] + Cuts(s.(pos := s.pos + |chunk|), schedule, i + 1)
  }

  lemma {:induction false} ConcatCuts(s: Sender, schedule: nat -> nat, i: nat)
    requires s.Valid()
    ensures Concat(Cuts(s, schedule, i)) == s.contents[s.pos..]
    decreases |s.contents| - s.pos
  {
    hide Concat;
    if s.pos == |s.contents| {
      ConcatNothing();
    } else {
      var chunk := NextChunk(s, schedule(i));
      var s' := s.(pos := s.pos + |chunk|);
      ConcatCuts(s', schedule, i + 1);
      ConcatStep(chunk, Cuts(s', schedule, i + 1));
      SplitAt(s.contents, s.pos, s'.pos);
    }
  }

  lemma OnlyDone()
    ensures WireBytes([DoneResponse()]) == FileStream([], 0)
  {
    hide ReplyBytes, DoneFrame;
    RepliesAreFrames([]);
    assert [DoneResponse()][1..] == [];
    assert ReplyBytes(DoneResponse()) + [] == ReplyBytes(DoneResponse());
  }

  /** The frames the sender makes are the DATA* DONE stream of the file as the reads cut it. */
  lemma {:induction false} DrainIsFileStream(s: Sender, schedule: nat -> nat, i: nat)
    requires s.Valid() && !s.done
    ensures WireBytes(Drain(s, schedule, i)) == FileStream(Cuts(s, schedule, i), 0)
    decreases |s.contents| - s.pos
  {
    hide ReplyBytes, DataFrame, DoneFrame, NextFrame, Drain, WireBytes, FileStream;
    DrainStep(s, schedule, i);
    if s.pos == |s.contents| {
      OnlyDone();
    } else {
      var chunk := NextChunk(s, schedule(i));
      var s' := s.(pos := s.pos + |chunk|);
      DrainIsFileStream(s', schedule, i + 1);
      WireBytesStep(DataResponse(chunk), Drain(s', schedule, i + 1));
      FileStreamStep(chunk, Cuts(s', schedule, i + 1), 0);
      RepliesAreFrames(chunk);
    }
  }

  /** Feeding a list of payloads one after the other. */
  function FeedAll(o: Outcome, pieces: seq<seq<byte>>): Outcome
    requires o.More? ==> o.r.Valid()
    decreases |pieces|
  {
    if pieces == [] then o else FeedAll(Then(o, pieces[0]), pieces[1..])
  }

  lemma {:induction false} FeedAllConcat(o: Outcome, pieces: seq<seq<byte>>)
    requires o.More? ==> o.r.Valid()
    ensures FeedAll(o, pieces) == Then(o, Concat(pieces))
    decreases |pieces|
  {
    if pieces != [] {
      FeedAllConcat(Then(o, pieces[0]), pieces[1..]);
      if o.More? {
        FeedConcat(o.r, pieces[0], Concat(pieces[1..]));
      }
    }
  }

  /** Sender and receiver undo each other: whatever the short reads and however the bytes are
      cut again, a receiver between frames writes the file's contents and answers OKAY. */
  lemma SenderReceiverRoundTrip(contents: seq<byte>, schedule: nat -> nat, pieces: seq<seq<byte>>, r: Receiver)
    requires Concat(pieces) == WireBytes(Drain(Sender(contents, 0, false), schedule, 0))
    requires Ready(r) && |contents| <= r.Room() && r.disk.chmodOk
    ensures var o := FeedAll(More(r), pieces);
            && o.Finished? && o.reply == OkayResponse()
            && o.file.contents == r.file.contents + contents
            && o.file.mode == Some(r.mode)
            && (r.disk.utimesOk ==> o.file.mtime == Some(0))
  {
    var s := Sender(contents, 0, false);
    var chunks := Cuts(s, schedule, 0);
    DrainIsFileStream(s, schedule, 0);
    ConcatCuts(s, schedule, 0);
    FeedAllConcat(More(r), pieces);
    FeedFileStream(r, chunks, 0);
    assert contents[0..] == contents;
  }
}
