/** The DATA* DONE grammar, an independent account of what the receiver accepts. */
module Frames {
  import opened Basics
  import opened SyncCodec
  import opened Receiver

  type Chunk = s: seq<byte> | |s| <= U32_MAX

  function DataFrame(chunk: Chunk): seq<byte> {
    FrameHeaderBytes(FrameHeader(FrameId.Data, |chunk|)) + chunk
  }

  function DoneFrame(mtime: u32): (r: seq<byte>)
    ensures |r| == 8
  {
    FrameHeaderBytes(FrameHeader(FrameId.Done, mtime))
  }

  /** What the host sends behind a SEND request: one DATA frame a chunk, then DONE. */
  function FileStream(chunks: seq<Chunk>, mtime: u32): (r: seq<byte>)
    ensures |r| >= 8
  {
    if chunks == [] then DoneFrame(mtime) else DataFrame(chunks[0]) + FileStream(chunks[1..], mtime)
  }

  /** Frames as the host spells them: four letters, a word, and for DATA that many bytes. */
  lemma FramesSpelled(chunk: Chunk, mtime: u32)
    ensures DataFrame(chunk) == Ascii("DATA") + LeBytes(|chunk|) + chunk
    ensures DoneFrame(mtime) == Ascii("DONE") + LeBytes(mtime)
  {
    FrameIdsSpellTheirNames();
  }

  /** One DATA frame a chunk. */
  function DataFrames(chunks: seq<Chunk>): seq<byte> {
    if chunks == [] then [] else DataFrame(chunks[0]) + DataFrames(chunks[1..])
  }

  lemma {:induction false} DataFramesAppend(chunks: seq<Chunk>, chunk: Chunk)
    ensures DataFrames(chunks + [chunk]) == DataFrames(chunks) + DataFrame(chunk)
  {
    hide DataFrame;
    if chunks == [] {
      assert [] + [chunk] == [chunk] && [chunk][1..] == [];
      assert DataFrame(chunk) + [] == [] + DataFrame(chunk);
    } else {
      DataFramesAppend(chunks[1..], chunk);
      HeadTail(chunks, [chunk]);
      Associative(DataFrame(chunks[0]), DataFrames(chunks[1..]), DataFrame(chunk));
    }
  }

  lemma {:induction false} FileStreamIsDataFrames(chunks: seq<Chunk>, mtime: u32)
    ensures FileStream(chunks, mtime) == DataFrames(chunks) + DoneFrame(mtime)
  {
    hide DataFrame, DoneFrame;
    if chunks == [] {
      assert [] + DoneFrame(mtime) == DoneFrame(mtime);
    } else {
      FileStreamIsDataFrames(chunks[1..], mtime);
      Associative(DataFrame(chunks[0]), DataFrames(chunks[1..]), DoneFrame(mtime));
    }
  }

  /** Between two frames. */
  predicate Ready(r: Receiver) {
    r.Valid() && (r.state.Header? || r.state == RecvState.Data(0))
  }

  lemma FeedReady(r: Receiver, d: seq<byte>)
    requires Ready(r) && d != []
    ensures Feed(r, d) == Feed(r.(state := Header), d)
  {
  }

  /** The receiver after a whole chunk. */
  function AfterFrame(r: Receiver, chunk: Chunk): Receiver {
    r.Write(chunk).(state := if chunk == [] then RecvState.Data(0) else Header)
  }

  lemma FeedHeader(r: Receiver, hdr: FrameHeader, d: seq<byte>)
    requires Ready(r)
    ensures Feed(r, FrameHeaderBytes(hdr) + d)
            == Then(if hdr.id.Data? then More(r.(state := RecvState.Data(hdr.payloadLen)))
                    else Finalize(r, hdr.payloadLen), d)
  {
    var all := FrameHeaderBytes(hdr) + d;
    FeedReady(r, all);
    FeedHeaderFull(r.(state := Header), all);
    assert all[..8] == FrameHeaderBytes(hdr) && all[8..] == d;
    ParseOfFrameHeader(hdr);
  }

  lemma FeedFrame(r: Receiver, chunk: Chunk, rest: seq<byte>)
    requires Ready(r) && |chunk| <= r.Room()
    ensures Ready(AfterFrame(r, chunk))
    ensures Feed(r, DataFrame(chunk) + rest) == Feed(AfterFrame(r, chunk), rest)
  {
    var r1 := r.(state := RecvState.Data(|chunk|));
    assert DataFrame(chunk) + rest == FrameHeaderBytes(FrameHeader(FrameId.Data, |chunk|)) + (chunk + rest);
    FeedHeader(r, FrameHeader(FrameId.Data, |chunk|), chunk + rest);
    if chunk == [] {
      assert chunk + rest == rest && r.file.contents + chunk == r.file.contents;
    } else {
      FeedDataFits(r1, chunk, rest);
    }
  }

  lemma FeedFrameOverflow(r: Receiver, chunk: Chunk, rest: seq<byte>)
    requires Ready(r) && |chunk| > r.Room()
    ensures Feed(r, DataFrame(chunk) + rest)
            == Finished(FailResponse(r.disk.writeError), Abort(r.Write(chunk[..r.Room()]).file, r.disk))
  {
    var r1 := r.(state := RecvState.Data(|chunk|));
    assert DataFrame(chunk) + rest == FrameHeaderBytes(FrameHeader(FrameId.Data, |chunk|)) + (chunk + rest);
    FeedHeader(r, FrameHeader(FrameId.Data, |chunk|), chunk + rest);
    FeedDataOverflows(r1, chunk + rest);
    assert (chunk + rest)[..r.Room()] == chunk[..r.Room()];
  }

  /** How a transfer ends, from the chunks alone. */
  function Result(r: Receiver, chunks: seq<Chunk>, mtime: u32): Outcome
    requires r.Valid()
  {
    var data := Concat(chunks);
    if |data| <= r.Room() then Finalize(r.Write(data), mtime)
    else Finished(FailResponse(r.disk.writeError), Abort(r.Write(data[..r.Room()]).file, r.disk))
  }

  /** Feeding a well-formed stream writes the chunks in order and then applies mode and mtime;
      on a disk that fills up it fails with exactly the bytes that fitted. */
  lemma {:induction false} FeedFileStream(r: Receiver, chunks: seq<Chunk>, mtime: u32)
    requires Ready(r)
    ensures Feed(r, FileStream(chunks, mtime)) == Result(r, chunks, mtime)
    decreases |chunks|
  {
    if chunks == [] {
      assert DoneFrame(mtime) + [] == DoneFrame(mtime);
      FeedHeader(r, FrameHeader(FrameId.Done, mtime), []);
      assert r.file.contents + Concat(chunks) == r.file.contents;
    } else {
      var chunk, rest := chunks[0], chunks[1..];
      assert Concat(chunks) == chunk + Concat(rest);
      if |chunk| <= r.Room() {
        var r1 := AfterFrame(r, chunk);
        FeedFrame(r, chunk, FileStream(rest, mtime));
        FeedFileStream(r1, rest, mtime);
        ResultStep(r, chunk, rest, mtime);
      } else {
        FeedFrameOverflow(r, chunk, FileStream(rest, mtime));
        assert Concat(chunks)[..r.Room()] == chunk[..r.Room()];
      }
    }
  }

  lemma ResultStep(r: Receiver, chunk: Chunk, rest: seq<Chunk>, mtime: u32)
    requires Ready(r) && |chunk| <= r.Room()
    ensures Result(AfterFrame(r, chunk), rest, mtime) == Result(r, [chunk] + rest, mtime)
  {
    var r1, data := AfterFrame(r, chunk), Concat(rest);
    var all := Concat([chunk] + rest);
    assert ([chunk] + rest)[1..] == rest;
    assert all == chunk + data;
    if |all| <= r.Room() {
      assert r.file.contents + all == r1.file.contents + data;
    } else {
      assert r.file.contents + all[..r.Room()] == r1.file.contents + data[..r1.Room()];
    }
  }

  /** Until its last byte has arrived, a stream that fits never ends the transfer. */
  lemma {:induction false} FeedPrefix(r: Receiver, chunks: seq<Chunk>, mtime: u32, n: nat)
    requires Ready(r) && |Concat(chunks)| <= r.Room()
    requires n < |FileStream(chunks, mtime)|
    ensures Feed(r, FileStream(chunks, mtime)[..n]).More?
    decreases |chunks|
  {
    var all := FileStream(chunks, mtime);
    var d := all[..n];
    if 0 < n < 8 {
      FeedReady(r, d);
      FeedHeaderShort(r.(state := Header), d);
    } else if n >= 8 {
      var chunk, rest := chunks[0], FileStream(chunks[1..], mtime);
      if n < 8 + |chunk| {
        var hdr := FrameHeader(FrameId.Data, |chunk|);
        assert d == FrameHeaderBytes(hdr) + chunk[..n - 8];
        FeedHeader(r, hdr, chunk[..n - 8]);
        if n > 8 {
          FeedDataFits(r.(state := RecvState.Data(|chunk|)), chunk[..n - 8], []);
          assert chunk[..n - 8] + [] == chunk[..n - 8];
        }
      } else {
        var m := n - 8 - |chunk|;
        assert d == DataFrame(chunk) + rest[..m];
        FeedFrame(r, chunk, rest[..m]);
        FeedPrefix(AfterFrame(r, chunk), chunks[1..], mtime, m);
      }
    }
  }

  // ----- Bad frames -----

  /** A reply that refuses the transfer, and the file it leaves: what was written, removed. */
  ghost predicate Refused(o: Outcome, r: Receiver, data: seq<byte>, why: Text) {
    && o.Finished?
    && o.reply == Reply(ReplyHeader(ReplyFail, |why|), why)
    && o.file == File(r.file.contents + data, r.file.mode, r.file.mtime, r.file.linked && !r.disk.unlinkOk)
  }

  /** Eight bytes that open with neither DATA nor DONE, wherever they come between frames, end the
      transfer: FAIL, the chunks before them written, mode and mtime untouched, the path removed. */
  lemma {:induction false} BadFrameFails(r: Receiver, chunks: seq<Chunk>, bad: seq<byte>, rest: seq<byte>)
    requires Ready(r) && |Concat(chunks)| <= r.Room()
    requires |bad| == 8 && bad[..4] != Ascii("DATA") && bad[..4] != Ascii("DONE")
    ensures Refused(Feed(r, DataFrames(chunks) + (bad + rest)), r, Concat(chunks),
                    Ascii("invalid sync frame during send"))
    decreases |chunks|
  {
    hide DataFrame;
    var tail := bad + rest;
    if chunks == [] {
      assert [] + tail == tail && tail[..8] == bad;
      NotAFrame(bad);
      FeedReady(r, tail);
      FeedHeaderFull(r.(state := Header), tail);
      assert r.file.contents + [] == r.file.contents;
    } else {
      var chunk, more := chunks[0], DataFrames(chunks[1..]);
      Associative(DataFrame(chunk), more, tail);
      FeedFrame(r, chunk, more + tail);
      BadFrameFails(AfterFrame(r, chunk), chunks[1..], bad, rest);
      Associative(r.file.contents, chunk, Concat(chunks[1..]));
    }
  }

  lemma NotAFrame(bad: seq<byte>)
    requires |bad| == 8 && bad[..4] != Ascii("DATA") && bad[..4] != Ascii("DONE")
    ensures ParseFrameHeader(bad).None?
  {
    FrameIdsSpellTheirNames();
    LeBytesOfLeU32(bad[..4]);
  }

  /** A disk without room for the chunks ends the transfer before the last byte. */
  lemma {:induction false} OverflowIsEarly(r: Receiver, chunks: seq<Chunk>, mtime: u32)
    requires Ready(r) && |Concat(chunks)| > r.Room()
    ensures var stream := FileStream(chunks, mtime);
            Feed(r, stream[..|stream| - 1])
            == Finished(FailResponse(r.disk.writeError), Abort(r.Write(Concat(chunks)[..r.Room()]).file, r.disk))
    decreases |chunks|
  {
    hide DataFrame;
    var chunk, rest := chunks[0], FileStream(chunks[1..], mtime);
    var stream, tail := FileStream(chunks, mtime), rest[..|rest| - 1];
    assert stream[..|stream| - 1] == DataFrame(chunk) + tail;
    if |chunk| <= r.Room() {
      FeedFrame(r, chunk, tail);
      OverflowIsEarly(AfterFrame(r, chunk), chunks[1..], mtime);
      ResultStep(r, chunk, chunks[1..], mtime);
      assert chunks == [chunk] + chunks[1..];
    } else {
      FeedFrameOverflow(r, chunk, tail);
      assert Concat(chunks)[..r.Room()] == chunk[..r.Room()];
    }
  }

  ghost predicate Accepts(r: Receiver, data: seq<byte>)
    requires r.Valid()
  {
    Feed(r, data).Finished? && Feed(r, data).reply == OkayResponse()
  }

  ghost predicate StartsWithFile(data: seq<byte>, chunks: seq<Chunk>, mtime: u32) {
    FileStream(chunks, mtime) <= data
  }

  /** Decoding back: whatever bytes earn an OKAY begin with a well-formed DATA* DONE stream. */
  lemma {:induction false} DecodeAccepted(r: Receiver, data: seq<byte>) returns (chunks: seq<Chunk>, mtime: u32)
    requires Ready(r) && Accepts(r, data)
    ensures StartsWithFile(data, chunks, mtime)
    ensures |Concat(chunks)| <= r.Room()
    decreases |data|
  {
    if 0 < |data| < 8 {
      FeedReady(r, data);
      FeedHeaderShort(r.(state := Header), data);
    }
    assert |data| >= 8;
    var d := data[8..];
    FeedReady(r, data);
    FeedHeaderFull(r.(state := Header), data);
    assert ParseFrameHeader(data[..8]).Some?;
    var hdr := ParseFrameHeader(data[..8]).value;
    FrameHeaderOfParse(data[..8]);
    assert data == FrameHeaderBytes(hdr) + d;
    if hdr.id.Done? {
      chunks, mtime := [], hdr.payloadLen;
    } else {
      var len := hdr.payloadLen;
      ChunkIsWhole(r, len, d);
      var chunk, rest := d[..len], d[len..];
      assert data == DataFrame(chunk) + rest;
      FeedFrame(r, chunk, rest);
      var tail;
      tail, mtime := DecodeAccepted(AfterFrame(r, chunk), rest);
      chunks := [chunk] + tail;
      assert chunks[1..] == tail;
      assert FileStream(chunks, mtime) == DataFrame(chunk) + FileStream(tail, mtime);
    }
  }

  lemma ChunkIsWhole(r: Receiver, len: u32, d: seq<byte>)
    requires r.Valid()
    requires Accepts(r.(state := RecvState.Data(len)), d)
    ensures len <= |d| && len <= r.Room()
  {
    var r1 := r.(state := RecvState.Data(len));
    assert d + [] == d;
    if r1.Room() < Min(len, |d|) {
      FeedDataOverflows(r1, d);
    } else if d != [] && |d| < len {
      FeedDataFits(r1, d, []);
    }
  }

  /** The receiver answers OKAY exactly when the bytes begin with a DATA* DONE stream that fits
      the disk and the mode can be set. */
  lemma AcceptedExactly(r: Receiver, data: seq<byte>)
    requires Ready(r)
    ensures Accepts(r, data)
            <==> r.disk.chmodOk && exists chunks: seq<Chunk>, mtime: u32 ::
                   StartsWithFile(data, chunks, mtime) && |Concat(chunks)| <= r.Room()
  {
    if Accepts(r, data) {
      var chunks, mtime := DecodeAccepted(r, data);
      AcceptedPrefix(r, chunks, mtime, data);
    }
    if r.disk.chmodOk {
      forall chunks: seq<Chunk>, mtime: u32 | StartsWithFile(data, chunks, mtime) && |Concat(chunks)| <= r.Room()
        ensures Accepts(r, data)
      {
        AcceptedPrefix(r, chunks, mtime, data);
      }
    }
  }

  /** Bytes behind the DONE frame are dropped. */
  lemma AcceptedPrefix(r: Receiver, chunks: seq<Chunk>, mtime: u32, data: seq<byte>)
    requires Ready(r) && StartsWithFile(data, chunks, mtime)
    ensures Feed(r, data) == Result(r, chunks, mtime)
  {
    var s := FileStream(chunks, mtime);
    FeedConcat(r, s, data[|s|..]);
    assert data == s + data[|s|..];
    FeedFileStream(r, chunks, mtime);
  }
}
