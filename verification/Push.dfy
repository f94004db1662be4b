/** `adb push` over whole sessions: how it ends, and that on a disk with room it does not matter how
    the host cuts the bytes. */
module Push {
  import opened Basics
  import opened SyncCodec
  import opened Receiver
  import opened Frames
  import opened Sender
  import opened SyncService

  /** A WRTE payload and what the file system would answer while it is handled. */
  datatype Payload = Payload(data: seq<byte>, fs: FsAnswers)

  /** All the payload bytes, in order. */
  function AllBytes(ps: seq<Payload>): seq<byte> {
    if ps == [] then [] else ps[0].data + AllBytes(ps[1..])
  }

  function HandleAll(s: Session, ps: seq<Payload>): (r: (Session, seq<SyncResult>))
    requires s.Valid()
    ensures r.0.Valid() && |r.1| == |ps|
    decreases |ps|
  {
    if ps == [] then (s, [])
    else
      var (s1, first) := Handle(s, ps[0].data, ps[0].fs);
      var (s2, rest) := HandleAll(s1, ps[1..]);
      (s2, [first] + rest)
  }

  /** Every answer but the last is silence; the last is the reply. */
  ghost predicate OnlyLastReplies(results: seq<SyncResult>, reply: Reply) {
    && results != []
    && (forall i :: 0 <= i < |results| - 1 ==> results[i] == SyncResult.Continue)
    && results[|results| - 1] == Response(reply)
  }

  /** A push leaves the session idle; only if its first payload ends it, a pull that was under way
      when it came is still there. */
  function AfterPush(s: Session, k: nat): SyncState {
    if k == 0 && s.state.Sending? then s.state else Idle
  }

  /** Payload k is the first one answered: silence before it, then the reply, and the session has
      one more file. */
  ghost predicate EndsAt(s: Session, ps: seq<Payload>, k: nat, reply: Reply, f: File)
    requires s.Valid()
  {
    && k < |ps|
    && HandleAll(s, ps[..k + 1]).0 == Session(AfterPush(s, k), s.finished + [f])
    && OnlyLastReplies(HandleAll(s, ps[..k + 1]).1, reply)
  }

  lemma {:induction false} LastByte(ps: seq<Payload>)
    requires ps != []
    ensures |AllBytes(ps)| >= |ps[|ps| - 1].data|
  {
    if |ps| > 1 {
      LastByte(ps[1..]);
    }
  }

  lemma {:induction false} AllBytesConcat(a: seq<Payload>, b: seq<Payload>)
    ensures AllBytes(a + b) == AllBytes(a) + AllBytes(b)
  {
    if a == [] {
      assert a + b == b;
    } else {
      AllBytesConcat(a[1..], b);
      HeadTail(a, b);
      Associative(a[0].data, AllBytes(a[1..]), AllBytes(b));
    }
  }

  lemma HandleAllStep(s: Session, ps: seq<Payload>)
    requires s.Valid() && ps != []
    ensures var (s1, first) := Handle(s, ps[0].data, ps[0].fs);
            && HandleAll(s, ps) == (HandleAll(s1, ps[1..]).0, [first] + HandleAll(s1, ps[1..]).1)
            && (|ps| == 1 ==> HandleAll(s, ps) == (s1, [first]))
  {
    hide Handle;
    if |ps| == 1 {
      var (s1, first) := Handle(s, ps[0].data, ps[0].fs);
      assert HandleAll(s1, ps[1..]) == (s1, []);
      assert [first] + [] == [first];
    }
  }

  lemma {:induction false} HandleAllConcat(s: Session, a: seq<Payload>, b: seq<Payload>)
    requires s.Valid()
    ensures HandleAll(s, a + b)
            == (HandleAll(HandleAll(s, a).0, b).0, HandleAll(s, a).1 + HandleAll(HandleAll(s, a).0, b).1)
    decreases |a|
  {
    hide Handle;
    if a == [] {
      assert a + b == b;
      assert [] + HandleAll(s, b).1 == HandleAll(s, b).1;
    } else {
      var (s1, first) := Handle(s, a[0].data, a[0].fs);
      HeadTail(a, b);
      HandleAllConcat(s1, a[1..], b);
      Associative([first], HandleAll(s1, a[1..]).1, HandleAll(HandleAll(s1, a[1..]).0, b).1);
    }
  }

  /** The payloads of a transfer that ends: it ends with one of them, the first by which the
      receiver has finished. */
  lemma {:induction false} ReceivingPieces(s: Session, ps: seq<Payload>, reply: Reply, f: File) returns (k: nat)
    requires s.Valid() && s.state.Receiving?
    requires Feed(s.state.receiver, AllBytes(ps)) == Finished(reply, f)
    ensures EndsAt(s, ps, k, reply, f)
    ensures Feed(s.state.receiver, AllBytes(ps[..k + 1])).Finished?
    decreases |ps|
  {
    hide ParseSyncPacket, StepByte;
    var r, p, rest := s.state.receiver, ps[0].data, AllBytes(ps[1..]);
    FeedConcat(r, p, rest);
    if Feed(r, p).Finished? {
      k := 0;
      assert ps[..1] == [ps[0]];
      HandleAllStep(s, [ps[0]]);
      assert p + [] == p;
    } else {
      var s1 := s.(state := Receiving(Feed(r, p).r));
      var j := ReceivingPieces(s1, ps[1..], reply, f);
      k := j + 1;
      Continued(s, s1, ps, j, reply, f);
      FeedConcat(r, p, AllBytes(ps[1..][..j + 1]));
      assert ps[..k + 1][1..] == ps[1..][..j + 1];
    }
  }

  /** A payload that is met with silence only delays the end. */
  lemma Continued(s: Session, s1: Session, ps: seq<Payload>, j: nat, reply: Reply, f: File)
    requires s.Valid() && s1.Valid() && s1.state.Receiving? && ps != [] && s1.finished == s.finished
    requires Handle(s, ps[0].data, ps[0].fs) == (s1, SyncResult.Continue)
    requires EndsAt(s1, ps[1..], j, reply, f)
    ensures EndsAt(s, ps, j + 1, reply, f)
  {
    hide Handle;
    assert ps[..j + 2][1..] == ps[1..][..j + 1];
    HandleAllStep(s, ps[..j + 2]);
  }

  /** What the host is told in the end. */
  function PushReply(chunks: seq<Chunk>, disk: Disk): Reply {
    if |Concat(chunks)| > disk.limit then FailResponse(disk.writeError)
    else if !disk.chmodOk then FailResponse(disk.chmodError)
    else OkayResponse()
  }

  /** The file a push leaves: whole with mode and mtime, or as far as it got and unlinked. */
  function PushedFile(chunks: seq<Chunk>, mode: u32, mtime: u32, disk: Disk): File {
    var data := Concat(chunks);
    if |data| > disk.limit then File(data[..disk.limit], None, None, !disk.unlinkOk)
    else if !disk.chmodOk then File(data, None, None, !disk.unlinkOk)
    else File(data, Some(mode), if disk.utimesOk then Some(mtime) else None, true)
  }

  /** A path and mode that fit a SEND request. */
  predicate Sendable(path: seq<byte>, mode: u32) {
    path != [] && COMMA !in path && |SendBody(path, mode)| <= U32_MAX
  }

  /** What the host sends for a push, cut into payloads: the request whole in the first one, the
      rest cut anywhere, the last payload not empty. */
  ghost predicate IsPush(ps: seq<Payload>, path: seq<byte>, mode: u32, chunks: seq<Chunk>, mtime: u32) {
    && Sendable(path, mode)
    && ps != [] && ps[|ps| - 1].data != []
    && |ps[0].data| >= |SendRequest(path, mode)|
    && AllBytes(ps) == SendRequest(path, mode) + FileStream(chunks, mtime)
  }

  /** The same, where the file can be created on the given disk. */
  ghost predicate PushOnto(ps: seq<Payload>, path: seq<byte>, mode: u32, chunks: seq<Chunk>, mtime: u32, disk: Disk) {
    IsPush(ps, path, mode, chunks, mtime) && ps[0].fs.create == Created(disk)
  }

  /** The part of the first payload behind the request. */
  lemma FirstPayload(p: seq<byte>, rest: seq<byte>, req: seq<byte>, stream: seq<byte>) returns (leftover: seq<byte>)
    requires |p| >= |req| && p + rest == req + stream
    ensures p == req + leftover
    ensures stream == leftover + rest
  {
    leftover := p[|req|..];
    assert (p + rest)[..|req|] == req;
    assert (p + rest)[|req|..] == stream;
  }

  /** The frames packed behind the request are fed before anything else is. */
  lemma FirstAnswer(s: Session, path: seq<byte>, mode: u32, leftover: seq<byte>, fs: FsAnswers)
    requires s.Valid() && !s.state.Receiving? && Sendable(path, mode)
    ensures Handle(s, SendRequest(path, mode) + leftover, fs) == HandleSend(s, mode, leftover, fs)
  {
    ParseOfSendRequest(path, mode, leftover);
  }

  function NewReceiver(mode: u32, disk: Disk): Receiver {
    Receiver(EMPTY_FILE, disk, mode, Header)
  }

  /** How the receiver ends, and that on a roomy disk it is the last byte that ends it. */
  lemma StreamEnds(chunks: seq<Chunk>, mode: u32, mtime: u32, disk: Disk, n: nat)
    requires n <= |FileStream(chunks, mtime)|
    ensures Feed(NewReceiver(mode, disk), FileStream(chunks, mtime))
            == Finished(PushReply(chunks, disk), PushedFile(chunks, mode, mtime, disk))
    ensures |Concat(chunks)| <= disk.limit && Feed(NewReceiver(mode, disk), FileStream(chunks, mtime)[..n]).Finished?
            ==> n == |FileStream(chunks, mtime)|
  {
    var r := NewReceiver(mode, disk);
    FeedFileStream(r, chunks, mtime);
    assert [] + Concat(chunks) == Concat(chunks);
    assert |Concat(chunks)| > disk.limit ==> [] + Concat(chunks)[..disk.limit] == Concat(chunks)[..disk.limit];
    if |Concat(chunks)| <= disk.limit && n < |FileStream(chunks, mtime)| {
      FeedPrefix(r, chunks, mtime, n);
    }
  }

  lemma AfterRequest(s: Session, mode: u32, disk: Disk, leftover: seq<byte>, ps: seq<Payload>, reply: Reply, f: File)
    returns (k: nat)
    requires s.Valid() && !s.state.Receiving? && ps != []
    requires ps[0].fs.create == Created(disk)
    requires Handle(s, ps[0].data, ps[0].fs) == HandleSend(s, mode, leftover, ps[0].fs)
    requires Feed(NewReceiver(mode, disk), leftover + AllBytes(ps[1..])) == Finished(reply, f)
    ensures EndsAt(s, ps, k, reply, f)
    ensures Feed(NewReceiver(mode, disk), leftover + AllBytes(ps[1..k + 1])).Finished?
  {
    hide Handle, StepByte;
    var r0, rest := NewReceiver(mode, disk), AllBytes(ps[1..]);
    FeedConcat(r0, leftover, rest);
    if Feed(r0, leftover).Finished? {
      k := 0;
      assert ps[..1] == [ps[0]];
      HandleAllStep(s, [ps[0]]);
      assert leftover + AllBytes(ps[1..1]) == leftover;
    } else {
      var s1 := s.(state := Receiving(Feed(r0, leftover).r));
      var j := ReceivingPieces(s1, ps[1..], reply, f);
      k := j + 1;
      Continued(s, s1, ps, j, reply, f);
      FeedConcat(r0, leftover, AllBytes(ps[1..][..j + 1]));
      assert ps[1..k + 1] == ps[1..][..j + 1];
    }
  }

  /** A whole push, however it is cut: the first payload to be answered is answered with the
      push's one reply, and then the push is over and the session has gained the pushed file. If the
      disk has room that payload is the last one, whatever the cuts. */
  lemma PushEndToEnd(s: Session, ps: seq<Payload>, path: seq<byte>, mode: u32, chunks: seq<Chunk>, mtime: u32,
                     disk: Disk) returns (k: nat)
    requires s.Valid() && !s.state.Receiving?
    requires PushOnto(ps, path, mode, chunks, mtime, disk)
    ensures EndsAt(s, ps, k, PushReply(chunks, disk), PushedFile(chunks, mode, mtime, disk))
    ensures |Concat(chunks)| <= disk.limit ==> k == |ps| - 1
  {
    hide Handle, StepByte, SendRequest, HandleAll, Feed, Concat, EndsAt, PushReply, PushedFile, NewReceiver, FileStream;
    var leftover := FirstPayload(ps[0].data, AllBytes(ps[1..]), SendRequest(path, mode), FileStream(chunks, mtime));
    FirstAnswer(s, path, mode, leftover, ps[0].fs);
    StreamEnds(chunks, mode, mtime, disk, 0);
    k := AfterRequest(s, mode, disk, leftover, ps, PushReply(chunks, disk), PushedFile(chunks, mode, mtime, disk));
    EndsInside(s, ps, k, PushReply(chunks, disk), PushedFile(chunks, mode, mtime, disk));
    LastEnds(ps, k, leftover, mode, chunks, mtime, disk);
  }

  /** On a disk with room nothing but the whole stream ends the transfer, so no earlier payload does. */
  lemma LastEnds(ps: seq<Payload>, k: nat, leftover: seq<byte>, mode: u32, chunks: seq<Chunk>, mtime: u32, disk: Disk)
    requires k < |ps| && ps[|ps| - 1].data != []
    requires FileStream(chunks, mtime) == leftover + AllBytes(ps[1..])
    requires Feed(NewReceiver(mode, disk), leftover + AllBytes(ps[1..k + 1])).Finished?
    ensures |Concat(chunks)| <= disk.limit ==> k == |ps| - 1
  {
    hide StepByte, Feed, Concat, NewReceiver, FileStream, AllBytes, PushReply, PushedFile;
    var fed := leftover + AllBytes(ps[1..k + 1]);
    SplitPayloads(ps, k);
    Associative(leftover, AllBytes(ps[1..k + 1]), AllBytes(ps[k + 1..]));
    assert FileStream(chunks, mtime)[..|fed|] == fed;
    StreamEnds(chunks, mode, mtime, disk, |fed|);
    if k < |ps| - 1 {
      LastByte(ps[k + 1..]);
    }
  }

  lemma EndsInside(s: Session, ps: seq<Payload>, k: nat, reply: Reply, f: File)
    requires s.Valid() && EndsAt(s, ps, k, reply, f)
    ensures k < |ps|
  {
  }

  lemma SplitPayloads(ps: seq<Payload>, k: nat)
    requires k < |ps|
    ensures AllBytes(ps[1..]) == AllBytes(ps[1..k + 1]) + AllBytes(ps[k + 1..])
  {
    assert ps[1..] == ps[1..k + 1] + ps[k + 1..];
    AllBytesConcat(ps[1..k + 1], ps[k + 1..]);
  }

  /** A push whose frames go wrong, however it is cut: the session answers one payload, with FAIL,
      and the push is over; the file holds the chunks before the bad frame and is removed. */
  lemma BadPushFails(s: Session, ps: seq<Payload>, path: seq<byte>, mode: u32, chunks: seq<Chunk>, bad: seq<byte>,
                     rest: seq<byte>, disk: Disk) returns (k: nat)
    requires s.Valid() && !s.state.Receiving? && Sendable(path, mode)
    requires ps != [] && |ps[0].data| >= |SendRequest(path, mode)| && ps[0].fs.create == Created(disk)
    requires AllBytes(ps) == SendRequest(path, mode) + (DataFrames(chunks) + (bad + rest))
    requires |Concat(chunks)| <= disk.limit
    requires |bad| == 8 && bad[..4] != Ascii("DATA") && bad[..4] != Ascii("DONE")
    ensures var why := Ascii("invalid sync frame during send");
            EndsAt(s, ps, k, Reply(ReplyHeader(ReplyFail, |why|), why),
                   File(Concat(chunks), None, None, !disk.unlinkOk))
  {
    hide Handle, StepByte, SendRequest, HandleAll, Feed, Concat, DataFrames, EndsAt;
    var stream, r := DataFrames(chunks) + (bad + rest), NewReceiver(mode, disk);
    var why := Ascii("invalid sync frame during send");
    var leftover := FirstPayload(ps[0].data, AllBytes(ps[1..]), SendRequest(path, mode), stream);
    FirstAnswer(s, path, mode, leftover, ps[0].fs);
    BadFrameFails(r, chunks, bad, rest);
    assert [] + Concat(chunks) == Concat(chunks);
    k := AfterRequest(s, mode, disk, leftover, ps, Reply(ReplyHeader(ReplyFail, |why|), why),
                      File(Concat(chunks), None, None, !disk.unlinkOk));
  }

  // ----- Exactly when a push succeeds, and when its cuts do not matter -----

  lemma AnswerAt(s: Session, ps: seq<Payload>, k: nat, reply: Reply, f: File)
    requires s.Valid() && EndsAt(s, ps, k, reply, f)
    ensures var results := HandleAll(s, ps).1;
            && results[k] == Response(reply)
            && (forall i :: 0 <= i < k ==> results[i] == SyncResult.Continue)
  {
    hide Handle;
    assert ps == ps[..k + 1] + ps[k + 1..];
    HandleAllConcat(s, ps[..k + 1], ps[k + 1..]);
  }

  /** Silence and then one OKAY for the last payload: exactly when the disk has room for the
      chunks and takes the mode. */
  lemma PushSucceedsExactly(s: Session, ps: seq<Payload>, path: seq<byte>, mode: u32, chunks: seq<Chunk>, mtime: u32,
                            disk: Disk)
    requires s.Valid() && !s.state.Receiving?
    requires PushOnto(ps, path, mode, chunks, mtime, disk)
    ensures OnlyLastReplies(HandleAll(s, ps).1, OkayResponse()) <==> disk.chmodOk && |Concat(chunks)| <= disk.limit
    ensures disk.chmodOk && |Concat(chunks)| <= disk.limit ==>
      HandleAll(s, ps).0
      == Session(AfterPush(s, |ps| - 1), s.finished + [PushedFile(chunks, mode, mtime, disk)])
  {
    hide HandleAll, IsPush, PushedFile, Concat;
    var k := PushEndToEnd(s, ps, path, mode, chunks, mtime, disk);
    AnswerAt(s, ps, k, PushReply(chunks, disk), PushedFile(chunks, mode, mtime, disk));
    if k == |ps| - 1 {
      assert ps[..k + 1] == ps;
    }
  }

  /** The cuts never matter exactly when the disk has room. If it has not, the write fails before
      the DONE frame, and bytes sent in a later payload are taken for a request. */
  lemma CutsIrrelevantExactly(s: Session, path: seq<byte>, mode: u32, chunks: seq<Chunk>, mtime: u32, disk: Disk)
    requires s.Valid() && !s.state.Receiving? && Sendable(path, mode)
    ensures (forall ps: seq<Payload> :: PushOnto(ps, path, mode, chunks, mtime, disk)
                                        ==> OnlyLastReplies(HandleAll(s, ps).1, PushReply(chunks, disk)))
            <==> |Concat(chunks)| <= disk.limit
  {
    hide HandleAll, IsPush, PushedFile, PushReply, Concat, OnlyLastReplies;
    if |Concat(chunks)| <= disk.limit {
      forall ps: seq<Payload> | PushOnto(ps, path, mode, chunks, mtime, disk)
        ensures OnlyLastReplies(HandleAll(s, ps).1, PushReply(chunks, disk))
      {
        var k := PushEndToEnd(s, ps, path, mode, chunks, mtime, disk);
        assert ps[..k + 1] == ps;
      }
    } else {
      var ps := CutBeforeLastByte(s, path, mode, chunks, mtime, disk);
    }
  }

  /** A push onto a full disk that is answered before its last payload. */
  lemma CutBeforeLastByte(s: Session, path: seq<byte>, mode: u32, chunks: seq<Chunk>, mtime: u32, disk: Disk)
    returns (ps: seq<Payload>)
    requires s.Valid() && !s.state.Receiving? && Sendable(path, mode) && |Concat(chunks)| > disk.limit
    ensures PushOnto(ps, path, mode, chunks, mtime, disk)
    ensures !OnlyLastReplies(HandleAll(s, ps).1, PushReply(chunks, disk))
  {
    hide Handle, Feed, SendRequest, Concat, FileStream, PushReply;
    var stream, r0 := FileStream(chunks, mtime), NewReceiver(mode, disk);
    var head, last := stream[..|stream| - 1], stream[|stream| - 1..];
    var fs := FsAnswers(NotFound, OpenFailed([]), Created(disk), Bytes(0));
    ps := [Payload(SendRequest(path, mode) + head, fs), Payload(last, fs)];
    assert ps[1..] == [ps[1]] && [ps[1]][1..] == [] && last + [] == last;
    assert AllBytes(ps[1..]) == last + AllBytes([]);
    Associative(SendRequest(path, mode), head, last);
    assert head + last == stream;
    FirstAnswer(s, path, mode, head, fs);
    OverflowIsEarly(r0, chunks, mtime);
    HandleAllStep(s, ps);
    assert Handle(s, ps[0].data, fs).1.Response?;
    assert HandleAll(s, ps).1[0].Response? && |HandleAll(s, ps).1| == 2;
  }

  /** A session in the middle of a chunk of two bytes, with no room left: in one payload they earn
      one FAIL, in two payloads a second one, for an invalid request. */
  lemma FullDiskExample(s: Session, fs: FsAnswers)
    requires s.Valid() && s.state.Receiving?
    requires s.state.receiver.state == RecvState.Data(2) && s.state.receiver.Room() == 0
    ensures var failed := Response(FailResponse(s.state.receiver.disk.writeError));
            && HandleAll(s, [Payload([1, 2], fs)]).1 == [failed]
            && HandleAll(s, [Payload([1], fs), Payload([2], fs)]).1
               == [failed, Response(FailResponse(INVALID_REQUEST()))]
  {
    hide HandleAll, INVALID_REQUEST;
    var r, one, two := s.state.receiver, Payload([1], fs), Payload([2], fs);
    FeedDataOverflows(r, [1, 2]);
    FeedDataOverflows(r, [1]);
    HandleAllStep(s, [Payload([1, 2], fs)]);
    HandleAllStep(s, [one, two]);
    assert [one, two][1..] == [two];
    var s1 := Handle(s, [1], fs).0;
    HandleAllStep(s1, [two]);
    assert ParseSyncPacket([2]).None?;
  }
}
