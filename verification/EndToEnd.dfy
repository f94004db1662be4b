/** The per-stream results, lifted to any run of a whole connection by stream isolation. */
module EndToEnd {
  import opened Basics
  import opened SyncCodec
  import opened Receiver
  import opened Frames
  import opened Sender
  import opened SyncService
  import opened Protocol
  import opened StreamMachine
  import opened Isolation
  import opened Lifecycle
  import opened Push
  import FlowControl
  import Pull
  import Relay

  // ----- A push as stream events -----

  predicate AllWrtes(es: seq<LocalEvent>) {
    forall e <- es :: e.HostWrte?
  }

  /** The payloads the WRTEs carry. */
  function Payloads(es: seq<LocalEvent>): (ps: seq<Payload>)
    requires AllWrtes(es)
    ensures |ps| == |es|
  {
    if es == [] then [] else [Payload(es[0].payload, es[0].env.fs)] + Payloads(es[1..])
  }

  /** One acknowledgement for each WRTE. */
  function AckEach(es: seq<LocalEvent>): seq<LocalOut>
    requires AllWrtes(es)
  {
    if es == [] then [] else [Ack(es[0].remote)] + AckEach(es[1..])
  }

  /** If the payload is met with silence it leaves the session receiving. */
  predicate PartOfPush(session: Session, p: Payload)
    requires session.Valid()
  {
    var (session', result) := Handle(session, p.data, p.fs);
    result.Continue? ==> session'.state.Receiving?
  }

  lemma ReceivingIsPush(session: Session, p: Payload)
    requires session.Valid() && session.state.Receiving?
    ensures PartOfPush(session, p)
  {
    hide Feed;
  }

  lemma WrteStep(s: Stream, session: Session, e: LocalEvent)
    requires s.Valid() && s.service == Sync(session) && e.HostWrte?
    requires PartOfPush(session, Payload(e.payload, e.env.fs))
    ensures var (session', result) := Handle(session, e.payload, e.env.fs);
            var s' := s.(service := Sync(session'));
            && LocalLegal(Some(s), e)
            && (result.Continue? ==> Step(Some(s), e) == (Some(s'), [Ack(e.remote)]))
            && (result.Response? ==>
                  Step(Some(s), e) == (Some(s'), [Ack(e.remote), Write(s.remoteId, ReplyBytes(result.reply))]))
  {
    hide Handle, ReplyBytes, StatBytes;
    var (session', result) := Handle(session, e.payload, e.env.fs);
    assert [Ack(e.remote)] + [] == [Ack(e.remote)];
    if result.Response? {
      var w := Write(s.remoteId, ReplyBytes(result.reply));
      assert [Ack(e.remote)] + [w] == [Ack(e.remote), w];
    }
  }

  /** A session that answers only the last payload makes its stream acknowledge every WRTE and
      write once. */
  lemma {:induction false} PushWrtes(s: Stream, session: Session, es: seq<LocalEvent>, reply: Reply)
    requires s.Valid() && s.service == Sync(session)
    requires es != [] && AllWrtes(es) && PartOfPush(session, Payloads(es)[0])
    requires OnlyLastReplies(HandleAll(session, Payloads(es)).1, reply)
    ensures LegalRun(Some(s), es)
    ensures LocalRun(Some(s), es)
            == (Some(s.(service := Sync(HandleAll(session, Payloads(es)).0))),
                AckEach(es) + [Write(s.remoteId, ReplyBytes(reply))])
    decreases |es|
  {
    hide Step, LocalLegal, Handle, ReplyBytes, Feed;
    var e, ps := es[0], Payloads(es);
    assert ps[1..] == Payloads(es[1..]);
    WrteStep(s, session, e);
    HandleAllStep(session, ps);
    var (session', result) := Handle(session, e.payload, e.env.fs);
    var s' := s.(service := Sync(session'));
    var last := [Write(s.remoteId, ReplyBytes(reply))];
    if |es| == 1 {
      assert HandleAll(session, ps) == (session', [result]) && result == Response(reply);
      assert Step(Some(s), e) == (Some(s'), [Ack(e.remote), last[0]]);
      assert AckEach(es) == [Ack(e.remote)];
      assert LocalRun(Some(s'), es[1..]) == (Some(s'), []);
      assert AckEach(es) + last == [Ack(e.remote), last[0]] + [];
    } else {
      var results := HandleAll(session, ps).1;
      assert results[0] == result && result == SyncResult.Continue;
      assert forall i :: 0 <= i < |results| - 1 ==> results[1..][i] == results[i + 1];
      ReceivingIsPush(session', ps[1]);
      PushWrtes(s', session', es[1..], reply);
      Associative([Ack(e.remote)], AckEach(es[1..]), last);
    }
  }

  lemma {:induction false} PayloadsPrefix(es: seq<LocalEvent>, n: nat)
    requires AllWrtes(es) && n <= |es|
    ensures AllWrtes(es[..n]) && Payloads(es[..n]) == Payloads(es)[..n]
  {
    if n > 0 {
      PayloadsPrefix(es[1..], n - 1);
      assert es[..n][1..] == es[1..][..n - 1];
    }
  }

  lemma SendIsPush(session: Session, ps: seq<Payload>, path: seq<byte>, mode: u32, chunks: seq<Chunk>, mtime: u32)
    requires session.Valid() && !session.state.Receiving?
    requires IsPush(ps, path, mode, chunks, mtime)
    ensures PartOfPush(session, ps[0])
  {
    hide Handle, SendRequest, Feed, Concat, FileStream;
    var req, stream := SendRequest(path, mode), FileStream(chunks, mtime);
    assert AllBytes(ps) == ps[0].data + AllBytes(ps[1..]);
    var leftover := FirstPayload(ps[0].data, AllBytes(ps[1..]), req, stream);
    FirstAnswer(session, path, mode, leftover, ps[0].fs);
  }

  /** The stream once WRTE j has ended a push: its session has gained a file. */
  function WithFile(s: Stream, j: nat, f: File): Stream
    requires s.service.Sync?
  {
    s.(service := Sync(Session(AfterPush(s.service.session, j), s.service.session.finished + [f])))
  }

  /** A push on an open stream: every WRTE up to the one that ends it is acknowledged, that one is
      also answered by the frame with the push's reply, and the session has gained exactly the
      pushed file. On a disk with room it is the last WRTE. */
  lemma StreamPush(s: Stream, es: seq<LocalEvent>,
                   path: seq<byte>, mode: u32, chunks: seq<Chunk>, mtime: u32, disk: Disk) returns (j: nat)
    requires s.Valid() && s.service.Sync? && !s.service.session.state.Receiving? && AllWrtes(es)
    requires PushOnto(Payloads(es), path, mode, chunks, mtime, disk)
    ensures j < |es| && (|Concat(chunks)| <= disk.limit ==> j == |es| - 1)
    ensures LegalRun(Some(s), es[..j + 1])
    ensures LocalRun(Some(s), es[..j + 1])
            == (Some(WithFile(s, j, PushedFile(chunks, mode, mtime, disk))),
                AckEach(es[..j + 1]) + [Write(s.remoteId, ReplyBytes(PushReply(chunks, disk)))])
  {
    hide IsPush, PartOfPush, HandleAll, LocalRun, LegalRun, OnlyLastReplies, ReplyBytes, PushReply, PushedFile;
    var session, ps := s.service.session, Payloads(es);
    j := PushEndToEnd(session, ps, path, mode, chunks, mtime, disk);
    SendIsPush(session, ps, path, mode, chunks, mtime);
    PayloadsPrefix(es, j + 1);
    PushWrtes(s, session, es[..j + 1], PushReply(chunks, disk));
  }

  // ----- On a whole connection -----

  /** A push over the connection, whatever it is interleaved with and whatever its stream was used
      for before and is used for afterwards: if the stream's own events from its OPEN on are some
      that leave its session not receiving, then the WRTEs of a push, then others, its messages are
      those of the first part, one OKAY for each WRTE until the push ends, one WRTE with the reply,
      and those of the rest, which runs from a session that has gained exactly the pushed file. */
  lemma ConnectionPush(identity: Text, es: seq<Event>, k: nat, id: LocalId,
                       pre: seq<LocalEvent>, push: seq<LocalEvent>, post: seq<LocalEvent>, s: Stream,
                       path: seq<byte>, mode: u32, chunks: seq<Chunk>, mtime: u32, disk: Disk)
      returns (before: seq<LocalOut>, j: nat)
    requires Legal(Fresh(identity), es)
    requires k < |es| && Opens(es[k]) && id == 1 + CountOpens(es[..k])
    requires OwnAll(es[k + 1..], id) == pre + (push + post)
    requires LegalRun(Some(OpenedAs(es[k])), pre) && LocalRun(Some(OpenedAs(es[k])), pre).0 == Some(s)
    requires s.service.Sync? && !s.service.session.state.Receiving? && AllWrtes(push)
    requires PushOnto(Payloads(push), path, mode, chunks, mtime, disk)
    ensures OnlyAcks(before) && j < |push| && (|Concat(chunks)| <= disk.limit ==> j == |push| - 1)
    ensures var st0, rest := Some(OpenedAs(es[k])), push[j + 1..] + post;
            var st1 := Some(WithFile(s, j, PushedFile(chunks, mode, mtime, disk)));
            && LegalRun(st1, rest)
            && Run(Fresh(identity), es).0.Get(id) == LocalRun(st1, rest).0
            && Local(Run(Fresh(identity), es).1, id)
               == before + Opening(st0.value) + LocalRun(st0, pre).1
                  + (AckEach(push[..j + 1]) + [Write(s.remoteId, ReplyBytes(PushReply(chunks, disk)))])
                  + LocalRun(st1, rest).1
  {
    hide Requested, Run, Legal, LocalRun, LegalRun, PushOnto, ReplyBytes, PushReply, PushedFile, Concat, Opening, Local;
    var st0 := Some(OpenedAs(es[k]));
    before := OpenedStream(identity, es, k, id);
    j := StreamPush(s, push, path, mode, chunks, mtime, disk);
    var head, rest := push[..j + 1], push[j + 1..] + post;
    Relay.LocalRunConcat(st0, pre, push + post);
    assert push + post == head + rest;
    Relay.LocalRunConcat(Some(s), head, rest);
    Associative(before + Opening(st0.value), LocalRun(st0, pre).1, LocalRun(Some(s), push + post).1);
    Associative(before + Opening(st0.value) + LocalRun(st0, pre).1, LocalRun(Some(s), head).1,
                LocalRun(LocalRun(Some(s), head).0, rest).1);
  }

  /** Shell and forward streams of a whole connection, in any interleaving: as long as the ring and
      the host are honest towards this one stream, reads in flight and unanswered WRTEs add up to
      one while it is open, and the flag tells which it is. */
  lemma ConnectionFlow(identity: Text, es: seq<Event>, k: nat, id: LocalId, pty: bool)
    requires Legal(Fresh(identity), es)
    requires k < |es| && Opens(es[k]) && id == 1 + CountOpens(es[..k])
    requires var s := OpenedAs(es[k]);
             && FlowControl.Relays(s, pty)
             && LegalRun(Some(s), OwnAll(es[k + 1..], id))
             && FlowControl.HonestRun(Some(s), FlowControl.Outstanding(1, 0), OwnAll(es[k + 1..], id), pty)
    ensures var s := OpenedAs(es[k]);
            FlowControl.Flow(Run(Fresh(identity), es).0.Get(id),
                             FlowControl.TrackRun(Some(s), FlowControl.Outstanding(1, 0), OwnAll(es[k + 1..], id)), pty)
  {
    hide Requested, Run, Legal, LocalRun, LegalRun, FlowControl.HonestRun, FlowControl.TrackRun;
    var own := OwnAll(es[k + 1..], id);
    var s := OpenedAs(es[k]);
    var _ := OpenedStream(identity, es, k, id);
    FlowControl.FlowAtOpening(s.remoteId, s.service, pty);
    FlowControl.FlowControlled(Some(s), FlowControl.Outstanding(1, 0), own, pty);
  }

  /** A pull over the connection, in any interleaving: with a host that is disciplined on this one
      stream, at most one of its WRTEs is unanswered, `waiting_for_okay` is set exactly while it
      sends a file, and the DATA bytes sent are a prefix of that file. */
  lemma ConnectionPull(identity: Text, es: seq<Event>, k: nat, id: LocalId)
    requires Legal(Fresh(identity), es)
    requires k < |es| && Opens(es[k]) && id == 1 + CountOpens(es[..k])
    requires OpenedAs(es[k]).service.Sync?
    requires var st, own := Some(OpenedAs(es[k])), OwnAll(es[k + 1..], id);
             LegalRun(st, own) && Pull.DisciplinedRun(st, Pull.NOTHING, own)
    ensures var st, own := Some(OpenedAs(es[k])), OwnAll(es[k + 1..], id);
            Pull.PullInv(Run(Fresh(identity), es).0.Get(id), Pull.TrackRun(st, Pull.NOTHING, own))
  {
    hide Requested, Run, Legal, LocalRun, LegalRun, Pull.DisciplinedRun, Pull.TrackRun;
    var st, own := Some(OpenedAs(es[k])), OwnAll(es[k + 1..], id);
    var _ := OpenedStream(identity, es, k, id);
    Pull.PullRuns(st, Pull.NOTHING, own);
  }

  lemma {:induction false} ObservedBytes(g: Pull.Progress, outs: seq<LocalOut>)
    ensures Pull.ObserveAll(g, outs).wire == g.wire + Relay.WrittenBytes(outs)
    decreases |outs|
  {
    hide Pull.IsFrame;
    if outs == [] {
      assert g.wire + [] == g.wire;
    } else {
      var x := if outs[0].Write? then outs[0].data else [];
      ObservedBytes(Pull.Observe(g, outs[0]), outs[1..]);
      assert g.wire + [] == g.wire;
      Associative(g.wire, x, Relay.WrittenBytes(outs[1..]));
    }
  }

  /** What the observer of a pull has noted is the tail of what the stream has sent. */
  lemma {:induction false} WireIsTail(st: Slot, g: Pull.Progress, es: seq<LocalEvent>) returns (earlier: seq<byte>)
    requires ValidSlot(st) && LegalRun(st, es)
    ensures g.wire + Relay.WrittenBytes(LocalRun(st, es).1) == earlier + Pull.TrackRun(st, g, es).wire
    decreases |es|
  {
    hide Step, LocalLegal, Pull.StartsPull, Relay.WrittenBytes, Pull.ObserveAll;
    if es == [] {
      earlier := [];
      Relay.NothingWritten([]);
      assert g.wire + [] == [] + g.wire;
    } else {
      StepKeepsValid(st, es[0]);
      var (st1, outs) := Step(st, es[0]);
      var rest := LocalRun(st1, es[1..]).1;
      var g1 := Pull.Track(g, st, es[0], outs);
      var dropped := TrackedBytes(st, g, es[0], outs);
      var tail := WireIsTail(st1, g1, es[1..]);
      earlier := dropped + tail;
      Relay.WrittenConcat(outs, rest);
      Associative(g.wire, Relay.WrittenBytes(outs), Relay.WrittenBytes(rest));
      Associative(dropped, g1.wire, Relay.WrittenBytes(rest));
      Associative(dropped, tail, Pull.TrackRun(st, g, es).wire);
    }
  }

  lemma TrackedBytes(st: Slot, g: Pull.Progress, e: LocalEvent, outs: seq<LocalOut>) returns (dropped: seq<byte>)
    ensures g.wire + Relay.WrittenBytes(outs) == dropped + Pull.Track(g, st, e, outs).wire
  {
    hide Pull.StartsPull, Relay.WrittenBytes, Pull.ObserveAll;
    ObservedBytes(g, outs);
    ObservedBytes(g.(unacked := if g.unacked > 0 then g.unacked - 1 else 0), outs);
    if e.HostWrte? && st.Some? && st.value.service.Sync? {
      ObservedBytes(Pull.Noted(g, st.value.service.session, e.payload, e.env.fs), outs);
    }
    assert [] + Relay.WrittenBytes(outs) == Relay.WrittenBytes(outs);
    dropped := if Pull.Track(g, st, e, outs).wire == g.wire + Relay.WrittenBytes(outs) then [] else g.wire;
    assert [] + (g.wire + Relay.WrittenBytes(outs)) == g.wire + Relay.WrittenBytes(outs);
  }

  /** The end of a pull over the connection, in any interleaving: when the next OKAY ends an
      error-free transfer of the stream, the last bytes it has sent are exactly the file's DATA*
      DONE stream, and a receiver fed them in any pieces writes the same file. */
  lemma ConnectionPullEnd(identity: Text, es: seq<Event>, k: nat, id: LocalId, env: Env,
                          pieces: seq<seq<byte>>, r: Receiver) returns (earlier: seq<byte>)
    requires Legal(Fresh(identity), es)
    requires k < |es| && Opens(es[k]) && id == 1 + CountOpens(es[..k])
    requires OpenedAs(es[k]).service.Sync?
    requires var st0, own := Some(OpenedAs(es[k])), OwnAll(es[k + 1..], id);
             && LegalRun(st0, own) && Pull.DisciplinedRun(st0, Pull.NOTHING, own)
             && var st, g := Run(Fresh(identity), es).0.Get(id), Pull.TrackRun(st0, Pull.NOTHING, own);
                && Pull.IsSending(st) && !Pull.IsSending(OnOkay(st.value, env).0) && !g.failed
                && Concat(pieces) == g.wire && |g.file| <= r.Room()
    requires Ready(r) && r.disk.chmodOk
    ensures var st0, own := Some(OpenedAs(es[k])), OwnAll(es[k + 1..], id);
            var g, o := Pull.TrackRun(st0, Pull.NOTHING, own), FeedAll(More(r), pieces);
            && Relay.WrittenBytes(Local(Run(Fresh(identity), es).1, id)) == earlier + FileStream(g.chunks, 0)
            && Concat(g.chunks) == g.file
            && o.Finished? && o.reply == OkayResponse()
            && o.file.contents == r.file.contents + g.file
  {
    hide Requested, Run, Legal, LocalRun, LegalRun, Pull.DisciplinedRun, Pull.TrackRun, OnOkay;
    hide FileStream, Concat, Feed, FeedAll, Local, Opening, OnlyAcks, Relay.WrittenBytes;
    var st0, own := Some(OpenedAs(es[k])), OwnAll(es[k + 1..], id);
    var before := OpenedStream(identity, es, k, id);
    Pull.PullEndToEnd(es[k].header.arg0, own, env, pieces, r);
    earlier := WireIsTail(st0, Pull.NOTHING, own);
    WritesOnlyAfterOpening(before, st0.value);
    Relay.WrittenConcat(before, Opening(st0.value));
    Relay.WrittenConcat(before + Opening(st0.value), LocalRun(st0, own).1);
    assert [] + Relay.WrittenBytes(LocalRun(st0, own).1) == Relay.WrittenBytes(LocalRun(st0, own).1);
  }

  lemma WritesOnlyAfterOpening(before: seq<LocalOut>, s: Stream)
    requires OnlyAcks(before)
    ensures Relay.WrittenBytes(before) == [] && Relay.WrittenBytes(Opening(s)) == []
  {
    Relay.NothingWritten(before);
    Relay.NothingWritten(Opening(s));
  }

  /** A shell or forward stream of a whole connection, in any interleaving: its WRTEs carry exactly
      the bytes of the reads completed before it was closed, all of them while it is open; and then
      its back end has been given exactly the bytes of the host's WRTEs. */
  lemma ConnectionRelay(identity: Text, es: seq<Event>, k: nat, id: LocalId, pty: bool) returns (n: nat)
    requires Legal(Fresh(identity), es)
    requires k < |es| && Opens(es[k]) && id == 1 + CountOpens(es[..k])
    requires FlowControl.Relays(OpenedAs(es[k]), pty)
    ensures var own, st0 := OwnAll(es[k + 1..], id), Some(OpenedAs(es[k]));
            && n <= |own| && (n == |own| <==> id in Run(Fresh(identity), es).0.streams)
            && (n < |own| ==> LegalRun(st0, own[..n + 1]) && LocalRun(st0, own[..n + 1]).0.None?)
            && Relay.WrittenBytes(Local(Run(Fresh(identity), es).1, id)) == Relay.ReadBytes(own[..n], pty)
            && (id in Run(Fresh(identity), es).0.streams ==>
                  Relay.BackEndBytes(Run(Fresh(identity), es).0.streams[id].service) == Relay.HostBytes(own))
  {
    hide Requested, Run, Legal, LocalRun, LegalRun, Local, Opening, OnlyAcks;
    hide Relay.WrittenBytes, Relay.ReadBytes, Relay.HostBytes;
    var own := OwnAll(es[k + 1..], id);
    var s := OpenedAs(es[k]);
    var before := OpenedStream(identity, es, k, id);
    var after := LocalRun(Some(s), own).1;
    n := Relay.RelayUntilClosed(s, own, pty);
    if n == |own| {
      Relay.RelayWhileOpen(s, own, pty);
      assert [] + Relay.HostBytes(own) == Relay.HostBytes(own);
    }
    WritesOnlyAfterOpening(before, s);
    Relay.WrittenConcat(before, Opening(s));
    Relay.WrittenConcat(before + Opening(s), after);
    assert [] + Relay.ReadBytes(own[..n], pty) == Relay.ReadBytes(own[..n], pty);
  }
}
