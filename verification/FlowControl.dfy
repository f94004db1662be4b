/** Flow control of shell and forward streams: one read or one unanswered WRTE, never both. */
module FlowControl {
  import opened Basics
  import opened Protocol
  import opened StreamMachine

  /** What is outstanding for one stream, as an observer outside the daemon counts it: reads
      submitted and not completed, and WRTEs sent and not answered by an OKAY. */
  datatype Outstanding = Outstanding(inFlight: nat, unacked: nat)

  function Minus1(n: nat): nat { if n == 0 then 0 else n - 1 }

  function CountReads(outs: seq<LocalOut>): nat {
    if outs == [] then 0 else (if outs[0].ReadPty? || outs[0].ReadSocket? then 1 else 0) + CountReads(outs[1..])
  }

  function CountWrites(outs: seq<LocalOut>): nat {
    if outs == [] then 0 else (if outs[0].Write? then 1 else 0) + CountWrites(outs[1..])
  }

  lemma CountsHead(o: LocalOut, rest: seq<LocalOut>)
    ensures CountReads([o] + rest) == (if o.ReadPty? || o.ReadSocket? then 1 else 0) + CountReads(rest)
    ensures CountWrites([o] + rest) == (if o.Write? then 1 else 0) + CountWrites(rest)
  {
    assert ([o] + rest)[1..] == rest;
  }

  function Track(k: Outstanding, e: LocalEvent, outs: seq<LocalOut>): Outstanding {
    Outstanding(
      (if e.PtyDone? || e.SocketDone? then Minus1(k.inFlight) else k.inFlight) + CountReads(outs),
      (if e.HostOkay? then Minus1(k.unacked) else k.unacked) + CountWrites(outs))
  }

  /** The ring completes only reads that are outstanding, and of the kind the service submits;
      the host acknowledges only WRTEs it has not acknowledged yet. */
  predicate Honest(k: Outstanding, e: LocalEvent, pty: bool) {
    match e
    case PtyDone(_) => pty && k.inFlight > 0
    case SocketDone(_) => !pty && k.inFlight > 0
    case HostOkay(_) => k.unacked > 0
    case _ => true
  }

  predicate Relays(s: Stream, pty: bool) {
    if pty then s.service.Shell? else s.service.Forward?
  }

  /** Exactly one thing is outstanding while the stream is open, and the flag says which. */
  predicate Flow(st: Slot, k: Outstanding, pty: bool) {
    && k.inFlight <= 1
    && (st.Some? ==>
          && Relays(st.value, pty)
          && k.inFlight + k.unacked == 1
          && (st.value.waitingForOkay <==> k.unacked == 1))
  }

  lemma StepKeepsFlow(st: Slot, k: Outstanding, e: LocalEvent, pty: bool)
    requires ValidSlot(st) && LocalLegal(st, e)
    requires Flow(st, k, pty) && Honest(k, e, pty)
    ensures Flow(Step(st, e).0, Track(k, e, Step(st, e).1), pty)
  {
    var outs := Step(st, e).1;
    if outs != [] {
      CountsHead(outs[0], outs[1..]);
      assert outs == [outs[0]] + outs[1..];
    }
  }

  /** For an open stream the condition on OKAYs is exact: an OKAY that answers nothing starts a
      second read into the single read buffer. */
  lemma SpuriousOkay(s: Stream, k: Outstanding, env: Env, pty: bool)
    requires Flow(Some(s), k, pty)
    ensures Flow(Step(Some(s), HostOkay(env)).0, Track(k, HostOkay(env), Step(Some(s), HostOkay(env)).1), pty)
            <==> k.unacked > 0
  {
  }

  predicate HonestRun(st: Slot, k: Outstanding, es: seq<LocalEvent>, pty: bool)
    requires ValidSlot(st) && LegalRun(st, es)
    decreases |es|
  {
    es == [] ||
    (&& Honest(k, es[0], pty)
     && (StepKeepsValid(st, es[0]);
         HonestRun(Step(st, es[0]).0, Track(k, es[0], Step(st, es[0]).1), es[1..], pty)))
  }

  function TrackRun(st: Slot, k: Outstanding, es: seq<LocalEvent>): Outstanding
    requires ValidSlot(st) && LegalRun(st, es)
    decreases |es|
  {
    if es == [] then k
    else
      StepKeepsValid(st, es[0]);
      TrackRun(Step(st, es[0]).0, Track(k, es[0], Step(st, es[0]).1), es[1..])
  }

  /** In every reachable state of an honest run, reads in flight and unanswered WRTEs add up to
      one, and `waiting_for_okay` says which of the two it is. */
  lemma {:induction false} FlowControlled(st: Slot, k: Outstanding, es: seq<LocalEvent>, pty: bool)
    requires ValidSlot(st) && LegalRun(st, es)
    requires Flow(st, k, pty) && HonestRun(st, k, es, pty)
    ensures Flow(LocalRun(st, es).0, TrackRun(st, k, es), pty)
    decreases |es|
  {
    hide Step, LocalLegal, Flow, Track, Honest;
    if es != [] {
      StepKeepsValid(st, es[0]);
      StepKeepsFlow(st, k, es[0], pty);
      FlowControlled(Step(st, es[0]).0, Track(k, es[0], Step(st, es[0]).1), es[1..], pty);
    }
  }

  /** A stream starts with the one read its OPEN submits. */
  lemma FlowAtOpening(remote: u32, service: Service, pty: bool)
    requires Relays(NewStream(remote, service), pty)
    ensures Flow(Some(NewStream(remote, service)), Outstanding(1, 0), pty)
  {
  }
}
