/** The life of a stream over whole runs: opened once, closed at most once, its id never reused. */
module Lifecycle {
  import opened Basics
  import opened SyncCodec
  import opened Sender
  import opened SyncService
  import opened Protocol
  import opened StreamMachine
  import opened Isolation

  // ----- Runs compose -----

  lemma {:induction false} RunConcat(c: Conn, a: seq<Event>, b: seq<Event>)
    requires c.Valid() && Legal(c, a + b)
    ensures Legal(c, a) && Legal(Run(c, a).0, b)
    ensures Run(c, a + b) == (Run(Run(c, a).0, b).0, Run(c, a).1 + Run(Run(c, a).0, b).1)
    decreases |a|
  {
    hide React, Panics;
    if a == [] {
      assert a + b == b;
      assert [] + Run(c, b).1 == Run(c, b).1;
    } else {
      HeadTail(a, b);
      ReactKeepsValid(c, a[0]);
      var (c1, outs) := React(c, a[0]);
      RunConcat(c1, a[1..], b);
      var x, y := Run(c1, a[1..]).1, Run(Run(c1, a[1..]).0, b).1;
      Associative(outs, x, y);
    }
  }

  // ----- Ids -----

  /** The event opens a stream. */
  predicate Opens(e: Event) {
    e.Command? && e.header.command.Open? && e.payload.Some? && Requested(e.payload.value, e.env).Some?
  }

  /** Only a successful OPEN takes an id, and it takes the next one. */
  lemma NextIdStep(c: Conn, e: Event)
    requires c.Valid() && !Panics(c, e)
    ensures React(c, e).0.nextId == if Opens(e) then c.nextId + 1 else c.nextId
    ensures Opens(e) ==>
      React(c, e) == HandleOpen(c, e.header, e.payload.value, e.env)
  {
    hide Requested, Handle, NextFrame, StatBytes, ReplyBytes;
  }

  /** The stream as a successful OPEN makes it. */
  function OpenedAs(e: Event): Stream
    requires Opens(e)
  {
    NewStream(e.header.arg0, Requested(e.payload.value, e.env).value)
  }

  function CountOpens(es: seq<Event>): nat {
    if es == [] then 0 else (if Opens(es[0]) then 1 else 0) + CountOpens(es[1..])
  }

  /** Over any run ids go up by exactly one for each stream opened. */
  lemma {:induction false} NextIdCounts(c: Conn, es: seq<Event>)
    requires c.Valid() && Legal(c, es)
    ensures Run(c, es).0.nextId == c.nextId + CountOpens(es)
    decreases |es|
  {
    hide React, Panics, Opens;
    if es != [] {
      NextIdStep(c, es[0]);
      ReactKeepsValid(c, es[0]);
      NextIdCounts(React(c, es[0]).0, es[1..]);
    }
  }

  lemma {:induction false} RemovedStaysRemoved(es: seq<LocalEvent>)
    requires LegalRun(None, es)
    ensures LocalRun(None, es).0 == None
    ensures forall o <- LocalRun(None, es).1 :: o.Ack?
    decreases |es|
  {
    if es != [] {
      RemovedStaysRemoved(es[1..]);
    }
  }

  /** Ids are never reused: once removed, a stream stays removed however many streams are opened
      later, and a late read completion for it changes nothing and submits nothing. */
  lemma NeverReused(c: Conn, es: seq<Event>, id: LocalId, res: ReadResult)
    requires c.Valid() && Legal(c, es) && id < c.nextId && id !in c.streams
    ensures id !in Run(c, es).0.streams
    ensures React(Run(c, es).0, PtyRead(id, res)) == (Run(c, es).0, [])
    ensures React(Run(c, es).0, SocketRead(id, res)) == (Run(c, es).0, [])
  {
    hide Step, LocalLegal, LocalRun, LegalRun, Run, Legal;
    StreamIsolation(c, es, id);
    RemovedStaysRemoved(OwnAll(es, id));
    assert Run(c, es).0.Get(id) == None;
  }

  // ----- Before the OPEN -----

  predicate OnlyAcks(outs: seq<LocalOut>) {
    forall o <- outs :: o.Ack?
  }

  lemma StepBeforeOpen(c: Conn, e: Event, id: LocalId)
    requires c.Valid() && !Panics(c, e) && React(c, e).0.nextId <= id
    ensures OnlyAcks(Local(React(c, e).1, id))
  {
    hide React, Panics, Own, OnOkay, OnWrte;
    NextIdStep(c, e);
    OneStep(c, e, id);
  }

  /** Before an id is handed out, all that can carry it are acknowledgements of stray WRTEs. */
  lemma {:induction false} RunBeforeOpen(c: Conn, es: seq<Event>, id: LocalId)
    requires c.Valid() && Legal(c, es) && Run(c, es).0.nextId <= id
    ensures OnlyAcks(Local(Run(c, es).1, id))
    decreases |es|
  {
    hide React, Panics, LocalOf;
    if es != [] {
      ReactKeepsValid(c, es[0]);
      var (c1, outs) := React(c, es[0]);
      NextIdCounts(c1, es[1..]);
      StepBeforeOpen(c, es[0], id);
      RunBeforeOpen(c1, es[1..], id);
      LocalConcat(outs, Run(c1, es[1..]).1, id);
    }
  }

  // ----- The OPEN -----

  /** What the OPEN itself submits for its stream: the OKAY, then the first read of a back end
      that has something to say. */
  function Opening(s: Stream): seq<LocalOut> {
    [Ack(s.remoteId)] + if s.service.Shell? then [ReadPty] else if s.service.Forward? then [ReadSocket] else []
  }

  lemma OpenStep(c: Conn, e: Event)
    requires c.Valid() && !Panics(c, e) && Opens(e)
    ensures var id := c.nextId;
            && React(c, e).0.Get(id) == Some(OpenedAs(e))
            && React(c, e).0.nextId == id + 1
            && Local(React(c, e).1, id) == Opening(OpenedAs(e))
  {
    hide Requested;
    NextIdStep(c, e);
    var id: LocalId := c.nextId;
    var o := OkayMsg(c, id, e.header.arg0);
    Local1(o, id);
    Local1(StartPtyRead(id), id);
    Local1(StartSocketRead(id), id);
    Local2(o, StartPtyRead(id), id);
    Local2(o, StartSocketRead(id), id);
    assert [o] + [] == [o];
  }

  /** Every id in use was opened by exactly one event of the run: the one that moved `nextId` past it. */
  lemma {:induction false} FindOpening(c: Conn, es: seq<Event>, id: LocalId) returns (k: nat)
    requires c.Valid() && Legal(c, es) && c.nextId <= id < Run(c, es).0.nextId
    ensures k < |es| && Opens(es[k])
    ensures Legal(c, es[..k]) && Run(c, es[..k]).0.nextId == id
    decreases |es|
  {
    hide React, Panics, Opens;
    ReactKeepsValid(c, es[0]);
    NextIdStep(c, es[0]);
    if c.nextId == id && Opens(es[0]) {
      k := 0;
      assert es[..0] == [];
    } else {
      var j := FindOpening(React(c, es[0]).0, es[1..], id);
      k := j + 1;
      assert es[..k][0] == es[0] && es[..k][1..] == es[1..][..j];
    }
  }

  /** A stream that is open never sent a CLSE; a removed one sent exactly one, and afterwards
      nothing but acknowledgements. */
  ghost predicate ClosedOnce(outs: seq<LocalOut>, open: bool) {
    if open then forall o <- outs :: !o.Close? else exists i :: ClosesAt(outs, i)
  }

  predicate ClosesAt(outs: seq<LocalOut>, i: int) {
    && 0 <= i < |outs| && outs[i].Close?
    && (forall j :: 0 <= j < i ==> !outs[j].Close?)
    && (forall j :: i < j < |outs| ==> outs[j].Ack?)
  }

  lemma ClosedOnceAppend(a: seq<LocalOut>, b: seq<LocalOut>, open: bool)
    requires forall o <- a :: !o.Close?
    requires ClosedOnce(b, open)
    ensures ClosedOnce(a + b, open)
  {
    if !open {
      var i :| ClosesAt(b, i);
      assert forall j :: |a| <= j < |a + b| ==> (a + b)[j] == b[j - |a|];
      assert ClosesAt(a + b, |a| + i);
    }
  }

  lemma StepCloses(s: Stream, e: LocalEvent)
    requires s.Valid() && LocalLegal(Some(s), e)
    ensures var (st, outs) := Step(Some(s), e);
            && (st.Some? ==> forall o <- outs :: !o.Close?)
            && (st.None? ==> |outs| > 0 && outs[|outs| - 1].Close? && forall o <- outs[..|outs| - 1] :: !o.Close?)
  {
    hide Handle, NextFrame, StatBytes, ReplyBytes;
  }

  lemma {:induction false} LocalLifecycle(st: Slot, es: seq<LocalEvent>)
    requires ValidSlot(st) && LegalRun(st, es) && st.Some?
    ensures ClosedOnce(LocalRun(st, es).1, LocalRun(st, es).0.Some?)
    decreases |es|
  {
    hide Step, LocalLegal, ClosesAt;
    if es != [] {
      StepKeepsValid(st, es[0]);
      StepCloses(st.value, es[0]);
      var (st1, outs) := Step(st, es[0]);
      var rest := LocalRun(st1, es[1..]).1;
      if st1.Some? {
        LocalLifecycle(st1, es[1..]);
        ClosedOnceAppend(outs, rest, LocalRun(st1, es[1..]).0.Some?);
      } else {
        RemovedStaysRemoved(es[1..]);
        EndsWithClose(outs, rest);
      }
    }
  }

  lemma EndsWithClose(outs: seq<LocalOut>, rest: seq<LocalOut>)
    requires |outs| > 0 && outs[|outs| - 1].Close? && forall o <- outs[..|outs| - 1] :: !o.Close?
    requires forall o <- rest :: o.Ack?
    ensures ClosedOnce(outs + rest, false)
  {
    var i := |outs| - 1;
    var all := outs + rest;
    assert forall j :: 0 <= j < i ==> all[j] == outs[..i][j];
    assert forall j :: i < j < |all| ==> all[j] == rest[j - |outs|];
    assert ClosesAt(all, i);
  }

  /** A stream from the moment it is opened: its messages over a whole run are acknowledgements of
      stray WRTEs, then the OKAY of its OPEN and the first read, then what its own events from
      there on lead to, and nothing else. */
  lemma OpenedStream(identity: Text, es: seq<Event>, k: nat, id: LocalId) returns (before: seq<LocalOut>)
    requires Legal(Fresh(identity), es)
    requires k < |es| && Opens(es[k]) && id == 1 + CountOpens(es[..k])
    ensures OnlyAcks(before)
    ensures var st, own := Some(OpenedAs(es[k])), OwnAll(es[k + 1..], id);
            && LegalRun(st, own)
            && Run(Fresh(identity), es).0.Get(id) == LocalRun(st, own).0
            && Local(Run(Fresh(identity), es).1, id) == before + Opening(st.value) + LocalRun(st, own).1
  {
    hide Requested, React, Panics, Step, LocalLegal, Run, Legal, LocalRun, LegalRun;
    var c := Fresh(identity);
    var pre, e, post := es[..k], es[k], es[k + 1..];
    assert es == pre + ([e] + post);
    RunConcat(c, pre, [e] + post);
    var c1 := Run(c, pre).0;
    NextIdCounts(c, pre);
    RunBeforeOpen(c, pre, id);
    before := Local(Run(c, pre).1, id);
    var c2, outs := RunOpening(c1, e, post);
    LocalConcat(Run(c, pre).1, Run(c1, [e] + post).1, id);
    LocalConcat(outs, Run(c2, post).1, id);
    OpenStep(c1, e);
    StreamIsolation(c2, post, id);
    var x, y := Local(outs, id), Local(Run(c2, post).1, id);
    Associative(before, x, y);
  }

  /** The whole life of every stream: it was opened by one event of the run, and from there on a
      CLSE appears exactly when the stream is gone, once, with nothing but acknowledgements
      behind it. */
  lemma StreamLifecycle(identity: Text, es: seq<Event>, id: LocalId)
    returns (k: nat, before: seq<LocalOut>, after: seq<LocalOut>)
    requires Legal(Fresh(identity), es) && id < Run(Fresh(identity), es).0.nextId
    ensures k < |es| && Opens(es[k]) && id == 1 + CountOpens(es[..k])
    ensures Local(Run(Fresh(identity), es).1, id) == before + Opening(OpenedAs(es[k])) + after
    ensures OnlyAcks(before)
    ensures ClosedOnce(after, Run(Fresh(identity), es).0.Get(id).Some?)
  {
    hide Requested, Run, Legal, ClosedOnce, LocalRun, LegalRun;
    var c := Fresh(identity);
    k := FindOpening(c, es, id);
    NextIdCounts(c, es[..k]);
    before := OpenedStream(identity, es, k, id);
    var st, own := Some(OpenedAs(es[k])), OwnAll(es[k + 1..], id);
    after := LocalRun(st, own).1;
    LocalLifecycle(st, own);
  }

  lemma RunOpening(c: Conn, e: Event, post: seq<Event>) returns (c1: Conn, outs: seq<Output>)
    requires c.Valid() && Legal(c, [e] + post)
    ensures !Panics(c, e) && (c1, outs) == React(c, e) && c1.Valid() && Legal(c1, post)
    ensures Run(c, [e] + post) == (Run(c1, post).0, outs + Run(c1, post).1)
  {
    hide React, Panics;
    assert ([e] + post)[0] == e && ([e] + post)[1..] == post;
    ReactKeepsValid(c, e);
    c1, outs := React(c, e).0, React(c, e).1;
  }
}
