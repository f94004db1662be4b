/** Shell and forward streams relay bytes unchanged and in order, both ways. */
module Relay {
  import opened Basics
  import opened Protocol
  import opened StreamMachine
  import opened Lifecycle
  import opened FlowControl

  /** The bytes a back end gave in completed reads. */
  function ReadBytes(es: seq<LocalEvent>, pty: bool): seq<byte> {
    if es == [] then [] else ReadBytesOf(es[0], pty) + ReadBytes(es[1..], pty)
  }

  function ReadBytesOf(e: LocalEvent, pty: bool): seq<byte> {
    match e
    case PtyDone(Got(data)) => if pty then data else []
    case SocketDone(Got(data)) => if pty then [] else data
    case _ => []
  }

  /** The bytes the host sent in WRTE payloads. */
  function HostBytes(es: seq<LocalEvent>): seq<byte> {
    if es == [] then [] else (if es[0].HostWrte? then es[0].payload else []) + HostBytes(es[1..])
  }

  /** The bytes sent to the host in WRTE payloads. */
  function WrittenBytes(outs: seq<LocalOut>): seq<byte> {
    if outs == [] then [] else (if outs[0].Write? then outs[0].data else []) + WrittenBytes(outs[1..])
  }

  lemma {:induction false} WrittenConcat(a: seq<LocalOut>, b: seq<LocalOut>)
    ensures WrittenBytes(a + b) == WrittenBytes(a) + WrittenBytes(b)
  {
    if a == [] {
      assert a + b == b;
    } else {
      WrittenConcat(a[1..], b);
      HeadTail(a, b);
      Associative(if a[0].Write? then a[0].data else [], WrittenBytes(a[1..]), WrittenBytes(b));
    }
  }

  /** The bytes the daemon has put into the back end. */
  function BackEndBytes(s: Service): seq<byte> {
    match s
    case Shell(input) => input
    case Forward(sent, _) => sent
    case _ => []
  }

  lemma WrittenFew(o: LocalOut)
    ensures WrittenBytes([]) == []
    ensures WrittenBytes([o]) == if o.Write? then o.data else []
  {
    assert [o][1..] == [];
  }

  lemma StepRelays(s: Stream, e: LocalEvent, pty: bool)
    requires s.Valid() && LocalLegal(Some(s), e) && Relays(s, pty)
    ensures var (st, outs) := Step(Some(s), e);
            && WrittenBytes(outs) == ReadBytesOf(e, pty)
            && (st.None? ==> ReadBytesOf(e, pty) == [])
            && (st.Some? ==>
                  && Relays(st.value, pty)
                  && BackEndBytes(st.value.service)
                     == BackEndBytes(s.service) + (if e.HostWrte? then e.payload else []))
  {
    hide WrittenBytes;
    var outs := Step(Some(s), e).1;
    WrittenFew(if outs == [] then Close(0) else outs[0]);
    if |outs| == 1 {
      assert outs == [outs[0]];
    } else if |outs| == 2 {
      assert outs == [outs[0]] + [outs[1]];
      WrittenConcat([outs[0]], [outs[1]]);
      WrittenFew(outs[1]);
    }
    assert BackEndBytes(s.service) + [] == BackEndBytes(s.service);
  }

  /** As long as the stream is open, the host has been sent exactly the completed reads, and the
      back end has been given exactly the WRTE payloads. A CLSE from the host is one of the
      events and changes neither. */
  lemma {:induction false} RelayWhileOpen(s: Stream, es: seq<LocalEvent>, pty: bool)
    requires s.Valid() && LegalRun(Some(s), es) && Relays(s, pty)
    requires LocalRun(Some(s), es).0.Some?
    ensures var (st, outs) := LocalRun(Some(s), es);
            && Relays(st.value, pty)
            && WrittenBytes(outs) == ReadBytes(es, pty)
            && BackEndBytes(st.value.service) == BackEndBytes(s.service) + HostBytes(es)
    decreases |es|
  {
    hide Step, LocalLegal, BackEndBytes, Relays, ReadBytesOf;
    if es == [] {
      assert BackEndBytes(s.service) + HostBytes(es) == BackEndBytes(s.service);
    } else {
      var e := es[0];
      StepKeepsValid(Some(s), e);
      StepRelays(s, e, pty);
      var (st1, outs) := Step(Some(s), e);
      StillOpen(st1, es[1..]);
      RelayWhileOpen(st1.value, es[1..], pty);
      WrittenConcat(outs, LocalRun(st1, es[1..]).1);
      var x := if e.HostWrte? then e.payload else [];
      Associative(BackEndBytes(s.service), x, HostBytes(es[1..]));
    }
  }

  lemma {:induction false} StillOpen(st: Slot, es: seq<LocalEvent>)
    requires ValidSlot(st) && LegalRun(st, es) && LocalRun(st, es).0.Some?
    ensures st.Some?
    decreases |es|
  {
    if es != [] && st.None? {
      StillOpen(Step(st, es[0]).0, es[1..]);
    }
  }

  lemma {:induction false} LocalRunConcat(st: Slot, a: seq<LocalEvent>, b: seq<LocalEvent>)
    requires ValidSlot(st) && LegalRun(st, a + b)
    ensures LegalRun(st, a) && LegalRun(LocalRun(st, a).0, b)
    ensures LocalRun(st, a + b)
            == (LocalRun(LocalRun(st, a).0, b).0, LocalRun(st, a).1 + LocalRun(LocalRun(st, a).0, b).1)
    decreases |a|
  {
    hide Step, LocalLegal;
    if a == [] {
      assert a + b == b;
      assert [] + LocalRun(st, b).1 == LocalRun(st, b).1;
    } else {
      HeadTail(a, b);
      StepKeepsValid(st, a[0]);
      var (st1, outs) := Step(st, a[0]);
      LocalRunConcat(st1, a[1..], b);
      var x, y := LocalRun(st1, a[1..]).1, LocalRun(LocalRun(st1, a[1..]).0, b).1;
      Associative(outs, x, y);
    }
  }

  lemma {:induction false} NothingWritten(outs: seq<LocalOut>)
    requires forall o <- outs :: !o.Write?
    ensures WrittenBytes(outs) == []
  {
    if outs != [] {
      assert !outs[0].Write?;
      NothingWritten(outs[1..]);
      assert [] + WrittenBytes(outs[1..]) == [];
    }
  }

  /** Any run, whatever closes the stream in it (an end of file, a host CLSE, a failed write): the
      host has been sent exactly the reads completed before the stream was closed, none is lost
      and none comes later. */
  lemma {:induction false} RelayUntilClosed(s: Stream, es: seq<LocalEvent>, pty: bool) returns (n: nat)
    requires s.Valid() && LegalRun(Some(s), es) && Relays(s, pty)
    ensures n <= |es| && (n == |es| <==> LocalRun(Some(s), es).0.Some?)
    ensures LegalRun(Some(s), es[..n]) && LocalRun(Some(s), es[..n]).0.Some?
    ensures n < |es| ==> LegalRun(Some(s), es[..n + 1]) && LocalRun(Some(s), es[..n + 1]).0.None?
    ensures WrittenBytes(LocalRun(Some(s), es).1) == ReadBytes(es[..n], pty)
    decreases |es|
  {
    hide Step, LocalLegal, Relays, ReadBytesOf, BackEndBytes;
    n := 0;
    if es != [] {
      StepKeepsValid(Some(s), es[0]);
      StepRelays(s, es[0], pty);
      var (st1, outs) := Step(Some(s), es[0]);
      var rest := LocalRun(st1, es[1..]).1;
      WrittenConcat(outs, rest);
      if st1.Some? {
        var m := RelayUntilClosed(st1.value, es[1..], pty);
        n := m + 1;
        assert es[..n][1..] == es[1..][..m];
        assert n < |es| ==> es[..n + 1][1..] == es[1..][..n];
      } else {
        RemovedStaysRemoved(es[1..]);
        NothingWritten(rest);
        assert es[..1][1..] == [];
      }
    }
  }

  /** End of file closes the stream with its only CLSE, and everything read before it has already
      been sent. */
  lemma RelayUntilEof(s: Stream, es: seq<LocalEvent>, pty: bool)
    requires s.Valid() && Relays(s, pty)
    requires var eof := if pty then PtyDone(Ended) else SocketDone(Ended);
             LegalRun(Some(s), es + [eof])
    requires LegalRun(Some(s), es) && LocalRun(Some(s), es).0.Some?
    ensures var eof := if pty then PtyDone(Ended) else SocketDone(Ended);
            var (st, outs) := LocalRun(Some(s), es + [eof]);
            && st.None?
            && outs != [] && outs[|outs| - 1].Close?
            && (forall o <- outs[..|outs| - 1] :: !o.Close?)
            && WrittenBytes(outs[..|outs| - 1]) == ReadBytes(es, pty)
  {
    hide LocalLegal, ReadBytes, BackEndBytes;
    var eof := if pty then PtyDone(Ended) else SocketDone(Ended);
    RelayWhileOpen(s, es, pty);
    LocalLifecycle(Some(s), es);
    LocalRunConcat(Some(s), es, [eof]);
    var (st1, before) := LocalRun(Some(s), es);
    var last := LocalRun(st1, [eof]).1;
    assert LegalRun(Step(st1, eof).0, [eof][1..]);
    assert last == [Close(st1.value.remoteId)];
    assert (before + last)[..|before|] == before;
  }

  // ----- A host CLSE is invisible to the rest of the stream -----

  /** Equal up to what a host CLSE records. */
  predicate SameButClosed(a: Slot, b: Slot) {
    && (a.Some? <==> b.Some?)
    && (a.Some? && a.value.service.Forward? ==>
          && b.value.service.Forward?
          && a.value.service.sent == b.value.service.sent
          && a.value.remoteId == b.value.remoteId
          && a.value.waitingForOkay == b.value.waitingForOkay)
  }

  predicate IsForward(st: Slot) {
    st.Some? ==> st.value.service.Forward?
  }

  lemma SameStep(a: Slot, b: Slot, e: LocalEvent)
    requires IsForward(a) && SameButClosed(a, b) && LocalLegal(a, e)
    ensures LocalLegal(b, e)
    ensures Step(a, e).1 == Step(b, e).1
    ensures IsForward(Step(a, e).0) && SameButClosed(Step(a, e).0, Step(b, e).0)
  {
  }

  lemma {:induction false} SameRun(a: Slot, b: Slot, es: seq<LocalEvent>)
    requires ValidSlot(a) && ValidSlot(b) && IsForward(a) && SameButClosed(a, b) && LegalRun(a, es)
    ensures LegalRun(b, es)
    ensures LocalRun(a, es).1 == LocalRun(b, es).1
    ensures SameButClosed(LocalRun(a, es).0, LocalRun(b, es).0)
    decreases |es|
  {
    hide Step, LocalLegal, SameButClosed, IsForward;
    if es != [] {
      SameStep(a, b, es[0]);
      StepKeepsValid(a, es[0]);
      StepKeepsValid(b, es[0]);
      SameRun(Step(a, es[0]).0, Step(b, es[0]).0, es[1..]);
    }
  }

  /** A host CLSE on a forward stream neither removes it nor changes anything submitted later:
      dropping it from a run, with the socket answering the same, leaves every output the same. */
  lemma HostClseInvisible(s: Stream, remote: u32, es: seq<LocalEvent>)
    requires s.Valid() && s.service.Forward?
    requires LegalRun(Some(s), [HostClse(remote)] + es)
    ensures LegalRun(Some(s), es)
    ensures LocalRun(Some(s), [HostClse(remote)] + es).1 == LocalRun(Some(s), es).1
    ensures SameButClosed(LocalRun(Some(s), [HostClse(remote)] + es).0, LocalRun(Some(s), es).0)
  {
    var e := HostClse(remote);
    assert ([e] + es)[0] == e && ([e] + es)[1..] == es;
    var st1 := Step(Some(s), e).0;
    SameRun(st1, Some(s), es);
    assert [] + LocalRun(st1, es).1 == LocalRun(st1, es).1;
  }
}
