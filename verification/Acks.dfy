/** Acknowledgements are conserved over every run. */
module Acks {
  import opened Basics
  import opened Message
  import opened SyncCodec
  import opened Sender
  import opened SyncService
  import opened Protocol
  import opened Lifecycle

  predicate IsWrte(e: Event) {
    e.Command? && e.header.command.Wrte?
  }

  predicate IsOpen(e: Event) {
    e.Command? && e.header.command.Open?
  }

  predicate IsOkayMsg(o: Output) {
    o.Send? && o.command.Okay?
  }

  /** A CLSE that names no local stream: the refusal of an OPEN. */
  predicate IsRefusal(o: Output) {
    o.Send? && o.command.Clse? && o.arg0 == 0
  }

  function CountWrtes(es: seq<Event>): nat {
    if es == [] then 0 else (if IsWrte(es[0]) then 1 else 0) + CountWrtes(es[1..])
  }

  function CountAllOpens(es: seq<Event>): nat {
    if es == [] then 0 else (if IsOpen(es[0]) then 1 else 0) + CountAllOpens(es[1..])
  }

  function CountOkays(outs: seq<Output>): nat {
    if outs == [] then 0 else (if IsOkayMsg(outs[0]) then 1 else 0) + CountOkays(outs[1..])
  }

  function CountRefusals(outs: seq<Output>): nat {
    if outs == [] then 0 else (if IsRefusal(outs[0]) then 1 else 0) + CountRefusals(outs[1..])
  }

  lemma {:induction false} CountsConcat(a: seq<Output>, b: seq<Output>)
    ensures CountOkays(a + b) == CountOkays(a) + CountOkays(b)
    ensures CountRefusals(a + b) == CountRefusals(a) + CountRefusals(b)
  {
    hide IsOkayMsg, IsRefusal;
    if a == [] {
      assert a + b == b;
    } else {
      CountsConcat(a[1..], b);
      HeadTail(a, b);
    }
  }

  lemma {:induction false} CountsZero(outs: seq<Output>)
    requires forall o <- outs :: !IsOkayMsg(o) && !IsRefusal(o)
    ensures CountOkays(outs) == 0 && CountRefusals(outs) == 0
  {
    if outs != [] {
      assert !IsOkayMsg(outs[0]) && !IsRefusal(outs[0]);
      CountsZero(outs[1..]);
    }
  }

  lemma HeadAndQuietTail(o: Output, tail: seq<Output>)
    requires forall p <- tail :: !IsOkayMsg(p) && !IsRefusal(p)
    ensures CountOkays([o] + tail) == (if IsOkayMsg(o) then 1 else 0)
    ensures CountRefusals([o] + tail) == (if IsRefusal(o) then 1 else 0)
  {
    assert ([o] + tail)[1..] == tail;
    CountsZero(tail);
  }

  /** The acknowledgement comes first, and nothing behind it is an OKAY or a refusal. */
  lemma WrteCounts(c: Conn, h: AdbHeader, payload: seq<byte>, env: Env)
    requires c.Valid()
    requires h.arg1 in c.streams ==> !c.streams[h.arg1].service.Reboot?
    ensures CountOkays(HandleWrte(c, h, payload, env).1) == 1
    ensures CountRefusals(HandleWrte(c, h, payload, env).1) == 0
  {
    hide Handle, NextFrame, StatBytes, ReplyBytes;
    var outs := HandleWrte(c, h, payload, env).1;
    HeadAndQuietTail(outs[0], outs[1..]);
    assert outs == [outs[0]] + outs[1..];
  }

  lemma OpenCounts(c: Conn, h: AdbHeader, payload: seq<byte>, env: Env)
    requires c.Valid() && (Requested(payload, env).Some? ==> c.nextId < U32_MAX)
    ensures CountOkays(HandleOpen(c, h, payload, env).1) == (if Requested(payload, env).Some? then 1 else 0)
    ensures CountRefusals(HandleOpen(c, h, payload, env).1) == (if Requested(payload, env).Some? then 0 else 1)
  {
    hide Requested;
    var outs := HandleOpen(c, h, payload, env).1;
    HeadAndQuietTail(outs[0], outs[1..]);
    assert outs == [outs[0]] + outs[1..];
  }

  lemma StepCounts(c: Conn, e: Event)
    requires c.Valid() && !Panics(c, e)
    ensures CountOkays(React(c, e).1) == (if Opens(e) || IsWrte(e) then 1 else 0)
    ensures CountRefusals(React(c, e).1) == (if IsOpen(e) && !Opens(e) then 1 else 0)
  {
    hide Requested, HandleOpen, HandleWrte, NextFrame, ReplyBytes;
    if IsOpen(e) {
      OpenCounts(c, e.header, e.payload.value, e.env);
    } else if IsWrte(e) {
      WrteCounts(c, e.header, e.payload.value, e.env);
    } else {
      CountsZero(React(c, e).1);
    }
  }

  /** Over any run the OKAYs submitted are one for each stream opened and one for each WRTE
      dispatched, and every OPEN that is not answered by an OKAY is answered by one CLSE with
      local id 0. The OKAYs for OPENs carry ids that go up by one each time. */
  lemma {:induction false} AcksConserved(c: Conn, es: seq<Event>)
    requires c.Valid() && Legal(c, es)
    ensures CountOkays(Run(c, es).1) == CountOpens(es) + CountWrtes(es)
    ensures CountOpens(es) + CountRefusals(Run(c, es).1) == CountAllOpens(es)
    ensures Run(c, es).0.nextId == c.nextId + CountOpens(es)
    decreases |es|
  {
    hide React, Panics, Opens, IsWrte, IsOpen, IsOkayMsg, IsRefusal;
    if es != [] {
      ReactKeepsValid(c, es[0]);
      var (c1, outs) := React(c, es[0]);
      StepCounts(c, es[0]);
      NextIdStep(c, es[0]);
      OpensIsOpen(es[0]);
      AcksConserved(c1, es[1..]);
      CountsConcat(outs, Run(c1, es[1..]).1);
    }
  }

  lemma OpensIsOpen(e: Event)
    ensures Opens(e) ==> IsOpen(e) && !IsWrte(e)
  {
  }
  // ----- Each single request -----

  /** What the host's OPEN or WRTE is answered with, before anything else. */
  function Answer(c: Conn, e: Event): Output
    requires c.Valid() && !Panics(c, e) && (IsOpen(e) || IsWrte(e))
  {
    if IsWrte(e) then OkayMsg(c, e.header.arg1, e.header.arg0)
    else if Opens(e) then OkayMsg(c, c.nextId, e.header.arg0)
    else ClseMsg(c, 0, e.header.arg0)
  }

  lemma StepAnswers(c: Conn, e: Event)
    requires c.Valid() && !Panics(c, e) && (IsOpen(e) || IsWrte(e))
    ensures var outs := React(c, e).1;
            outs != [] && outs[0] == Answer(c, e) && forall o <- outs[1..] :: !IsOkayMsg(o) && !IsRefusal(o)
  {
    hide Requested, Handle, NextFrame, StatBytes, ReplyBytes;
  }

  /** Every OPEN and every WRTE of a run is answered where it is dispatched, by exactly one OKAY or
      refusal: a WRTE by an OKAY, an OPEN by an OKAY with an id no stream had before, or by a CLSE
      with local id 0. */
  lemma EachAnswered(c: Conn, es: seq<Event>, k: nat) returns (rest: seq<Output>, after: seq<Output>)
    requires c.Valid() && Legal(c, es) && k < |es| && (IsOpen(es[k]) || IsWrte(es[k]))
    ensures Legal(c, es[..k])
    ensures var (c1, before) := Run(c, es[..k]);
            && !Panics(c1, es[k])
            && Run(c, es).1 == before + ([Answer(c1, es[k])] + rest) + after
            && c1.nextId == c.nextId + CountOpens(es[..k]) && c1.nextId !in c1.streams
    ensures forall o <- rest :: !IsOkayMsg(o) && !IsRefusal(o)
  {
    hide React, Panics, Opens, IsOpen, IsWrte, Answer, IsOkayMsg, IsRefusal;
    var pre, e, post := es[..k], es[k], es[k + 1..];
    assert es == pre + ([e] + post);
    RunConcat(c, pre, [e] + post);
    var c1 := Run(c, pre).0;
    NextIdCounts(c, pre);
    var c2, outs := RunOpening(c1, e, post);
    StepAnswers(c1, e);
    rest, after := outs[1..], Run(c2, post).1;
    assert outs == [outs[0]] + rest;
    Associative(Run(c, pre).1, outs, after);
  }
}
