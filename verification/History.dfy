/** The loop against the connection it drives: the events it dispatches and the messages it submits. */
module History {
  import opened Basics
  import opened Message
  import opened Tags
  import opened SyncCodec
  import opened Sender
  import opened SyncService
  import opened Protocol
  import opened EventRing

  function StepOutputs(w: World, cqe: Cqe): seq<Output>
    requires w.conn.Valid() && Calm(w, cqe)
  {
    if Raised(w, cqe).None? then [] else React(w.conn, Raised(w, cqe).value).1
  }

  /** The events the loop dispatches, in order. */
  function Events(w: World, cqes: seq<Cqe>): seq<Event>
    requires w.conn.Valid() && LegalLoop(w, cqes)
    decreases |cqes|
  {
    if cqes == [] || !w.running then []
    else
      DispatchConn(w, cqes[0]);
      var rest := Events(Dispatch(w, cqes[0]), cqes[1..]);
      if Raised(w, cqes[0]).None? then rest else [Raised(w, cqes[0]).value] + rest
  }

  /** Everything the loop submits for the connection, in order. */
  function Outputs(w: World, cqes: seq<Cqe>): seq<Output>
    requires w.conn.Valid() && LegalLoop(w, cqes)
    decreases |cqes|
  {
    if cqes == [] || !w.running then []
    else
      DispatchConn(w, cqes[0]);
      StepOutputs(w, cqes[0]) + Outputs(Dispatch(w, cqes[0]), cqes[1..])
  }

  /** Running the loop is running the connection on the events dispatched: every result about runs
      of a connection holds of the loop. */
  lemma {:induction false} LoopIsRun(w: World, cqes: seq<Cqe>)
    requires w.conn.Valid() && LegalLoop(w, cqes)
    ensures Legal(w.conn, Events(w, cqes))
    ensures Run(w.conn, Events(w, cqes)) == (Loop(w, cqes).conn, Outputs(w, cqes))
    decreases |cqes|
  {
    hide Dispatch, React, Panics, Raised;
    if cqes != [] && w.running {
      var w1, rest := Dispatch(w, cqes[0]), cqes[1..];
      DispatchConn(w, cqes[0]);
      LoopIsRun(w1, rest);
      if Raised(w, cqes[0]).Some? {
        var e := Raised(w, cqes[0]).value;
        ReactKeepsValid(w.conn, e);
        assert ([e] + Events(w1, rest))[1..] == Events(w1, rest);
      } else {
        assert [] + Outputs(w1, rest) == Outputs(w1, rest);
      }
    }
  }

  // ----- Checksums of what comes in -----

  /** Under V0 a payload is dispatched only with the checksum its header announced. */
  predicate PayloadChecked(c: Conn, e: Event) {
    e.Command? && e.payload.Some? && c.version == V0 ==> Checksum(e.payload.value) == e.header.dataCheck
  }

  predicate AllChecked(c: Conn, es: seq<Event>)
    requires c.Valid() && Legal(c, es)
    decreases |es|
  {
    es == [] || (PayloadChecked(c, es[0]) && (ReactKeepsValid(c, es[0]); AllChecked(React(c, es[0]).0, es[1..])))
  }

  lemma {:induction false} PayloadsChecked(w: World, cqes: seq<Cqe>)
    requires w.conn.Valid() && LegalLoop(w, cqes)
    ensures Legal(w.conn, Events(w, cqes)) && AllChecked(w.conn, Events(w, cqes))
    decreases |cqes|
  {
    hide Dispatch, React, Panics, Raised, Checksum;
    LoopIsRun(w, cqes);
    if cqes != [] && w.running {
      var w1, rest := Dispatch(w, cqes[0]), cqes[1..];
      DispatchConn(w, cqes[0]);
      PayloadsChecked(w1, rest);
      if Raised(w, cqes[0]).Some? {
        var e := Raised(w, cqes[0]).value;
        RaisedIsChecked(w, cqes[0]);
        assert ([e] + Events(w1, rest))[1..] == Events(w1, rest);
      }
    }
  }

  lemma RaisedIsChecked(w: World, cqe: Cqe)
    ensures Raised(w, cqe).Some? ==> PayloadChecked(w.conn, Raised(w, cqe).value)
  {
    hide Checksum, ParseHeader, Unpack;
  }

  // ----- Versions of what goes out -----

  /** Every message carries the version in force when it is submitted: the one a CNXN has just
      set, for its own response. */
  lemma VersionInForce(c: Conn, e: Event)
    requires c.Valid() && !Panics(c, e)
    ensures forall o <- React(c, e).1 :: o.Send? ==> o.version == React(c, e).0.version
    ensures React(c, e).0.version == c.version || (e.Command? && e.header.command.Cnxn?)
  {
    hide Requested, HandleWrte, NextFrame, ReplyBytes, StatBytes;
    if e.Command? && e.header.command.Wrte? {
      WrteVersion(c, e.header, e.payload.value, e.env);
    }
  }

  lemma WrteVersion(c: Conn, h: AdbHeader, payload: seq<byte>, env: Env)
    requires c.Valid()
    requires h.arg1 in c.streams ==> !c.streams[h.arg1].service.Reboot?
    ensures HandleWrte(c, h, payload, env).0.version == c.version
    ensures forall o <- HandleWrte(c, h, payload, env).1 :: o.Send? ==> o.version == c.version
  {
    hide Handle, NextFrame, StatBytes, ReplyBytes;
  }
}
