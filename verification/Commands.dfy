/** What CNXN, OPEN and CLSE messages do to the connection, from the fields of the message. */
module Commands {
  import opened Basics
  import opened Message
  import opened Utf8
  import opened SyncCodec
  import opened SyncService
  import opened Protocol

  // ----- CNXN -----

  /** The version becomes the host's if it is known and V0 otherwise, and the reply, already under
      it, always announces version 0x01000001, payloads of 2^20 bytes and the device's identity. */
  lemma CnxnAnswered(c: Conn, h: AdbHeader, payload: seq<byte>, env: Env)
    requires c.Valid() && h.command.Cnxn?
    ensures var e := Command(h, Some(payload), env);
            var v := if h.arg0 == 0x0100_0001 then V1 else V0;
            && !Panics(c, e)
            && React(c, e) == (Conn(v, c.identity, c.streams, c.nextId),
                               [Send(v, Cnxn, 0x0100_0001, 0x10_0000, c.identity)])
  {
  }

  // ----- OPEN -----

  /** The OPEN is accepted: the next id names a stream with the service, the host is told with an
      OKAY, and the first read of a back end that has something to say is submitted. */
  ghost predicate Accepted(c: Conn, h: AdbHeader, r: (Conn, seq<Output>), service: Service)
    requires c.nextId < U32_MAX
  {
    var id := c.nextId;
    && r.0 == Conn(c.version, c.identity, c.streams[id := Stream(h.arg0, service, false, false)], id + 1)
    && |r.1| == (if service.Shell? || service.Forward? then 2 else 1)
    && r.1[0] == Send(c.version, Okay, id, h.arg0, [])
    && (service.Shell? ==> id > 0 && r.1[1] == StartPtyRead(id))
    && (service.Forward? ==> id > 0 && r.1[1] == StartSocketRead(id))
  }

  /** The OPEN is refused: one CLSE with local id 0, and nothing changes. */
  ghost predicate RefusedWith(c: Conn, h: AdbHeader, r: (Conn, seq<Output>)) {
    r == (c, [Send(c.version, Clse, 0, h.arg0, [])])
  }

  lemma FirstNul(name: seq<byte>, junk: seq<byte>)
    requires 0 !in name
    ensures var payload := name + [0] + junk;
            FirstIndex(payload, 0) == |name| && payload[..|name|] == name
  {
    FirstIndexAfter(name, 0, junk);
  }

  predicate IsForward(name: seq<byte>) {
    Ascii("tcp:") <= name || Ascii("localabstract:") <= name || Ascii("localfilesystem:") <= name
  }

  /** Which service a name opens, and when it opens none. */
  lemma OpenByName(c: Conn, h: AdbHeader, name: seq<byte>, junk: seq<byte>, env: Env)
    requires c.Valid() && c.nextId < U32_MAX && h.command.Open? && 0 !in name
    ensures var e := Command(h, Some(name + [0] + junk), env);
            && !Panics(c, e)
            && var r := React(c, e);
               if !IsUtf8(name) then RefusedWith(c, h, r)
               else if name == Ascii("sync:") then Accepted(c, h, r, Sync(Session(Idle, [])))
               else if Ascii("shell:") <= name then
                 if env.spawned then Accepted(c, h, r, Shell([])) else RefusedWith(c, h, r)
               else if Ascii("reboot:") <= name then Accepted(c, h, r, Reboot)
               else if IsForward(name) then
                 if env.connected then Accepted(c, h, r, Forward([], false)) else RefusedWith(c, h, r)
               else RefusedWith(c, h, r)
  {
    hide IsUtf8, FirstIndex;
    FirstNul(name, junk);
  }

  /** A payload without a NUL is refused. */
  lemma NoNulRefused(c: Conn, h: AdbHeader, payload: seq<byte>, env: Env)
    requires c.Valid() && h.command.Open? && 0 !in payload
    ensures var e := Command(h, Some(payload), env);
            !Panics(c, e) && RefusedWith(c, h, React(c, e))
  {
    hide StartService, IsUtf8;
    assert FirstIndex(payload, 0) == |payload|;
  }

  /** Every OPEN payload is of one of these two kinds. */
  lemma NameOrNoNul(payload: seq<byte>) returns (name: seq<byte>, junk: seq<byte>)
    requires 0 in payload
    ensures 0 !in name && payload == name + [0] + junk
  {
    var n := FirstIndex(payload, 0);
    assert n < |payload| by {
      assert payload[..|payload|] == payload;
    }
    name, junk := payload[..n], payload[n + 1..];
  }

  // ----- CLSE -----

  /** A CLSE from the host: a forward stream stays, with its write side shut down and nothing sent;
      any other is removed and the CLSE answered; for an unknown id nothing happens. */
  lemma ClseHandled(c: Conn, h: AdbHeader, payload: Option<seq<byte>>, env: Env)
    requires c.Valid() && h.command.Clse? && !Panics(c, Command(h, payload, env))
    ensures var r := React(c, Command(h, payload, env));
            if h.arg1 !in c.streams then r == (c, [])
            else
              var s := c.streams[h.arg1];
              if s.service.Forward? then
                r == (c.Put(h.arg1, Stream(h.arg0, Forward(s.service.sent, true), s.waitingForOkay, true)), [])
              else r == (c.Remove(h.arg1), [Send(c.version, Clse, h.arg1, h.arg0, [])])
  {
  }

  /** A WRTE to an unknown id is acknowledged, and that is all. */
  lemma StrayWrte(c: Conn, h: AdbHeader, payload: seq<byte>, env: Env)
    requires c.Valid() && h.command.Wrte? && h.arg1 !in c.streams
    ensures var e := Command(h, Some(payload), env);
            !Panics(c, e) && React(c, e) == (c, [Send(c.version, Okay, h.arg1, h.arg0, [])])
  {
  }

  /** Other commands, and OKAYs for unknown ids, change nothing and send nothing. */
  lemma Ignored(c: Conn, h: AdbHeader, payload: Option<seq<byte>>, env: Env)
    requires c.Valid() && !Panics(c, Command(h, payload, env))
    requires h.command.Auth? || h.command.Stls? || (h.command.Okay? && h.arg1 !in c.streams)
    ensures React(c, Command(h, payload, env)) == (c, [])
  {
  }
}
