/** Sync sub-protocol packets and frames: parsers and printers (src/sync.rs). */
module SyncCodec {
  import opened Basics

  const ID_LSTAT_V1: u32 := 0x5441_5453
  const ID_DATA: u32 := 0x4154_4144
  const ID_DONE: u32 := 0x454e_4f44
  const ID_FAIL: u32 := 0x4c49_4146
  const ID_OKAY: u32 := 0x5941_4b4f
  const ID_RECV_V1: u32 := 0x5643_4552
  const ID_SEND_V1: u32 := 0x444e_4553
  const ID_QUIT: u32 := 0x5449_5551

  lemma RequestIdsSpellTheirNames()
    ensures LeBytes(ID_LSTAT_V1) == Ascii("STAT") && LeBytes(ID_RECV_V1) == Ascii("RECV")
    ensures LeBytes(ID_SEND_V1) == Ascii("SEND") && LeBytes(ID_QUIT) == Ascii("QUIT")
  {
  }

  lemma FrameIdsSpellTheirNames()
    ensures LeBytes(ID_DATA) == Ascii("DATA") && LeBytes(ID_DONE) == Ascii("DONE")
    ensures LeBytes(ID_OKAY) == Ascii("OKAY") && LeBytes(ID_FAIL) == Ascii("FAIL")
  {
  }

  const PAYLOAD_SIZE_MAX_BYTES: nat := 64 * 1024

  // ----- Requests -----

  datatype SyncPacket =
    | LStatV1(path: seq<byte>)
    | RecvV1(path: seq<byte>)
    | SendV1(path: seq<byte>, mode: u32)
    | Quit

  /** A parse result: the value read and the input that is left. */
  datatype Parsed<+T> = Parsed(value: T, rest: seq<byte>)

  function TakeU32(input: seq<byte>): Option<Parsed<u32>> {
    if |input| < 4 then None else Some(Parsed(LeU32(input[..4]), input[4..]))
  }

  function LengthTake(input: seq<byte>): Option<Parsed<seq<byte>>> {
    match TakeU32(input)
    case None => None
    case Some(Parsed(n, rest)) => if |rest| < n then None else Some(Parsed(rest[..n], rest[n..]))
  }

  const COMMA: byte := 44

  predicate IsDigit(b: byte) { 48 <= b <= 57 }

  /** The position of the first b in s, or |s| when there is none. */
  function FirstIndex(s: seq<byte>, b: byte): (i: nat)
    ensures i <= |s|
    ensures b !in s[..i]
    ensures i < |s| ==> s[i] == b
  {
    if s == [] || s[0] == b then 0
    else
      var i := 1 + FirstIndex(s[1..], b);
      assert s[..i] == [s[0]] + s[1..][..i - 1];
      i
  }

  /** The length of the longest run of ASCII digits at the front of s. */
  function DigitRun(s: seq<byte>): (n: nat)
    ensures n <= |s|
    ensures forall i :: 0 <= i < n ==> IsDigit(s[i])
    ensures n < |s| ==> !IsDigit(s[n])
  {
    if s == [] || !IsDigit(s[0]) then 0 else 1 + DigitRun(s[1..])
  }

  /** The decimal value of a string of digits, leading zeros allowed. */
  function DecimalValue(s: seq<byte>): nat
    requires forall i :: 0 <= i < |s| ==> IsDigit(s[i])
  {
    if s == [] then 0
    else
      assert IsDigit(s[|s| - 1]);
      10 * DecimalValue(s[..|s| - 1]) + (s[|s| - 1] as int - 48)
  }

  /** `path,mode`: a non-empty path up to the first comma, then decimal digits that fit a `u32`.
      Whatever follows the digits is not looked at. */
  function ParsePathMode(s: seq<byte>): Option<(seq<byte>, u32)> {
    var i := FirstIndex(s, COMMA);
    if i == |s| || i == 0 then None
    else
      var tail := s[i + 1..];
      var n := DigitRun(tail);
      if n == 0 || DecimalValue(tail[..n]) > U32_MAX then None
      else Some((s[..i], DecimalValue(tail[..n])))
  }

  function ParseSyncPacket(input: seq<byte>): Option<Parsed<SyncPacket>> {
    match TakeU32(input)
    case None => None
    case Some(Parsed(id, afterId)) =>
      if id == ID_QUIT then Some(Parsed(Quit, afterId))
      else if id == ID_LSTAT_V1 || id == ID_RECV_V1 || id == ID_SEND_V1 then
        match LengthTake(afterId)
        case None => None
        case Some(Parsed(body, rest)) =>
          if id == ID_LSTAT_V1 then Some(Parsed(LStatV1(body), rest))
          else if id == ID_RECV_V1 then Some(Parsed(RecvV1(body), rest))
          else
            match ParsePathMode(body)
            case None => None
            case Some((path, mode)) => Some(Parsed(SendV1(path, mode), rest))
      else None
  }

  // ----- Printing SEND requests, as the host does -----

  function Decimal(n: nat): (s: seq<byte>)
    ensures |s| > 0
    ensures forall i :: 0 <= i < |s| ==> IsDigit(s[i])
  {
    var last: byte := 48 + n % 10;
    if n < 10 then [last] else Decimal(n / 10) + [last]
  }

  lemma {:induction false} DecimalValueOfDecimal(n: nat)
    ensures DecimalValue(Decimal(n)) == n
  {
    var s := Decimal(n);
    if n < 10 {
      assert s[..|s| - 1] == [];
    } else {
      DecimalValueOfDecimal(n / 10);
      assert s[..|s| - 1] == Decimal(n / 10);
    }
  }

  function SendBody(path: seq<byte>, mode: nat): seq<byte> {
    path + [COMMA] + Decimal(mode)
  }

  function SendRequest(path: seq<byte>, mode: nat): seq<byte>
    requires |SendBody(path, mode)| <= U32_MAX
  {
    LeBytes(ID_SEND_V1) + LeBytes(|SendBody(path, mode)|) + SendBody(path, mode)
  }

  lemma {:induction false} FirstIndexAfter(a: seq<byte>, b: byte, rest: seq<byte>)
    requires b !in a
    ensures FirstIndex(a + [b] + rest, b) == |a|
  {
    var s := a + [b] + rest;
    if a != [] {
      assert s[1..] == a[1..] + [b] + rest;
      FirstIndexAfter(a[1..], b, rest);
    }
  }

  lemma {:induction false} DigitRunOf(digits: seq<byte>, junk: seq<byte>)
    requires forall i :: 0 <= i < |digits| ==> IsDigit(digits[i])
    requires junk == [] || !IsDigit(junk[0])
    ensures DigitRun(digits + junk) == |digits|
  {
    if digits == [] {
      assert digits + junk == junk;
    } else {
      DigitRunOf(digits[1..], junk);
      HeadTail(digits, junk);
    }
  }

  lemma ParsePathModeOf(path: seq<byte>, digits: seq<byte>, junk: seq<byte>)
    requires path != [] && COMMA !in path
    requires digits != [] && (forall i :: 0 <= i < |digits| ==> IsDigit(digits[i]))
    requires junk == [] || !IsDigit(junk[0])
    ensures ParsePathMode(path + [COMMA] + digits + junk)
            == if DecimalValue(digits) <= U32_MAX then Some((path, DecimalValue(digits))) else None
  {
    var body, tail := path + [COMMA] + digits + junk, digits + junk;
    Associative(path + [COMMA], digits, junk);
    FirstIndexAfter(path, COMMA, tail);
    assert body[..|path|] == path && body[|path| + 1..] == tail;
    DigitRunOf(digits, junk);
    assert tail[..|digits|] == digits;
  }

  lemma ParsePathModeOfSendBody(path: seq<byte>, mode: nat)
    requires path != [] && COMMA !in path
    ensures ParsePathMode(SendBody(path, mode)) == if mode <= U32_MAX then Some((path, mode)) else None
  {
    ParsePathModeOf(path, Decimal(mode), []);
    DecimalValueOfDecimal(mode);
    assert SendBody(path, mode) + [] == SendBody(path, mode);
  }

  lemma LengthTakeOfPrint(body: seq<byte>, rest: seq<byte>)
    requires |body| <= U32_MAX
    ensures LengthTake(LeBytes(|body|) + body + rest) == Some(Parsed(body, rest))
  {
    var input := LeBytes(|body|) + body + rest;
    LeU32OfLeBytes(|body|);
    assert input[..4] == LeBytes(|body|);
    assert input[4..] == body + rest;
  }

  /** SEND requests round-trip with whatever bytes are packed behind them; a mode that does
      not fit 32 bits is refused. */
  lemma ParseOfSendRequest(path: seq<byte>, mode: nat, rest: seq<byte>)
    requires path != [] && COMMA !in path
    requires |SendBody(path, mode)| <= U32_MAX
    ensures ParseSyncPacket(SendRequest(path, mode) + rest)
            == if mode <= U32_MAX then Some(Parsed(SendV1(path, mode), rest)) else None
  {
    var body := SendBody(path, mode);
    var input := SendRequest(path, mode) + rest;
    LeU32OfLeBytes(ID_SEND_V1);
    assert input[..4] == LeBytes(ID_SEND_V1);
    assert input[4..] == LeBytes(|body|) + body + rest;
    LengthTakeOfPrint(body, rest);
    ParsePathModeOfSendBody(path, mode);
  }

  /** A request that carries a path only, as the host prints it. */
  function PathRequest(id: u32, path: seq<byte>): seq<byte>
    requires |path| <= U32_MAX
  {
    LeBytes(id) + (LeBytes(|path|) + path)
  }

  /** LSTAT and RECV requests round-trip too, with any path: commas and empty paths included. */
  lemma ParseOfPathRequest(id: u32, path: seq<byte>, rest: seq<byte>)
    requires |path| <= U32_MAX && (id == ID_LSTAT_V1 || id == ID_RECV_V1)
    ensures ParseSyncPacket(PathRequest(id, path) + rest)
            == Some(Parsed(if id == ID_LSTAT_V1 then LStatV1(path) else RecvV1(path), rest))
  {
    var input := PathRequest(id, path) + rest;
    LeU32OfLeBytes(id);
    assert input[..4] == LeBytes(id);
    assert input[4..] == LeBytes(|path|) + path + rest;
    LengthTakeOfPrint(path, rest);
  }

  lemma LengthTakeShape(input: seq<byte>)
    requires LengthTake(input).Some?
    ensures var Parsed(body, rest) := LengthTake(input).value;
            |body| <= U32_MAX && input == LeBytes(|body|) + body + rest
  {
    hide LeU32, LeBytes;
    var head := input[..4];
    LeBytesOfLeU32(head);
    var Parsed(body, rest) := LengthTake(input).value;
    assert |body| == LeU32(head);
    assert input[4..] == body + rest;
    assert input == head + input[4..];
  }

  /** What a SEND body must look like to be accepted, and why. */
  lemma PathModeShape(body: seq<byte>) returns (digits: seq<byte>, junk: seq<byte>)
    requires ParsePathMode(body).Some?
    ensures var (path, mode) := ParsePathMode(body).value;
            && path != [] && COMMA !in path
            && body == path + [COMMA] + digits + junk
            && digits != [] && (forall i :: 0 <= i < |digits| ==> IsDigit(digits[i]))
            && DecimalValue(digits) == mode
            && (junk == [] || !IsDigit(junk[0]))
  {
    var i := FirstIndex(body, COMMA);
    var tail := body[i + 1..];
    var n := DigitRun(tail);
    digits, junk := tail[..n], tail[n..];
    assert body == body[..i] + [COMMA] + tail;
  }

  /** An accepted SEND request has a path that stops at the first comma, so it never holds one,
      and digits behind the comma that spell the mode. */
  lemma SendRequestShape(input: seq<byte>) returns (digits: seq<byte>, junk: seq<byte>)
    requires ParseSyncPacket(input).Some? && ParseSyncPacket(input).value.value.SendV1?
    ensures var Parsed(SendV1(path, mode), rest) := ParseSyncPacket(input).value;
            var body := path + [COMMA] + digits + junk;
            && path != [] && COMMA !in path
            && digits != [] && (forall i :: 0 <= i < |digits| ==> IsDigit(digits[i]))
            && DecimalValue(digits) == mode
            && (junk == [] || !IsDigit(junk[0]))
            && |body| <= U32_MAX
            && input == LeBytes(ID_SEND_V1) + (LeBytes(|body|) + body + rest)
  {
    LengthTakeShape(input[4..]);
    digits, junk := PathModeShape(LengthTake(input[4..]).value.value);
    LeBytesOfLeU32(input[..4]);
    assert input == input[..4] + input[4..];
  }

  // ----- What is a request at all -----

  predicate SendForm(input: seq<byte>, path: seq<byte>, digits: seq<byte>, junk: seq<byte>, rest: seq<byte>) {
    var body := path + [COMMA] + digits + junk;
    && path != [] && COMMA !in path
    && digits != [] && (forall i :: 0 <= i < |digits| ==> IsDigit(digits[i])) && DecimalValue(digits) <= U32_MAX
    && (junk == [] || !IsDigit(junk[0]))
    && |body| <= U32_MAX
    && input == Ascii("SEND") + (LeBytes(|body|) + body + rest)
  }

  predicate PathForm(input: seq<byte>, name: seq<byte>, path: seq<byte>, rest: seq<byte>) {
    |path| <= U32_MAX && input == name + (LeBytes(|path|) + path + rest)
  }

  /** QUIT, or STAT or RECV with a path, or SEND with a path and a mode; then anything. */
  ghost predicate IsRequest(input: seq<byte>) {
    || Ascii("QUIT") <= input
    || (exists path, rest :: PathForm(input, Ascii("STAT"), path, rest))
    || (exists path, rest :: PathForm(input, Ascii("RECV"), path, rest))
    || (exists path, digits, junk, rest :: SendForm(input, path, digits, junk, rest))
  }

  lemma ParseOfSendForm(input: seq<byte>, path: seq<byte>, digits: seq<byte>, junk: seq<byte>, rest: seq<byte>)
    requires SendForm(input, path, digits, junk, rest)
    ensures ParseSyncPacket(input) == Some(Parsed(SendV1(path, DecimalValue(digits)), rest))
  {
    hide LeU32, LeBytes, ParsePathMode, LengthTake;
    var body := path + [COMMA] + digits + junk;
    RequestIdsSpellTheirNames();
    LeU32OfLeBytes(ID_SEND_V1);
    assert input[..4] == LeBytes(ID_SEND_V1);
    assert input[4..] == LeBytes(|body|) + body + rest;
    LengthTakeOfPrint(body, rest);
    ParsePathModeOf(path, digits, junk);
  }

  lemma ParseOfQuit(rest: seq<byte>)
    ensures ParseSyncPacket(Ascii("QUIT") + rest) == Some(Parsed(Quit, rest))
  {
    hide LeU32, LeBytes;
    var input := Ascii("QUIT") + rest;
    RequestIdsSpellTheirNames();
    LeU32OfLeBytes(ID_QUIT);
    assert input[..4] == LeBytes(ID_QUIT) && input[4..] == rest;
  }

  lemma QuitExactly(input: seq<byte>)
    ensures ParseSyncPacket(input).Some? && ParseSyncPacket(input).value.value.Quit? <==> Ascii("QUIT") <= input
  {
    hide LeU32, LeBytes, LengthTake, ParsePathMode;
    if Ascii("QUIT") <= input {
      ParseOfQuit(input[4..]);
      assert input == Ascii("QUIT") + input[4..];
    } else if ParseSyncPacket(input).Some? {
      RequestIdsSpellTheirNames();
      LeBytesOfLeU32(input[..4]);
    }
  }

  /** Exactly these inputs are requests. */
  lemma RequestsExactly(input: seq<byte>)
    ensures ParseSyncPacket(input).Some? <==> IsRequest(input)
  {
    hide ParsePathMode, LeBytes, LeU32, LengthTake;
    if ParseSyncPacket(input).Some? {
      ParsedIsRequest(input);
    }
    if Ascii("QUIT") <= input {
      ParseOfQuit(input[4..]);
      assert input == Ascii("QUIT") + input[4..];
    }
    forall path, rest | PathForm(input, Ascii("STAT"), path, rest) ensures ParseSyncPacket(input).Some? {
      RequestIdsSpellTheirNames();
      ParseOfPathRequest(ID_LSTAT_V1, path, rest);
      assert input == PathRequest(ID_LSTAT_V1, path) + rest;
    }
    forall path, rest | PathForm(input, Ascii("RECV"), path, rest) ensures ParseSyncPacket(input).Some? {
      RequestIdsSpellTheirNames();
      ParseOfPathRequest(ID_RECV_V1, path, rest);
      assert input == PathRequest(ID_RECV_V1, path) + rest;
    }
    forall path, digits, junk, rest | SendForm(input, path, digits, junk, rest) ensures ParseSyncPacket(input).Some? {
      ParseOfSendForm(input, path, digits, junk, rest);
    }
  }

  lemma ParsedIsRequest(input: seq<byte>)
    requires ParseSyncPacket(input).Some?
    ensures IsRequest(input)
  {
    hide ParsePathMode, LeBytes, LeU32, LengthTake;
    RequestIdsSpellTheirNames();
    var head, tail := input[..4], input[4..];
    LeBytesOfLeU32(head);
    assert input == head + tail;
    match ParseSyncPacket(input).value.value
    case Quit =>
    case SendV1(path, _) =>
      var digits, junk := SendRequestShape(input);
      assert SendForm(input, path, digits, junk, ParseSyncPacket(input).value.rest);
    case LStatV1(path) =>
      LengthTakeShape(tail);
      assert PathForm(input, Ascii("STAT"), path, ParseSyncPacket(input).value.rest);
    case RecvV1(path) =>
      LengthTakeShape(tail);
      assert PathForm(input, Ascii("RECV"), path, ParseSyncPacket(input).value.rest);
  }

  // ----- Host-to-device frames -----

  datatype FrameId = Data | Done

  datatype FrameHeader = FrameHeader(id: FrameId, payloadLen: u32)

  function ParseFrameHeader(b: seq<byte>): Option<FrameHeader>
    requires |b| == 8
  {
    var id := LeU32(b[..4]);
    if id == ID_DATA then Some(FrameHeader(Data, LeU32(b[4..])))
    else if id == ID_DONE then Some(FrameHeader(Done, LeU32(b[4..])))
    else None
  }

  function FrameHeaderBytes(h: FrameHeader): (r: seq<byte>)
    ensures |r| == 8
  {
    LeBytes(match h.id case Data => ID_DATA case Done => ID_DONE) + LeBytes(h.payloadLen)
  }

  lemma ParseOfFrameHeader(h: FrameHeader)
    ensures ParseFrameHeader(FrameHeaderBytes(h)) == Some(h)
  {
    var b := FrameHeaderBytes(h);
    LeU32OfLeBytes(ID_DATA);
    LeU32OfLeBytes(ID_DONE);
    LeU32OfLeBytes(h.payloadLen);
    assert b[..4] == LeBytes(match h.id case Data => ID_DATA case Done => ID_DONE);
    assert b[4..] == LeBytes(h.payloadLen);
  }

  lemma FrameHeaderOfParse(b: seq<byte>)
    requires |b| == 8 && ParseFrameHeader(b).Some?
    ensures FrameHeaderBytes(ParseFrameHeader(b).value) == b
  {
    LeBytesOfLeU32(b[..4]);
    LeBytesOfLeU32(b[4..]);
    assert b == b[..4] + b[4..];
  }

  // ----- Device-to-host frames -----

  datatype ReplyId = ReplyData | ReplyDone | ReplyOkay | ReplyFail

  datatype ReplyHeader = ReplyHeader(id: ReplyId, payloadLen: u32)

  /** A sync response: fixed header and the bytes behind it. */
  datatype Reply = Reply(hdr: ReplyHeader, payload: Text)

  function ReplyCode(id: ReplyId): u32 {
    match id
    case ReplyData => ID_DATA
    case ReplyDone => ID_DONE
    case ReplyOkay => ID_OKAY
    case ReplyFail => ID_FAIL
  }

  function ReplyBytes(r: Reply): (b: seq<byte>)
    ensures |b| == 8 + |r.payload|
  {
    LeBytes(ReplyCode(r.hdr.id)) + LeBytes(r.hdr.payloadLen) + r.payload
  }

  function DataResponse(data: Text): Reply {
    Reply(ReplyHeader(ReplyData, |data|), data)
  }

  function DoneResponse(): Reply {
    Reply(ReplyHeader(ReplyDone, 0), [])
  }

  function OkayResponse(): Reply {
    Reply(ReplyHeader(ReplyOkay, 0), [])
  }

  function FailResponse(msg: Text): Reply {
    Reply(ReplyHeader(ReplyFail, |msg|), msg)
  }

  /** A reply as a host reads it: the four letters of its name, the length of what follows, and that. */
  lemma ReplySpelled(r: Reply)
    ensures var b := ReplyBytes(r);
            && b[..4] == (match r.hdr.id
                          case ReplyData => Ascii("DATA")
                          case ReplyDone => Ascii("DONE")
                          case ReplyOkay => Ascii("OKAY")
                          case ReplyFail => Ascii("FAIL"))
            && LeU32(b[4..8]) == r.hdr.payloadLen && b[8..] == r.payload
  {
    hide LeU32, LeBytes;
    FrameIdsSpellTheirNames();
    LeU32OfLeBytes(r.hdr.payloadLen);
    assert ReplyBytes(r)[4..8] == LeBytes(r.hdr.payloadLen);
  }

  datatype SyncStat = SyncStat(id: u32, mode: u32, size: u32, mtime: u32)

  function StatBytes(s: SyncStat): (r: seq<byte>)
    ensures |r| == 16
  {
    LeBytes(s.id) + LeBytes(s.mode) + LeBytes(s.size) + LeBytes(s.mtime)
  }

  /** The four words of a stat reply, as a host reads them. */
  lemma StatWords(s: SyncStat)
    ensures var b := StatBytes(s);
            && LeU32(b[0..4]) == s.id && LeU32(b[4..8]) == s.mode
            && LeU32(b[8..12]) == s.size && LeU32(b[12..16]) == s.mtime
  {
    hide LeU32, LeBytes;
    var b := StatBytes(s);
    assert b[0..4] == LeBytes(s.id) && b[4..8] == LeBytes(s.mode);
    assert b[8..12] == LeBytes(s.size) && b[12..16] == LeBytes(s.mtime);
    LeU32OfLeBytes(s.id);
    LeU32OfLeBytes(s.mode);
    LeU32OfLeBytes(s.size);
    LeU32OfLeBytes(s.mtime);
  }
}
