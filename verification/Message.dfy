/** ADB messages: commands, versions, the 24-byte header and the payload checksum (src/message.rs). */
module Message {
  import opened Basics

  datatype Command = Cnxn | Auth | Open | Okay | Clse | Wrte | Stls

  function CommandCode(c: Command): u32 {
    match c
    case Cnxn => 0x4e58_4e43
    case Auth => 0x4854_5541
    case Open => 0x4e45_504f
    case Okay => 0x5941_4b4f
    case Clse => 0x4553_4c43
    case Wrte => 0x4554_5257
    case Stls => 0x534c_5453
  }

  function CommandOf(v: u32): (c: Option<Command>)
    ensures c.Some? ==> CommandCode(c.value) == v
    ensures c.None? ==> forall d :: CommandCode(d) != v
  {
    if v == 0x4e58_4e43 then Some(Cnxn)
    else if v == 0x4854_5541 then Some(Auth)
    else if v == 0x4e45_504f then Some(Open)
    else if v == 0x5941_4b4f then Some(Okay)
    else if v == 0x4553_4c43 then Some(Clse)
    else if v == 0x4554_5257 then Some(Wrte)
    else if v == 0x534c_5453 then Some(Stls)
    else None
  }

  datatype Version = V0 | V1

  function VersionCode(v: Version): u32 {
    match v case V0 => 0x0100_0000 case V1 => 0x0100_0001
  }

  function VersionOf(v: u32): (r: Option<Version>)
    ensures r.Some? ==> VersionCode(r.value) == v
    ensures r.None? ==> forall w :: VersionCode(w) != v
  {
    if v == 0x0100_0000 then Some(V0) else if v == 0x0100_0001 then Some(V1) else None
  }

  function MaxPayload(v: Version): u32 {
    match v case V0 => 4096 case V1 => 1024 * 1024
  }

  const PROTOCOL_VERSION: Version := V1

  datatype AdbHeader = AdbHeader(
    command: Command, arg0: u32, arg1: u32, dataLength: u32, dataCheck: u32, magic: u32)

  /** The sum of all bytes, as a mathematical integer. */
  function SumBytes(data: seq<byte>): nat {
    if data == [] then 0 else data[0] + SumBytes(data[1..])
  }

  /** The `u32` the daemon computes: the sum, wrapped to 32 bits. */
  function Checksum(data: seq<byte>): u32 {
    SumBytes(data) % 0x1_0000_0000
  }

  lemma {:induction false} SumBytesConcat(a: seq<byte>, b: seq<byte>)
    ensures SumBytes(a + b) == SumBytes(a) + SumBytes(b)
  {
    if a == [] {
      assert a + b == b;
    } else {
      SumBytesConcat(a[1..], b);
      HeadTail(a, b);
    }
  }

  lemma {:induction false} SumBytesBound(data: seq<byte>)
    ensures SumBytes(data) <= 255 * |data|
  {
    if data != [] {
      SumBytesBound(data[1..]);
    }
  }

  lemma {:induction false} SumOfMaxBytes(n: nat)
    ensures SumBytes(seq(n, _ => 255)) == 255 * n
  {
    if n > 0 {
      SumOfMaxBytes(n - 1);
      assert seq(n, _ => 255)[1..] == seq(n - 1, _ => 255);
    }
  }

  /** The longest payload whose byte sum fits 32 bits whatever the bytes are. */
  const CHECKSUM_SAFE_LENGTH: nat := 16_843_009

  /** No payload of length n overflows the checksum exactly up to CHECKSUM_SAFE_LENGTH,
      which is far above the largest payload the protocol negotiates. */
  lemma ChecksumExactLength(n: nat)
    ensures (forall data: seq<byte> :: |data| == n ==> Checksum(data) == SumBytes(data))
            <==> n <= CHECKSUM_SAFE_LENGTH
    ensures MaxPayload(V1) <= CHECKSUM_SAFE_LENGTH
  {
    if n <= CHECKSUM_SAFE_LENGTH {
      forall data: seq<byte> | |data| == n
        ensures Checksum(data) == SumBytes(data)
      {
        SumBytesBound(data);
      }
    } else {
      var worst: seq<byte> := seq(n, _ => 255);
      SumOfMaxBytes(n);
      assert |worst| == n && Checksum(worst) != SumBytes(worst);
    }
  }

  /** Checksums add up over concatenation, modulo 2^32. */
  lemma ChecksumConcat(a: seq<byte>, b: seq<byte>)
    ensures Checksum(a + b) == (Checksum(a) + Checksum(b)) % 0x1_0000_0000
  {
    hide SumBytes;
    SumBytesConcat(a, b);
  }

  function Check(v: Version, payload: seq<byte>): u32 {
    if v == V0 then Checksum(payload) else 0
  }

  function HeaderFromPayload(v: Version, c: Command, arg0: u32, arg1: u32, payload: seq<byte>): AdbHeader
    requires |payload| <= U32_MAX
  {
    AdbHeader(c, arg0, arg1, |payload|, Check(v, payload), U32_MAX - CommandCode(c))
  }

  /** The in-memory form of the `repr(C)` header, which is also its wire form. */
  function HeaderBytes(h: AdbHeader): (r: seq<byte>)
    ensures |r| == 24
  {
    LeBytes(CommandCode(h.command)) + LeBytes(h.arg0) + LeBytes(h.arg1)
    + LeBytes(h.dataLength) + LeBytes(h.dataCheck) + LeBytes(h.magic)
  }

  function Word(b: seq<byte>, i: nat): u32
    requires 4 * i + 4 <= |b|
  {
    LeU32(b[4 * i..4 * i + 4])
  }

  /** Reads a header from the front of the buffer; bytes after the 24th are not looked at. */
  function ParseHeader(b: seq<byte>): Option<AdbHeader> {
    if |b| < 24 then None
    else
      match CommandOf(Word(b, 0))
      case None => None
      case Some(c) =>
        if Word(b, 5) != U32_MAX - CommandCode(c) then None
        else Some(AdbHeader(c, Word(b, 1), Word(b, 2), Word(b, 3), Word(b, 4), Word(b, 5)))
  }

  /** A header whose magic word is the inverse of its command word. */
  predicate GoodMagic(h: AdbHeader) {
    h.magic == U32_MAX - CommandCode(h.command)
  }

  lemma CommandCodeInjective(c: Command)
    ensures CommandOf(CommandCode(c)) == Some(c)
  {
    match c
    case Cnxn => case Auth => case Open => case Okay => case Clse => case Wrte => case Stls =>
  }

  lemma HeaderWords(h: AdbHeader, rest: seq<byte>)
    ensures var b := HeaderBytes(h) + rest;
            && Word(b, 0) == CommandCode(h.command) && Word(b, 1) == h.arg0 && Word(b, 2) == h.arg1
            && Word(b, 3) == h.dataLength && Word(b, 4) == h.dataCheck && Word(b, 5) == h.magic
  {
    var b := HeaderBytes(h) + rest;
    LeU32OfLeBytes(CommandCode(h.command));
    LeU32OfLeBytes(h.arg0);
    LeU32OfLeBytes(h.arg1);
    LeU32OfLeBytes(h.dataLength);
    LeU32OfLeBytes(h.dataCheck);
    LeU32OfLeBytes(h.magic);
    assert b[0..4] == LeBytes(CommandCode(h.command));
    assert b[4..8] == LeBytes(h.arg0);
    assert b[8..12] == LeBytes(h.arg1);
    assert b[12..16] == LeBytes(h.dataLength);
    assert b[16..20] == LeBytes(h.dataCheck);
    assert b[20..24] == LeBytes(h.magic);
  }

  /** Printing then parsing: a header comes back exactly when its magic word is right. */
  lemma ParseOfPrint(h: AdbHeader, rest: seq<byte>)
    ensures ParseHeader(HeaderBytes(h) + rest) == if GoodMagic(h) then Some(h) else None
  {
    HeaderWords(h, rest);
    CommandCodeInjective(h.command);
  }

  /** Parsing then printing: every accepted header re-serialises to the 24 bytes it came from. */
  lemma PrintOfParse(b: seq<byte>)
    requires ParseHeader(b).Some?
    ensures GoodMagic(ParseHeader(b).value)
    ensures HeaderBytes(ParseHeader(b).value) == b[..24]
  {
    var h := ParseHeader(b).value;
    LeBytesOfLeU32(b[0..4]);
    LeBytesOfLeU32(b[4..8]);
    LeBytesOfLeU32(b[8..12]);
    LeBytesOfLeU32(b[12..16]);
    LeBytesOfLeU32(b[16..20]);
    LeBytesOfLeU32(b[20..24]);
    assert b[..24] == b[0..4] + b[4..8] + b[8..12] + b[12..16] + b[16..20] + b[20..24];
  }

  /** Every header the daemon builds is one its own parser returns unchanged. */
  lemma BuiltHeaderParses(v: Version, c: Command, arg0: u32, arg1: u32, payload: seq<byte>, rest: seq<byte>)
    requires |payload| <= U32_MAX
    ensures var h := HeaderFromPayload(v, c, arg0, arg1, payload);
            && ParseHeader(HeaderBytes(h) + rest) == Some(h)
            && h.dataLength == |payload|
            && (v == V1 ==> h.dataCheck == 0)
            && (v == V0 && |payload| <= CHECKSUM_SAFE_LENGTH ==> h.dataCheck == SumBytes(payload))
  {
    ParseOfPrint(HeaderFromPayload(v, c, arg0, arg1, payload), rest);
    ChecksumExactLength(|payload|);
  }
  // ----- As the protocol spells it -----

  function Name(c: Command): (name: seq<byte>)
    ensures |name| == 4
  {
    match c
    case Cnxn => Ascii("CNXN")
    case Auth => Ascii("AUTH")
    case Open => Ascii("OPEN")
    case Okay => Ascii("OKAY")
    case Clse => Ascii("CLSE")
    case Wrte => Ascii("WRTE")
    case Stls => Ascii("STLS")
  }

  lemma StreamCodesSpelled()
    ensures LeBytes(0x4e45_504f) == Ascii("OPEN") && LeBytes(0x5941_4b4f) == Ascii("OKAY")
    ensures LeBytes(0x4553_4c43) == Ascii("CLSE") && LeBytes(0x4554_5257) == Ascii("WRTE")
  {
  }

  lemma LinkCodesSpelled()
    ensures LeBytes(0x4e58_4e43) == Ascii("CNXN") && LeBytes(0x4854_5541) == Ascii("AUTH")
    ensures LeBytes(0x534c_5453) == Ascii("STLS")
  {
  }

  lemma CommandSpelled(c: Command)
    ensures LeBytes(CommandCode(c)) == Name(c)
  {
    hide LeBytes, Ascii;
    StreamCodesSpelled();
    LinkCodesSpelled();
    match c
    case Cnxn => case Auth => case Open => case Okay => case Clse => case Wrte => case Stls =>
  }

  /** Every header the daemon builds: the name of the command, its two arguments, the length of the
      payload, its byte sum modulo 2^32 under V0 and 0 under V1, and the inverse of the name. */
  lemma BuiltHeaderSpelled(v: Version, c: Command, arg0: u32, arg1: u32, payload: seq<byte>)
    requires |payload| <= U32_MAX
    ensures HeaderBytes(HeaderFromPayload(v, c, arg0, arg1, payload))
            == Name(c) + LeBytes(arg0) + LeBytes(arg1) + LeBytes(|payload|)
               + LeBytes(match v case V0 => SumBytes(payload) % 0x1_0000_0000 case V1 => 0)
               + LeBytes(0xFFFF_FFFF - LeU32(Name(c)))
  {
    hide LeBytes, LeU32, SumBytes;
    CommandSpelled(c);
    LeU32OfLeBytes(CommandCode(c));
  }

  /** What is accepted as a header, and as which: 24 bytes or more that open with a command's name
      and carry the inverse of that name as their sixth word. */
  lemma HeaderAcceptedExactly(b: seq<byte>, c: Command)
    ensures (exists h :: ParseHeader(b) == Some(h) && h.command == c)
            <==> |b| >= 24 && b[..4] == Name(c) && LeU32(b[20..24]) == 0xFFFF_FFFF - LeU32(Name(c))
    ensures ParseHeader(b).Some? ==>
      var h := ParseHeader(b).value;
      && h.arg0 == LeU32(b[4..8]) && h.arg1 == LeU32(b[8..12])
      && h.dataLength == LeU32(b[12..16]) && h.dataCheck == LeU32(b[16..20])
  {
    hide LeBytes, LeU32, CommandCode, CommandOf, Name;
    CommandSpelled(c);
    LeU32OfLeBytes(CommandCode(c));
    CommandCodeInjective(c);
    if |b| >= 24 {
      LeBytesOfLeU32(b[..4]);
    }
    if ParseHeader(b).Some? && b[..4] == Name(c) {
      assert ParseHeader(b).value.command == c;
    }
  }
}
