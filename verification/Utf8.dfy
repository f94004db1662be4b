/** Well-formed UTF-8, which a service name must be (`CStr::to_str` in src/main.rs). */
module Utf8 {
  import opened Basics

  predicate IsTail(b: byte) { 0x80 <= b <= 0xBF }

  /** Well-formed UTF-8 (RFC 3629, section 4). */
  predicate IsUtf8(s: seq<byte>) {
    if s == [] then true
    else if s[0] < 0x80 then IsUtf8(s[1..])
    else if 0xC2 <= s[0] <= 0xDF then |s| >= 2 && IsTail(s[1]) && IsUtf8(s[2..])
    else if 0xE0 <= s[0] <= 0xEF then
      && |s| >= 3 && IsTail(s[1]) && IsTail(s[2])
      && (s[0] == 0xE0 ==> s[1] >= 0xA0) && (s[0] == 0xED ==> s[1] <= 0x9F)
      && IsUtf8(s[3..])
    else if 0xF0 <= s[0] <= 0xF4 then
      && |s| >= 4 && IsTail(s[1]) && IsTail(s[2]) && IsTail(s[3])
      && (s[0] == 0xF0 ==> s[1] >= 0x90) && (s[0] == 0xF4 ==> s[1] <= 0x8F)
      && IsUtf8(s[4..])
    else false
  }

  // ----- Against the encoding of scalar values -----

  /** A Unicode scalar value: a code point that is no surrogate. */
  type Scalar = c: int | 0 <= c < 0xD800 || 0xE000 <= c < 0x11_0000

  /** One scalar value in one to four bytes (RFC 3629, section 3). */
  function EncodeOne(c: Scalar): seq<byte> {
    if c < 0x80 then [c]
    else if c < 0x800 then [0xC0 + c / 0x40, 0x80 + c % 0x40]
    else if c < 0x1_0000 then [0xE0 + c / 0x1000, 0x80 + c / 0x40 % 0x40, 0x80 + c % 0x40]
    else [0xF0 + c / 0x4_0000, 0x80 + c / 0x1000 % 0x40, 0x80 + c / 0x40 % 0x40, 0x80 + c % 0x40]
  }

  function Encode(cs: seq<Scalar>): seq<byte> {
    if cs == [] then [] else EncodeOne(cs[0]) + Encode(cs[1..])
  }

  lemma {:induction false} EncodedIsUtf8(cs: seq<Scalar>)
    ensures IsUtf8(Encode(cs))
  {
    if cs != [] {
      EncodedIsUtf8(cs[1..]);
      OneMore(cs[0], Encode(cs[1..]));
    }
  }

  lemma OneMore(c: Scalar, rest: seq<byte>)
    requires IsUtf8(rest)
    ensures IsUtf8(EncodeOne(c) + rest)
  {
    var s := EncodeOne(c) + rest;
    assert s[|EncodeOne(c)|..] == rest;
    assert forall i :: 0 <= i < |EncodeOne(c)| ==> s[i] == EncodeOne(c)[i];
  }

  lemma By40(q: int, r: int)
    requires 0 <= r < 0x40
    ensures (q * 0x40 + r) / 0x40 == q && (q * 0x40 + r) % 0x40 == r
  {
  }

  lemma By1000(q: int, r: int)
    requires 0 <= r < 0x1000
    ensures (q * 0x1000 + r) / 0x1000 == q
  {
  }

  lemma By40000(q: int, r: int)
    requires 0 <= r < 0x4_0000
    ensures (q * 0x4_0000 + r) / 0x4_0000 == q
  {
  }

  lemma TwoBytes(a: int, b: byte) returns (c: Scalar)
    requires 0xC2 <= a <= 0xDF && IsTail(b)
    ensures EncodeOne(c) == [a, b]
  {
    var x: int, y: int := a - 0xC0, b as int - 0x80;
    c := x * 0x40 + y;
    By40(x, y);
  }

  lemma ThreeBytes(a: int, b: byte, d: byte) returns (c: Scalar)
    requires 0xE0 <= a <= 0xEF && IsTail(b) && IsTail(d)
    requires (a == 0xE0 ==> b >= 0xA0) && (a == 0xED ==> b <= 0x9F)
    ensures EncodeOne(c) == [a, b, d]
  {
    var x: int, y: int, z: int := a - 0xE0, b as int - 0x80, d as int - 0x80;
    c := x * 0x1000 + y * 0x40 + z;
    By1000(x, y * 0x40 + z);
    By40(x * 0x40 + y, z);
    By40(x, y);
  }

  lemma FourBytes(a: int, b: byte, d: byte, e: byte) returns (c: Scalar)
    requires 0xF0 <= a <= 0xF4 && IsTail(b) && IsTail(d) && IsTail(e)
    requires (a == 0xF0 ==> b >= 0x90) && (a == 0xF4 ==> b <= 0x8F)
    ensures EncodeOne(c) == [a, b, d, e]
  {
    var w: int, x: int, y: int, z: int := a - 0xF0, b as int - 0x80, d as int - 0x80, e as int - 0x80;
    c := w * 0x4_0000 + x * 0x1000 + y * 0x40 + z;
    By40000(w, x * 0x1000 + y * 0x40 + z);
    By1000(w * 0x40 + x, y * 0x40 + z);
    By40(w, x);
    By40(w * 0x1000 + x * 0x40 + y, z);
    By40(w * 0x40 + x, y);
  }

  /** The first scalar value of a well-formed string. */
  lemma FirstScalar(s: seq<byte>) returns (c: Scalar, rest: seq<byte>)
    requires s != [] && IsUtf8(s)
    ensures s == EncodeOne(c) + rest && IsUtf8(rest) && |rest| < |s|
  {
    hide EncodeOne;
    if s[0] < 0x80 {
      c, rest := s[0], s[1..];
      OneByte(c);
    } else if s[0] <= 0xDF {
      c := TwoBytes(s[0], s[1]);
      rest := s[2..];
    } else if s[0] <= 0xEF {
      c := ThreeBytes(s[0], s[1], s[2]);
      rest := s[3..];
    } else {
      c := FourBytes(s[0], s[1], s[2], s[3]);
      rest := s[4..];
    }
    assert s == s[..|s| - |rest|] + rest;
    assert EncodeOne(c) == s[..|s| - |rest|];
  }

  lemma OneByte(c: Scalar)
    requires c < 0x80
    ensures EncodeOne(c) == [c]
  {
  }

  lemma {:induction false} Decoded(s: seq<byte>) returns (cs: seq<Scalar>)
    requires IsUtf8(s)
    ensures Encode(cs) == s
    decreases |s|
  {
    cs := [];
    if s != [] {
      var c, rest := FirstScalar(s);
      var tail := Decoded(rest);
      cs := [c] + tail;
      assert cs[1..] == tail;
    }
  }

  /** A byte string is accepted exactly when it encodes some scalar values. */
  lemma Utf8Exactly(s: seq<byte>)
    ensures IsUtf8(s) <==> exists cs: seq<Scalar> :: Encode(cs) == s
  {
    if IsUtf8(s) {
      var cs := Decoded(s);
    }
    forall cs: seq<Scalar> | Encode(cs) == s ensures IsUtf8(s) {
      EncodedIsUtf8(cs);
    }
  }
}
