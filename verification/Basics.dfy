/** Bytes, 32-bit words in little-endian form, and the few sequence facts every layer uses. */
module Basics {
  datatype Option<+T> = None | Some(value: T)

  type byte = x: int | 0 <= x < 256
  type u32 = x: int | 0 <= x < 0x1_0000_0000

  const U32_MAX: u32 := 0xFFFF_FFFF

  /** A byte string whose length can be put in a frame or message header with room to spare. */
  type Text = s: seq<byte> | |s| < 0x8000_0000

  function LeBytes(v: u32): (r: seq<byte>)
    ensures |r| == 4
  {
    var a := v / 0x100;
    var b := a / 0x100;
    [v % 0x100, a % 0x100, b % 0x100, b / 0x100]
  }

  function LeU32(b: seq<byte>): u32
    requires |b| == 4
  {
    b[0] as int + 0x100 * (b[1] as int + 0x100 * (b[2] as int + 0x100 * b[3] as int))
  }

  lemma LeU32OfLeBytes(v: u32)
    ensures LeU32(LeBytes(v)) == v
  {
  }

  lemma LeBytesOfLeU32(b: seq<byte>)
    requires |b| == 4
    ensures LeBytes(LeU32(b)) == b
  {
    var v: int := LeU32(b);
    var a: int := b[1] as int + 0x100 * (b[2] as int + 0x100 * b[3] as int);
    assert v == b[0] as int + 0x100 * a;
    assert v / 0x100 == a;
  }

  /** The bytes of an ASCII string. */
  function Ascii(s: string): (r: seq<byte>)
    requires forall i :: 0 <= i < |s| ==> s[i] < 128 as char
    ensures |r| == |s|
    ensures forall i :: 0 <= i < |s| ==> r[i] == s[i] as int
  {
    seq(|s|, i requires 0 <= i < |s| => s[i] as int)
  }

  function Zeros(n: nat): (r: seq<byte>)
    ensures |r| == n
    ensures forall i :: 0 <= i < n ==> r[i] == 0
  {
    seq(n, _ => 0)
  }

  function Min(a: nat, b: nat): nat {
    if a < b then a else b
  }

  lemma Associative<T>(a: seq<T>, b: seq<T>, c: seq<T>)
    ensures a + (b + c) == a + b + c
  {
  }

  lemma HeadTail<T>(a: seq<T>, b: seq<T>)
    requires a != []
    ensures (a + b)[0] == a[0] && (a + b)[1..] == a[1..] + b
  {
  }

  function Concat(xs: seq<seq<byte>>): seq<byte> {
    if xs == [] then [] else xs[0] + Concat(xs[1..])
  }

  lemma {:induction false} ConcatAppend(xs: seq<seq<byte>>, ys: seq<seq<byte>>)
    ensures Concat(xs + ys) == Concat(xs) + Concat(ys)
  {
    if xs == [] {
      assert xs + ys == ys;
    } else {
      ConcatAppend(xs[1..], ys);
      HeadTail(xs, ys);
      Associative(xs[0], Concat(xs[1..]), Concat(ys));
    }
  }
}
