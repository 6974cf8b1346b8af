/** Base-128 numbers as Go's encoding/binary and DWARF 5 (section 7.6) write
    them: unsigned, zigzag and two's complement, all within 64 bits. */
module Varint {
  import opened ByteType
  import opened Options

  const TWO63 := 0x8000_0000_0000_0000
  const TWO64 := 0x1_0000_0000_0000_0000

  predicate IsU64(v: int) { 0 <= v < TWO64 }

  predicate IsI64(v: int) { -TWO63 <= v < TWO63 }

  /** The low seven bits first; the top bit says that more follows. */
  function Uleb(v: nat): (b: seq<Byte>)
    ensures |b| > 0
  {
    if v < 128 then [v] else [v % 128 + 128] + Uleb(v / 128)
  }

  /** Group i of seven bits, counted from the lowest. */
  function Group(v: nat, i: nat): nat { if i == 0 then v % 128 else Group(v / 128, i - 1) }

  /** The format: groups of seven bits, lowest first, with bit 7 set on all bytes
      but the last, which is not an empty group unless it is the only one. */
  lemma {:induction false} UlebFormat(v: nat, i: nat)
    requires i < |Uleb(v)|
    ensures Uleb(v)[i] == Group(v, i) + if i < |Uleb(v)| - 1 then 128 else 0
    ensures |Uleb(v)| > 1 ==> Uleb(v)[|Uleb(v)| - 1] != 0
  {
    if v >= 128 {
      if i > 0 { UlebFormat(v / 128, i - 1); } else { UlebFormat(v / 128, 0); }
      if |Uleb(v / 128)| == 1 { assert Uleb(v / 128) == [v / 128]; }
    }
  }

  datatype Num = Num(value: int, len: nat)

  function Pow(k: nat): nat { if k == 0 then 1 else 128 * Pow(k - 1) }

  /** c shifted left by seven bits i times. */
  function Shifted(c: nat, i: nat): nat { c * Pow(i) }

  /** binary.Uvarint from byte i on, x the value of the bytes before: at most
      ten bytes, the tenth at most 1. */
  function Uvarint(b: seq<Byte>, i: nat, x: nat): (r: Option<Num>)
    requires i <= |b|
    ensures r.Some? ==> i < r.value.len <= |b| && r.value.value >= 0
    decreases |b| - i
  {
    if i == |b| || i == 10 then None
    else if b[i] < 128 then (if i == 9 && b[i] > 1 then None else Some(Num(x + Shifted(b[i], i), i + 1)))
    else Uvarint(b, i + 1, x + Shifted(b[i] - 128, i))
  }

  lemma PowersUpToTen()
    ensures Pow(9) == 0x8000_0000_0000_0000 && Pow(10) == 128 * Pow(9)
  {
    assert Pow(1) == 128 && Pow(2) == 16384 && Pow(3) == 2097152 && Pow(4) == 268435456 && Pow(5) == 34359738368;
    assert Pow(6) == 4398046511104 && Pow(7) == 562949953421312 && Pow(8) == 72057594037927936;
  }

  /** What is left to read, i bytes in, of a number below 2^64. */
  lemma {:induction false} UvarintReads(pre: seq<Byte>, v: nat, rest: seq<Byte>, x: nat)
    requires |pre| <= 9 && v * Pow(|pre|) < TWO64 && (|pre| > 0 ==> v > 0)
    ensures Uvarint(pre + Uleb(v) + rest, |pre|, x) == Some(Num(x + v * Pow(|pre|), |pre| + |Uleb(v)|))
    decreases v
  {
    var b, i := pre + Uleb(v) + rest, |pre|;
    PowersUpToTen();
    hide Pow;
    if v < 128 {
      assert b[i] == v;
    } else {
      assert b[i] == v % 128 + 128;
      var q := v / 128;
      DigitsAdd(v, i);
      assert pre + Uleb(v) + rest == (pre + [v % 128 + 128]) + Uleb(q) + rest;
      UvarintReads(pre + [v % 128 + 128], q, rest, x + (v % 128) * Pow(i));
    }
  }

  lemma Digits(q: nat, d: nat, p: nat)
    ensures (128 * q + d) * p == d * p + q * (128 * p) && (q > 0 ==> (128 * q + d) * p >= 128 * p)
  {
    assert (128 * q + d) * p == (128 * q) * p + d * p;
    assert (128 * q) * p == q * (128 * p);
    if q > 0 { assert q * (128 * p) == 128 * p + (q - 1) * (128 * p); }
  }

  lemma DigitsAdd(v: nat, i: nat)
    requires i <= 9 && v >= 128 && v * Pow(i) < TWO64
    ensures v * Pow(i) == (v % 128) * Pow(i) + (v / 128) * Pow(i + 1) && (v / 128) * Pow(i + 1) < TWO64 && i < 9
  {
    assert Pow(i + 1) == 128 * Pow(i);
    PowersUpToTen();
    hide Pow;
    assert v == 128 * (v / 128) + v % 128;
    Digits(v / 128, v % 128, Pow(i));
  }

  /** Reading back what was written, whatever follows. */
  lemma UlebRoundTrip(v: nat, rest: seq<Byte>)
    requires IsU64(v)
    ensures Uvarint(Uleb(v) + rest, 0, 0) == Some(Num(v, |Uleb(v)|))
  {
    assert [] + Uleb(v) + rest == Uleb(v) + rest;
    UvarintReads([], v, rest, 0);
  }

  // ----- zigzag -----

  function Zig(x: int): nat { if x >= 0 then 2 * x else -2 * x - 1 }

  function Unzig(u: nat): int { if u % 2 == 0 then u / 2 else -(u / 2) - 1 }

  lemma ZigRoundTrip(x: int)
    ensures Unzig(Zig(x)) == x && (IsI64(x) ==> IsU64(Zig(x))) && (Zig(x) == 0 <==> x == 0)
  {
  }

  /** Two's complement wrap-around. */
  function Wrap(x: int): (r: int)
    ensures IsI64(r)
  {
    (x + TWO63) % TWO64 - TWO63
  }

  /** A wrapped difference, added back with wrap-around, is exact. */
  lemma WrapRoundTrip(prev: int, v: int)
    requires IsI64(prev) && IsI64(v)
    ensures Wrap(prev + Wrap(v - prev)) == v && (Wrap(v - prev) == 0 <==> v == prev)
  {
  }
}
