/** Numbers of a fixed count of bytes, lowest byte first. */
module LittleEndian {
  import opened ByteType

  function Pow256(k: nat): (p: nat)
    ensures p > 0
  {
    if k == 0 then 1 else 256 * Pow256(k - 1)
  }

  function Le(k: nat, v: nat): (b: seq<Byte>)
    ensures |b| == k
  {
    if k == 0 then [] else [v % 256] + Le(k - 1, v / 256)
  }

  function UnLe(b: seq<Byte>): nat { if b == [] then 0 else b[0] + 256 * UnLe(b[1..]) }

  lemma {:induction false} LeBack(k: nat, v: nat)
    ensures v < Pow256(k) ==> UnLe(Le(k, v)) == v
  {
    if k > 0 {
      assert Le(k, v)[1..] == Le(k - 1, v / 256);
      LeBack(k - 1, v / 256);
      assert v == v % 256 + 256 * (v / 256);
    }
  }

  /** Byte i of v, counted from the lowest. */
  function Digit(v: nat, i: nat): Byte { if i == 0 then v % 256 else Digit(v / 256, i - 1) }

  /** The `width` bytes at `at` are those of v, lowest first. */
  ghost predicate Field(b: seq<Byte>, at: nat, width: nat, v: nat) {
    at + width <= |b| && forall i :: 0 <= i < width ==> b[at + i] == Digit(v, i)
  }

  lemma {:induction false} LeDigits(k: nat, v: nat, i: nat)
    requires i < k
    ensures Le(k, v)[i] == Digit(v, i)
  {
    if i > 0 { LeDigits(k - 1, v / 256, i - 1); }
  }

  /** A number written between other bytes. */
  lemma FieldOf(a: seq<Byte>, k: nat, v: nat, c: seq<Byte>)
    ensures Field(a + Le(k, v) + c, |a|, k, v)
  {
    forall i | 0 <= i < k
      ensures (a + Le(k, v) + c)[|a| + i] == Digit(v, i)
    {
      LeDigits(k, v, i);
    }
  }

  /** A field that is wide enough reads as its number. */
  lemma FieldBack(b: seq<Byte>, at: nat, width: nat, v: nat)
    requires Field(b, at, width, v) && v < Pow256(width)
    ensures at + width <= |b| && UnLe(b[at..at + width]) == v
  {
    forall i | 0 <= i < width
      ensures b[at..at + width][i] == Le(width, v)[i]
    {
      LeDigits(width, v, i);
    }
    assert b[at..at + width] == Le(width, v);
    LeBack(width, v);
  }
}
