/** How a symbol's name and relocations are prepared for an object: inline markers
    are cut from names, relocations may be sorted by offset. */
module GoOrder {
  import opened ByteType
  import opened GoSymbols

  // ----- names -----

  const HASH: Byte := 35
  const MARKER := 12

  function FirstHash(v: Name): (i: nat)
    ensures i <= |v| && (i < |v| ==> v[i] == HASH)
  {
    if v == [] || v[0] == HASH then 0 else 1 + FirstHash(v[1..])
  }

  /** Drops an inline marker: twelve characters between two hash signs. */
  function Trimmed(v: Name): Name {
    var i := FirstHash(v);
    if i == |v| then v else
      var rest := v[i + 1..];
      if |rest| < MARKER + 1 || rest[MARKER] != HASH then v else v[..i] + rest[MARKER + 1..]
  }

  // ----- relocations in order of their offsets -----

  const SIGN := 0x8000_0000

  /** Offsets are signed 32-bit numbers. */
  function Signed(off: nat): int { if off < SIGN then off else off - 2 * SIGN }

  /** After everything that is not larger. */
  function Inserted(rs: seq<Rel>, r: Rel): (ss: seq<Rel>)
    ensures |ss| == |rs| + 1
  {
    if rs == [] || Signed(rs[|rs| - 1].off) <= Signed(r.off) then rs + [r]
    else Inserted(rs[..|rs| - 1], r) + [rs[|rs| - 1]]
  }

  function StableSort(rs: seq<Rel>): (ss: seq<Rel>)
    ensures |ss| == |rs|
  {
    if rs == [] then [] else Inserted(StableSort(rs[..|rs| - 1]), rs[|rs| - 1])
  }

  ghost predicate Ascending(rs: seq<Rel>) {
    forall i, j :: 0 <= i < j < |rs| ==> Signed(rs[i].off) <= Signed(rs[j].off)
  }

  /** The relocations at one offset, in order. */
  function AtOffset(rs: seq<Rel>, off: int): seq<Rel> {
    if rs == [] then []
    else AtOffset(rs[..|rs| - 1], off) + if Signed(rs[|rs| - 1].off) == off then [rs[|rs| - 1]] else []
  }

  lemma AtOffsetMore(rs: seq<Rel>, r: Rel, off: int)
    ensures AtOffset(rs + [r], off) == AtOffset(rs, off) + if Signed(r.off) == off then [r] else []
  {
    assert (rs + [r])[..|rs|] == rs;
  }

  lemma {:induction false} InsertedAt(rs: seq<Rel>, r: Rel, off: int)
    ensures AtOffset(Inserted(rs, r), off) == AtOffset(rs, off) + if Signed(r.off) == off then [r] else []
  {
    hide AtOffset;
    if rs == [] || Signed(rs[|rs| - 1].off) <= Signed(r.off) {
      AtOffsetMore(rs, r, off);
    } else {
      var n := |rs| - 1;
      InsertedAt(rs[..n], r, off);
      AtOffsetMore(Inserted(rs[..n], r), rs[n], off);
      AtOffsetMore(rs[..n], rs[n], off);
      assert rs == rs[..n] + [rs[n]];
    }
  }

  lemma {:induction false} InsertedAll(rs: seq<Rel>, r: Rel)
    ensures multiset(Inserted(rs, r)) == multiset(rs) + multiset{r}
  {
    if rs != [] && Signed(rs[|rs| - 1].off) > Signed(r.off) {
      InsertedAll(rs[..|rs| - 1], r);
      assert rs == rs[..|rs| - 1] + [rs[|rs| - 1]];
    }
  }

  lemma {:induction false} InsertedAscending(rs: seq<Rel>, r: Rel)
    requires Ascending(rs)
    ensures Ascending(Inserted(rs, r))
  {
    if rs != [] && Signed(rs[|rs| - 1].off) > Signed(r.off) {
      var n := |rs| - 1;
      var part := Inserted(rs[..n], r);
      InsertedAscending(rs[..n], r);
      forall i | 0 <= i < |part|
        ensures Signed(part[i].off) <= Signed(rs[n].off)
      {
        InsertedFrom(rs[..n], r, i);
      }
    }
  }

  lemma {:induction false} InsertedFrom(rs: seq<Rel>, r: Rel, i: nat)
    requires i < |Inserted(rs, r)|
    ensures Inserted(rs, r)[i] == r || Inserted(rs, r)[i] in rs
  {
    if rs != [] && Signed(rs[|rs| - 1].off) > Signed(r.off) && i < |rs| { InsertedFrom(rs[..|rs| - 1], r, i); }
  }

  /** Sorting puts the relocations in order of their offsets, keeps them all, and
      keeps the order of those at one offset. */
  lemma {:induction false} StableSorted(rs: seq<Rel>, off: int)
    ensures Ascending(StableSort(rs)) && multiset(StableSort(rs)) == multiset(rs)
    ensures AtOffset(StableSort(rs), off) == AtOffset(rs, off)
  {
    hide Inserted;
    if rs != [] {
      var n := |rs| - 1;
      StableSorted(rs[..n], off);
      InsertedAscending(StableSort(rs[..n]), rs[n]);
      InsertedAll(StableSort(rs[..n]), rs[n]);
      InsertedAt(StableSort(rs[..n]), rs[n], off);
      assert rs == rs[..n] + [rs[n]];
    }
  }

  /** No relocation is lost or added. */
  lemma SortedSame(rs: seq<Rel>, r: Rel)
    ensures r in StableSort(rs) <==> r in rs
  {
    StableSorted(rs, 0);
    assert r in StableSort(rs) <==> r in multiset(StableSort(rs));
    assert r in rs <==> r in multiset(rs);
  }
}
