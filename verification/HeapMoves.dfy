/** How the allocator recuts memory: splitting a block, absorbing a neighbour,
    opening a block at the end of the arena or a new slab. */
module HeapMoves {
  import opened HeapShape

  // ----- split -----

  predicate Splits(hs: Headers, h: nat, cap: nat)
    requires h in hs
  {
    cap + HEADER + 16 <= hs[h].cap
  }

  /** Block h cut down to `cap`, the rest a block of its own (not yet listed). */
  function Carved(hs: Headers, h: nat, cap: nat): (r: Headers)
    requires h in hs && Splits(hs, h, cap) && (hs[h].nextPhys == 0 || hs[h].nextPhys in hs)
    ensures r.Keys == hs.Keys + {h + HEADER + cap}
  {
    var x, rest := hs[h], h + HEADER + cap;
    var a := hs[rest := Header(0, x.cap - cap - HEADER, h, x.nextPhys, 0, 0, Live)];
    var b := if x.nextPhys != 0 then a[x.nextPhys := a[x.nextPhys].(prevPhys := rest)] else a;
    b[h := b[h].(nextPhys := rest, cap := cap)]
  }

  /** Outside every block's header, nothing is a header. */
  lemma InsideIsFresh(hs: Headers, s: Shape, h: nat, a: nat)
    requires Tiled(hs, s) && h in hs && h < a < End(hs, h)
    ensures a !in hs
  {
    assert a in hs ==> Ordered(hs, h, a);
  }

  /** What a split changes, block by block. */
  ghost predicate IsCarved(hs: Headers, r: Headers, h: nat, cap: nat)
    requires h in hs && Splits(hs, h, cap)
  {
    var rest, n := h + HEADER + cap, hs[h].nextPhys;
    && rest !in hs && n != h && n != rest && r.Keys == hs.Keys + {rest}
    && r[rest] == Header(0, hs[h].cap - cap - HEADER, h, n, 0, 0, Live)
    && r[h] == hs[h].(nextPhys := rest, cap := cap)
    && (n != 0 ==> n in hs && r[n] == hs[n].(prevPhys := rest))
    && forall k :: k in hs && k != h && (n == 0 || k != n) ==> r[k] == hs[k]
  }

  lemma CarvedAt(hs: Headers, s: Shape, h: nat, cap: nat)
    requires Tiled(hs, s) && h in hs && Splits(hs, h, cap)
    ensures hs[h].nextPhys == 0 || hs[h].nextPhys in hs
    ensures IsCarved(hs, Carved(hs, h, cap), h, cap)
  {
    assert BlockOk(hs, s, h);
    InsideIsFresh(hs, s, h, h + HEADER + cap);
  }

  lemma Aligned(h: nat, a: nat, b: nat)
    requires h % 16 == 0 && a % 16 == 0 && b % 16 == 0
    ensures (h + HEADER + a) % 16 == 0 && (b >= a + HEADER ==> (b - a - HEADER) % 16 == 0)
  {
    var i, j, k := h / 16, a / 16, b / 16;
    assert h == 16 * i && a == 16 * j && b == 16 * k;
    Times16(i + 4 + j);
    Times16(k - j - 4);
  }

  lemma Times16(k: int)
    ensures (16 * k) % 16 == 0
  {
  }

  lemma CarvedBlock(hs: Headers, s: Shape, r: Headers, h: nat, cap: nat, k: nat)
    requires Tiled(hs, s) && h in hs && Splits(hs, h, cap) && cap % 16 == 0 && IsCarved(hs, r, h, cap) && k in r
    ensures BlockOk(r, s.(home := s.home[h + HEADER + cap := s.home[h]]), k)
  {
    var rest := h + HEADER + cap;
    assert BlockOk(hs, s, h);
    Aligned(h, cap, hs[h].cap);
    if k != rest {
      assert BlockOk(hs, s, k);
      NeighboursDiffer(hs, s, k, h);
    }
  }

  lemma CarvedTiled(hs: Headers, s: Shape, r: Headers, h: nat, cap: nat)
    requires Tiled(hs, s) && h in hs && Splits(hs, h, cap) && cap % 16 == 0 && IsCarved(hs, r, h, cap)
    ensures Tiled(r, s.(home := s.home[h + HEADER + cap := s.home[h]]))
  {
    hide BlockOk;
    var rest := h + HEADER + cap;
    var t := s.(home := s.home[rest := s.home[h]]);
    forall k | k in r
      ensures BlockOk(r, t, k)
    {
      CarvedBlock(hs, s, r, h, cap, k);
    }
    forall q | q in t.ends
      ensures RegionOk(r, t, q)
    {
      assert RegionOk(hs, s, q);
    }
    forall g, k | g in r && k in r
      ensures Ordered(r, g, k)
    {
      if g in hs { assert Ordered(hs, h, g) && Ordered(hs, g, h); }
      if k in hs { assert Ordered(hs, h, k) && Ordered(hs, k, h); }
      if g in hs && k in hs { assert Ordered(hs, g, k); }
      if g == rest {
        assert End(r, g) == End(hs, h);
      } else if g == h {
        assert End(r, g) == rest;
      } else {
        assert r[g].cap == hs[g].cap;
      }
    }
    forall q, v | q in t.ends && v in t.ends
      ensures RegionsOrdered(t.ends, q, v)
    {
      assert RegionsOrdered(s.ends, q, v);
    }
  }

  /** Only h's successor has h as predecessor, only its predecessor has it as successor. */
  lemma NeighboursDiffer(hs: Headers, s: Shape, k: nat, h: nat)
    requires Tiled(hs, s) && k in hs && h in hs
    ensures hs[k].nextPhys != 0 && hs[k].nextPhys == hs[h].nextPhys ==> k == h
    ensures hs[k].prevPhys != 0 && hs[k].prevPhys == hs[h].prevPhys ==> k == h
    ensures hs[k].nextPhys == h ==> hs[h].prevPhys == k
    ensures k != 0 && hs[k].prevPhys == h ==> hs[h].nextPhys == k
  {
    assert BlockOk(hs, s, k) && BlockOk(hs, s, h);
  }

  // ----- merge -----

  /** Block g together with the block after it. */
  function Absorbed(hs: Headers, g: nat): (r: Headers)
    requires g in hs && hs[g].nextPhys in hs && hs[g].nextPhys != g
    requires hs[hs[g].nextPhys].nextPhys == 0 || hs[hs[g].nextPhys].nextPhys in hs
  {
    var h := hs[g].nextPhys;
    var n := hs[h].nextPhys;
    var a := hs[g := hs[g].(cap := hs[g].cap + HEADER + hs[h].cap, nextPhys := n)];
    var b := if n != 0 then a[n := a[n].(prevPhys := g)] else a;
    b - {h}
  }

  /** What a merge of g with its successor changes, block by block. */
  ghost predicate IsAbsorbed(hs: Headers, r: Headers, g: nat)
    requires g in hs && hs[g].nextPhys in hs
  {
    var h := hs[g].nextPhys;
    var n := hs[h].nextPhys;
    && h != g && n != g && n != h && r.Keys == hs.Keys - {h}
    && r[g] == hs[g].(cap := hs[g].cap + HEADER + hs[h].cap, nextPhys := n)
    && (n != 0 ==> n in hs && r[n] == hs[n].(prevPhys := g))
    && forall k :: k in r && k != g && (n == 0 || k != n) ==> r[k] == hs[k]
  }

  lemma AbsorbedAt(hs: Headers, s: Shape, g: nat)
    requires Tiled(hs, s) && g in hs && hs[g].nextPhys != 0
    ensures hs[g].nextPhys in hs && hs[g].nextPhys != g
    ensures hs[hs[g].nextPhys].nextPhys == 0 || hs[hs[g].nextPhys].nextPhys in hs
    ensures IsAbsorbed(hs, Absorbed(hs, g), g)
  {
    assert BlockOk(hs, s, g);
    assert BlockOk(hs, s, hs[g].nextPhys);
  }

  lemma AbsorbedBlock(hs: Headers, s: Shape, r: Headers, g: nat, k: nat)
    requires Tiled(hs, s) && g in hs && hs[g].nextPhys != 0 && hs[g].nextPhys in hs && IsAbsorbed(hs, r, g) && k in r
    ensures BlockOk(r, s.(home := s.home - {hs[g].nextPhys}), k)
  {
    var h := hs[g].nextPhys;
    assert BlockOk(hs, s, g) && BlockOk(hs, s, h);
    Aligned(hs[g].cap, hs[h].cap, 0);
    assert BlockOk(hs, s, k);
    NeighboursDiffer(hs, s, k, g);
    NeighboursDiffer(hs, s, k, h);
  }

  lemma AbsorbedOrder(hs: Headers, s: Shape, r: Headers, g: nat)
    requires Tiled(hs, s) && g in hs && hs[g].nextPhys != 0 && hs[g].nextPhys in hs && IsAbsorbed(hs, r, g)
    requires hs[g].nextPhys == End(hs, g)
    ensures forall a, b {:trigger Ordered(r, a, b)} :: a in r && b in r ==> Ordered(r, a, b)
  {
    var h := hs[g].nextPhys;
    forall a, b | a in r && b in r
      ensures Ordered(r, a, b)
    {
      assert Ordered(hs, a, b) && Ordered(hs, h, b) && Ordered(hs, b, h) && Ordered(hs, g, b);
      assert b != h && a != h;
      if a == g {
        assert End(r, a) == End(hs, h);
      } else {
        assert r[a].cap == hs[a].cap;
      }
    }
  }

  lemma NextBlock(hs: Headers, s: Shape, g: nat)
    requires Tiled(hs, s) && g in hs && hs[g].nextPhys != 0
    ensures hs[g].nextPhys in hs && hs[g].nextPhys == End(hs, g) && hs[g].nextPhys != s.home[hs[g].nextPhys]
  {
    assert BlockOk(hs, s, g);
    assert BlockOk(hs, s, hs[g].nextPhys);
  }

  lemma AbsorbedTiled(hs: Headers, s: Shape, r: Headers, g: nat)
    requires Tiled(hs, s) && g in hs && hs[g].nextPhys != 0 && hs[g].nextPhys in hs && IsAbsorbed(hs, r, g)
    ensures Tiled(r, s.(home := s.home - {hs[g].nextPhys}))
  {
    hide BlockOk, Ordered;
    var h := hs[g].nextPhys;
    var t := s.(home := s.home - {h});
    NextBlock(hs, s, g);
    AbsorbedOrder(hs, s, r, g);
    forall k | k in r
      ensures BlockOk(r, t, k)
    {
      AbsorbedBlock(hs, s, r, g, k);
    }
    forall q | q in t.ends
      ensures RegionOk(r, t, q)
    {
      assert RegionOk(hs, s, q);
    }
    forall q, v | q in t.ends && v in t.ends
      ensures RegionsOrdered(t.ends, q, v)
    {
      assert RegionsOrdered(s.ends, q, v);
    }
  }

  // ----- new blocks -----

  /** A block appended after the last one of the arena (or opening it, if last == 0). */
  function Appended(hs: Headers, last: nat, at: nat, x: Header): (r: Headers)
    requires last == 0 || last in hs
    ensures r.Keys == hs.Keys + {at}
  {
    var a := hs[at := x];
    if last != 0 then a[last := a[last].(nextPhys := at)] else a
  }

  ghost function Grown(s: Shape, arena: nat, at: nat, end: nat): Shape {
    s.(home := s.home[at := arena], ends := s.ends[arena := end])
  }

  /** No region reaches into [lo, hi). */
  ghost predicate Vacant(s: Shape, lo: nat, hi: nat) { forall r :: r in s.ends ==> s.ends[r] <= lo || hi <= r }

  /** The arena's part of the invariant that an append relies on. */
  ghost predicate AtEnd(hs: Headers, s: Shape, arena: nat, off: nat, last: nat) {
    && arena > 0 && arena % 16 == 0 && off % 16 == 0 && (last == 0 <==> off == 0) && (arena in s.ends <==> off > 0)
    && (off > 0 ==> s.ends[arena] == arena + off && last in hs && hs[last].nextPhys == 0)
    && (off > 0 ==> last in s.home && s.home[last] == arena)
  }

  lemma AppendedBlock(hs: Headers, s: Shape, arena: nat, off: nat, last: nat, x: Header, k: nat)
    requires Tiled(hs, s) && AtEnd(hs, s, arena, off, last) && x.cap % 16 == 0 && x.prevPhys == last && x.nextPhys == 0
    requires arena + off !in hs && k in hs.Keys + {arena + off}
    ensures BlockOk(Appended(hs, last, arena + off, x), Grown(s, arena, arena + off, arena + off + HEADER + x.cap), k)
  {
    var at := arena + off;
    if last != 0 { assert BlockOk(hs, s, last); }
    if off > 0 { assert RegionOk(hs, s, arena); }
    if k != at {
      assert BlockOk(hs, s, k);
      if last != 0 { LastIsUnique(hs, s, k, last); }
    }
  }

  lemma AppendedTiled(hs: Headers, s: Shape, arena: nat, off: nat, last: nat, x: Header)
    requires Tiled(hs, s) && AtEnd(hs, s, arena, off, last) && x.cap % 16 == 0 && x.prevPhys == last && x.nextPhys == 0
    requires Vacant(s, arena + off, arena + off + HEADER + x.cap) && arena + off + HEADER + x.cap < ADDRESSES
    ensures Tiled(Appended(hs, last, arena + off, x), Grown(s, arena, arena + off, arena + off + HEADER + x.cap))
    ensures arena + off !in hs
  {
    hide BlockOk;
    var at := arena + off;
    var r, t := Appended(hs, last, at, x), Grown(s, arena, at, at + HEADER + x.cap);
    OutsideIsFresh(hs, s, at, at + HEADER + x.cap);
    RegionsStayOrdered(hs, s, arena, at, at + HEADER + x.cap);
    hide Vacant;
    forall k | k in r
      ensures BlockOk(r, t, k)
    {
      AppendedBlock(hs, s, arena, off, last, x, k);
    }
    forall q | q in t.ends
      ensures RegionOk(r, t, q)
    {
      if q != arena || off > 0 { assert RegionOk(hs, s, q); }
    }
    forall a, b | a in r && b in r
      ensures Ordered(r, a, b)
    {
      if a != at && b != at { assert Ordered(hs, a, b); }
    }
  }

  /** A region may grow into vacant space, and a new one may open there. */
  lemma RegionsStayOrdered(hs: Headers, s: Shape, r: nat, at: nat, end: nat)
    requires Tiled(hs, s) && Vacant(s, at, end) && at < end && r <= at && (r in s.ends ==> s.ends[r] == at)
      && (r !in s.ends ==> r == at)
    ensures forall q, v {:trigger RegionsOrdered(s.ends[r := end], q, v)} ::
      q in s.ends[r := end] && v in s.ends[r := end] ==> RegionsOrdered(s.ends[r := end], q, v)
  {
    var e := s.ends[r := end];
    forall q, v | q in e && v in e
      ensures RegionsOrdered(e, q, v)
    {
      if q in s.ends { assert RegionOk(hs, s, q) && BlockOk(hs, s, q); }
      if v in s.ends { assert RegionOk(hs, s, v) && BlockOk(hs, s, v); }
      if q in s.ends && v in s.ends { assert RegionsOrdered(s.ends, q, v); }
    }
  }

  lemma OutsideIsFresh(hs: Headers, s: Shape, lo: nat, hi: nat)
    requires Tiled(hs, s) && Vacant(s, lo, hi) && lo < hi
    ensures forall k :: k in hs ==> End(hs, k) <= lo || hi <= k
  {
    forall k | k in hs
      ensures End(hs, k) <= lo || hi <= k
    {
      assert BlockOk(hs, s, k);
    }
  }

  /** A region has one last block. */
  lemma LastIsUnique(hs: Headers, s: Shape, k: nat, last: nat)
    requires Tiled(hs, s) && k in hs && last in hs && hs[last].nextPhys == 0
    ensures hs[k].nextPhys == 0 && s.home[k] == s.home[last] ==> k == last
  {
    assert BlockOk(hs, s, k) && BlockOk(hs, s, last) && Ordered(hs, k, last) && Ordered(hs, last, k);
  }

  lemma SlabBlock(hs: Headers, s: Shape, at: nat, x: Header, k: nat)
    requires Tiled(hs, s) && at > 0 && at % 16 == 0 && x.cap % 16 == 0 && at !in s.ends && at !in hs
    requires x.prevPhys == 0 && x.nextPhys == 0 && k in hs.Keys + {at}
    ensures BlockOk(hs[at := x], Grown(s, at, at, at + HEADER + x.cap), k)
  {
    if k != at { assert BlockOk(hs, s, k); }
  }

  lemma SlabTiled(hs: Headers, s: Shape, at: nat, x: Header)
    requires Tiled(hs, s) && at > 0 && at % 16 == 0 && x.cap % 16 == 0 && at !in s.ends
    requires Vacant(s, at, at + HEADER + x.cap) && at + HEADER + x.cap < ADDRESSES && x.prevPhys == 0 && x.nextPhys == 0
    ensures Tiled(hs[at := x], Grown(s, at, at, at + HEADER + x.cap)) && at !in hs
  {
    hide BlockOk;
    var r, t := hs[at := x], Grown(s, at, at, at + HEADER + x.cap);
    OutsideIsFresh(hs, s, at, at + HEADER + x.cap);
    RegionsStayOrdered(hs, s, at, at, at + HEADER + x.cap);
    hide Vacant;
    forall k | k in r
      ensures BlockOk(r, t, k)
    {
      SlabBlock(hs, s, at, x, k);
    }
    forall q | q in t.ends
      ensures RegionOk(r, t, q)
    {
      if q != at { assert RegionOk(hs, s, q); }
    }
    forall a, b | a in r && b in r
      ensures Ordered(r, a, b)
    {
      if a != at && b != at { assert Ordered(hs, a, b); }
    }
  }

  // ----- the blocks cover every region -----

  /** Every address of a region belongs to a block. */
  lemma {:induction false} RegionsAreCovered(hs: Headers, s: Shape, h: nat, a: nat) returns (k: nat)
    requires Tiled(hs, s) && h in hs && s.home[h] in s.ends && h <= a < s.ends[s.home[h]]
    ensures k in hs && s.home[k] == s.home[h] && k <= a < End(hs, k)
    decreases ADDRESSES + a - h
  {
    assert BlockOk(hs, s, h);
    if a < End(hs, h) {
      k := h;
    } else {
      k := RegionsAreCovered(hs, s, hs[h].nextPhys, a);
    }
  }

  /** ... and to one only. */
  lemma BlocksAreDisjoint(hs: Headers, s: Shape, g: nat, h: nat, a: nat)
    requires Tiled(hs, s) && g in hs && h in hs && g <= a < End(hs, g) && h <= a < End(hs, h)
    ensures g == h
  {
    assert Ordered(hs, g, h) && Ordered(hs, h, g);
  }
}
