/** The freestanding heap: first fit with splitting, two-sided coalescing,
    size-class caches, a bump arena and mapped slabs. */
module HeapAlloc {
  import opened HeapShape
  import opened HeapMoves

  const SIZE_MAX := ADDRESSES - 1
  /** mmap reports an error as an address in the last page but one byte. */
  const MAP_FAILED := ADDRESSES - 4095

  /** Contents of payload memory; a byte that is absent is indeterminate. */
  type Bytes = map<nat, nat>

  function At(b: Bytes, a: nat): int { if a in b then b[a] else -1 }

  /** Payload bytes survive everywhere but under the given headers. */
  ghost predicate Covered(a: nat, keys: set<nat>) { exists k :: k in keys && k <= a < k + HEADER }

  ghost predicate BytesKept(b: Bytes, c: Bytes, keys: set<nat>) {
    forall a: nat :: !Covered(a, keys) ==> At(c, a) == At(b, a)
  }

  lemma BytesCompose(b: Bytes, c: Bytes, d: Bytes, x: set<nat>, y: set<nat>, all: set<nat>)
    requires BytesKept(b, c, x) && BytesKept(c, d, y) && x <= all && y <= all
    ensures BytesKept(b, d, all)
  {
    forall a: nat | !Covered(a, all)
      ensures At(d, a) == At(b, a)
    {
      assert !Covered(a, x) && !Covered(a, y);
    }
  }

  lemma NothingLost(b: Bytes, keys: set<nat>)
    ensures BytesKept(b, b, keys)
  {
  }

  function Clobbered(b: Bytes, h: nat): Bytes { map a | a in b && !(h <= a < h + HEADER) :: b[a] }

  lemma ClobberedKeeps(b: Bytes, h: nat, keys: set<nat>)
    requires h in keys
    ensures BytesKept(b, Clobbered(b, h), keys)
  {
    forall a: nat | !Covered(a, keys)
      ensures At(Clobbered(b, h), a) == At(b, a)
    {
      assert !(h <= a < h + HEADER);
    }
  }

  /** Size asked for and capacity of every live block, by header address. */
  ghost function LiveBlocks(hs: Headers): map<nat, (nat, nat)> {
    map h | h in hs && hs[h].tag.Live? :: (hs[h].size, hs[h].cap)
  }

  /** The request rounded up to the alignment. */
  function RoundUp(n: nat): (r: nat)
    ensures n <= r < n + 16 && r % 16 == 0
  {
    (n + 15) / 16 * 16
  }

  function SlabBytes(aligned: nat): (r: nat)
    ensures r % 16 == 0 && r >= ARENA_SIZE && r >= aligned + HEADER
  {
    var pages := (aligned + HEADER + 4095) / 4096;
    Times16(256 * pages);
    assert 16 * (256 * pages) == pages * 4096;
    if pages * 4096 < ARENA_SIZE then ARENA_SIZE else pages * 4096
  }

  /** A block of exactly this capacity is cached. */
  predicate IsCached(small: seq<nat>, aligned: nat) {
    aligned <= SMALL_MAX && aligned / 16 < |small| && small[aligned / 16] != 0
  }

  /** Nothing cached or free is large enough. */
  ghost predicate NothingFits(m: Mem, aligned: nat) {
    !IsCached(m.small, aligned) && forall h :: h in m.hs && m.hs[h].tag.Free? ==> m.hs[h].cap < aligned
  }

  predicate ArenaFull(off: nat, aligned: nat) { off > ARENA_SIZE - HEADER || aligned > ARENA_SIZE - HEADER - off }

  /** Node i is the first of the free list that is large enough. */
  ghost predicate FirstFit(hs: Headers, free: seq<nat>, aligned: nat, i: int) {
    && 0 <= i < |free| && free[i] in hs && aligned <= hs[free[i]].cap
    && forall j :: 0 <= j < i && free[j] in hs ==> hs[free[j]].cap < aligned
  }

  // ----- each step of an operation keeps its part of the invariant -----

  ghost predicate Lists(m: Mem, s: Shape) {
    FreeListed(m.hs, m.free, s.free) && SmallListed(m.hs, m.small, s.small) && LiveUnlinked(m.hs)
  }

  /** Taking node i off the free list. */
  lemma UnlinkStep(m: Mem, s: Shape, i: nat)
    requires Tiled(m.hs, s) && Lists(m, s) && Coalesced(m.hs) && i < |s.free|
    ensures FreeNode(m.hs, s.free, i)
    ensures (m.hs[s.free[i]].prevFree == 0 || m.hs[s.free[i]].prevFree in m.hs)
      && (m.hs[s.free[i]].nextFree == 0 || m.hs[s.free[i]].nextFree in m.hs)
    ensures var r := Unlinked(m.hs, s.free[i]);
      && SamePhys(m.hs, r) && Tiled(r, s) && Coalesced(r) && LiveUnlinked(r) && SmallListed(r, m.small, s.small)
      && FreeListed(r, if i == 0 then Nth(s.free, 1) else m.free, Without(s.free, i))
      && r[s.free[i]].tag.Live? && (forall k :: k in r && k != s.free[i] ==> r[k].tag == m.hs[k].tag)
  {
    hide Tiled, SmallListed;
    UnlinkedFreeListed(m.hs, m.free, s.free, i);
    UnlinkedEffect(m.hs, m.free, s.free, i);
    var h, r := s.free[i], Unlinked(m.hs, s.free[i]);
    UnlinkedOthers(m.hs, m.free, s.free, i);
    hide FreeListed, Unlinked;
    SamePhysTiled(m.hs, r, s);
    SmallKept(m.hs, r, m.small, s.small);
  }

  lemma UnlinkedOthers(hs: Headers, head: nat, free: seq<nat>, i: nat)
    requires FreeListed(hs, head, free) && i < |free|
    ensures FreeNode(hs, free, i) && (hs[free[i]].prevFree == 0 || hs[free[i]].prevFree in hs)
      && (hs[free[i]].nextFree == 0 || hs[free[i]].nextFree in hs)
    ensures var r := Unlinked(hs, free[i]); forall k :: k in r && k != free[i] ==>
      r[k].tag == hs[k].tag && (!hs[k].tag.Free? ==> r[k] == hs[k])
  {
    UnlinkedEffect(hs, head, free, i);
    assert FreeNode(hs, free, i);
    assert i > 0 ==> FreeNode(hs, free, i - 1);
    assert i + 1 < |free| ==> FreeNode(hs, free, i + 1);
  }

  /** Putting a live block on the free list. */
  lemma LinkStep(m: Mem, s: Shape, h: nat)
    requires Tiled(m.hs, s) && Lists(m, s) && h in m.hs && m.hs[h].tag.Live?
    ensures h > 0 && (m.free == 0 || m.free in m.hs)
    ensures var r := Linked(m.hs, m.free, h);
      && SamePhys(m.hs, r) && Tiled(r, s) && LiveUnlinked(r) && SmallListed(r, m.small, s.small)
      && FreeListed(r, h, [h] + s.free) && r[h].tag.Free? && (forall k :: k in r && k != h ==> r[k].tag == m.hs[k].tag)
      && (forall k :: k in r && k != h && !r[k].tag.Free? ==> r[k] == m.hs[k])
  {
    hide FreeListed, SmallListed, Linked;
    assert BlockOk(m.hs, s, h);
    hide Tiled, BlockOk;
    LinkedFreeListed(m.hs, m.free, s.free, h);
    var r := Linked(m.hs, m.free, h);
    SamePhysTiled(m.hs, r, s);
    LinkedHead(m.hs, m.free, h);
    SmallKept(m.hs, r, m.small, s.small);
  }

  lemma LinkedHead(hs: Headers, head: nat, h: nat)
    requires h in hs && (head == 0 || (head in hs && hs[head].tag.Free?)) && !hs[h].tag.Free?
    ensures forall k :: k in hs && k != h && !hs[k].tag.Free? ==> Linked(hs, head, h)[k] == hs[k]
  {
  }

  /** Cutting a live block does not disturb the lists. */
  lemma CarveStep(m: Mem, s: Shape, r: Headers, h: nat, cap: nat)
    requires Tiled(m.hs, s) && Lists(m, s) && Coalesced(m.hs) && h in m.hs && m.hs[h].tag.Live? && Splits(m.hs, h, cap)
    requires IsCarved(m.hs, r, h, cap)
    ensures FreeListed(r, m.free, s.free) && SmallListed(r, m.small, s.small) && LiveUnlinked(r) && Coalesced(r)
  {
    var rest, n := h + HEADER + cap, m.hs[h].nextPhys;
    forall k | k in m.hs
      ensures r[k].tag == m.hs[k].tag && r[k].nextFree == m.hs[k].nextFree && r[k].prevFree == m.hs[k].prevFree
      ensures k != h ==> r[k].cap == m.hs[k].cap && r[k].nextPhys == m.hs[k].nextPhys
    {
    }
    forall i | 0 <= i < |s.free|
      ensures FreeNode(r, s.free, i)
    {
      assert FreeNode(m.hs, s.free, i);
    }
    forall k | 0 <= k < CLASSES
      ensures ClassListed(r, m.small[k], s.small[k], k)
    {
      assert ClassListed(m.hs, m.small[k], s.small[k], k);
      forall i | 0 <= i < |s.small[k]|
        ensures ClassNode(r, s.small[k], k, i)
      {
        assert ClassNode(m.hs, s.small[k], k, i);
      }
    }
    forall k | k in r && r[k].tag.Free? && r[k].nextPhys in r
      ensures !r[r[k].nextPhys].tag.Free?
    {
      assert k in m.hs && m.hs[k].tag.Free?;
    }
  }

  /** Merging two live blocks does not disturb the lists. */
  lemma AbsorbStep(m: Mem, s: Shape, r: Headers, g: nat)
    requires Tiled(m.hs, s) && Lists(m, s) && g in m.hs && m.hs[g].nextPhys != 0 && m.hs[g].nextPhys in m.hs
    requires IsAbsorbed(m.hs, r, g) && m.hs[g].tag.Live? && m.hs[m.hs[g].nextPhys].tag.Live?
    ensures FreeListed(r, m.free, s.free) && SmallListed(r, m.small, s.small) && LiveUnlinked(r)
    ensures forall k :: k in r ==> r[k].tag == m.hs[k].tag
    ensures forall k :: k in r && k != g ==>
      r[k].nextPhys == m.hs[k].nextPhys && r[k].cap == m.hs[k].cap && r[k].size == m.hs[k].size
  {
    var h := m.hs[g].nextPhys;
    forall k | k in r
      ensures r[k].tag == m.hs[k].tag && r[k].nextFree == m.hs[k].nextFree && r[k].prevFree == m.hs[k].prevFree
      ensures k != g ==> r[k].cap == m.hs[k].cap && r[k].nextPhys == m.hs[k].nextPhys && r[k].size == m.hs[k].size
    {
    }
    forall i | 0 <= i < |s.free|
      ensures FreeNode(r, s.free, i)
    {
      assert FreeNode(m.hs, s.free, i);
    }
    forall k | 0 <= k < CLASSES
      ensures ClassListed(r, m.small[k], s.small[k], k)
    {
      assert ClassListed(m.hs, m.small[k], s.small[k], k);
      forall i | 0 <= i < |s.small[k]|
        ensures ClassNode(r, s.small[k], k, i)
      {
        assert ClassNode(m.hs, s.small[k], k, i);
      }
    }
  }

  /** Adding a live block. */
  lemma AddStep(m: Mem, s: Shape, r: Headers, at: nat)
    requires Lists(m, s) && Coalesced(m.hs) && at !in m.hs && r.Keys == m.hs.Keys + {at}
    requires r[at].tag.Live? && r[at].prevFree == 0 && r[at].nextFree == 0
    requires forall k :: k in m.hs ==> r[k] == m.hs[k] || (r[k] == m.hs[k].(nextPhys := at) && m.hs[k].nextPhys == 0)
    ensures FreeListed(r, m.free, s.free) && SmallListed(r, m.small, s.small) && LiveUnlinked(r)
    ensures Coalesced(r)
  {
    forall i | 0 <= i < |s.free|
      ensures FreeNode(r, s.free, i)
    {
      assert FreeNode(m.hs, s.free, i);
    }
    forall k | 0 <= k < CLASSES
      ensures ClassListed(r, m.small[k], s.small[k], k)
    {
      assert ClassListed(m.hs, m.small[k], s.small[k], k);
      forall i | 0 <= i < |s.small[k]|
        ensures ClassNode(r, s.small[k], k, i)
      {
        assert ClassNode(m.hs, s.small[k], k, i);
      }
    }
    forall k | k in r && r[k].tag.Free? && r[k].nextPhys in r
      ensures !r[r[k].nextPhys].tag.Free?
    {
      assert k in m.hs && m.hs[k].tag.Free?;
    }
  }

  /** Moving a live block of a class's capacity onto the class's list, and back. */
  lemma CacheStep(m: Mem, s: Shape, h: nat, k: nat)
    requires Tiled(m.hs, s) && Lists(m, s) && Coalesced(m.hs) && h in m.hs && m.hs[h].tag.Live? && k < CLASSES
      && m.hs[h].cap == 16 * k
    ensures var r := m.hs[h := m.hs[h].(tag := Cached, prevFree := 0, nextFree := m.small[k])];
      && SamePhys(m.hs, r) && Tiled(r, s) && Coalesced(r) && LiveUnlinked(r) && FreeListed(r, m.free, s.free)
      && SmallListed(r, m.small[k := h], s.small[k := [h] + s.small[k]])
  {
    var r := m.hs[h := m.hs[h].(tag := Cached, prevFree := 0, nextFree := m.small[k])];
    assert BlockOk(m.hs, s, h);
    SamePhysTiled(m.hs, r, s);
    forall i | 0 <= i < |s.free|
      ensures FreeNode(r, s.free, i)
    {
      assert FreeNode(m.hs, s.free, i);
    }
    var heads, lists := m.small[k := h], s.small[k := [h] + s.small[k]];
    forall j | 0 <= j < CLASSES
      ensures ClassListed(r, heads[j], lists[j], j)
    {
      assert ClassListed(m.hs, m.small[j], s.small[j], j);
      var list := lists[j];
      forall i | 0 <= i < |list|
        ensures ClassNode(r, list, j, i) && (i > 0 && j == k ==> list[i] != h)
      {
        if j != k { assert ClassNode(m.hs, s.small[j], j, i); }
        else if i > 0 { assert ClassNode(m.hs, s.small[j], j, i - 1); }
      }
    }
    forall g | g in r && r[g].tag.Cached?
      ensures r[g].cap <= SMALL_MAX && g in lists[r[g].cap / 16]
    {
      if g != h && r[g].cap / 16 == k {
        var o :| 0 <= o < |s.small[k]| && s.small[k][o] == g;
        assert ([h] + s.small[k])[o + 1] == g;
      }
    }
  }

  lemma UncacheStep(m: Mem, s: Shape, k: nat, n: nat)
    requires Tiled(m.hs, s) && Lists(m, s) && Coalesced(m.hs) && k < CLASSES && m.small[k] != 0
    ensures |s.small[k]| > 0 && m.small[k] in m.hs && m.hs[m.small[k]].tag.Cached? && m.hs[m.small[k]].cap == 16 * k
    ensures var c := m.small[k]; var r := m.hs[c := m.hs[c].(nextFree := 0, tag := Live, size := n)];
      && Tiled(r, s) && Coalesced(r) && LiveUnlinked(r) && FreeListed(r, m.free, s.free)
      && SmallListed(r, m.small[k := m.hs[c].nextFree], s.small[k := s.small[k][1..]])
  {
    var c := m.small[k];
    assert ClassListed(m.hs, m.small[k], s.small[k], k) && ClassNode(m.hs, s.small[k], k, 0);
    var r := m.hs[c := m.hs[c].(nextFree := 0, tag := Live, size := n)];
    var same := m.hs[c := m.hs[c].(nextFree := 0, tag := Live)];
    SamePhysTiled(m.hs, same, s);
    ResizedTiled(same, s, c, n);
    assert r == same[c := same[c].(size := n)];
    var heads, lists := m.small[k := m.hs[c].nextFree], s.small[k := s.small[k][1..]];
    forall i | 0 <= i < |s.free|
      ensures FreeNode(r, s.free, i)
    {
      assert FreeNode(m.hs, s.free, i);
    }
    forall j | 0 <= j < CLASSES
      ensures ClassListed(r, heads[j], lists[j], j)
    {
      assert ClassListed(m.hs, m.small[j], s.small[j], j);
      forall i | 0 <= i < |lists[j]|
        ensures ClassNode(r, lists[j], j, i)
      {
        if j != k { assert ClassNode(m.hs, s.small[j], j, i); }
        else { assert ClassNode(m.hs, s.small[j], j, i + 1) && s.small[k][0] != s.small[k][i + 1]; }
      }
    }
    forall g | g in r && r[g].tag.Cached?
      ensures r[g].cap <= SMALL_MAX && g in lists[r[g].cap / 16]
    {
      if r[g].cap / 16 == k {
        var o :| 0 <= o < |s.small[k]| && s.small[k][o] == g;
        assert s.small[k][1..][o - 1] == g;
      }
    }
  }

  /** The requested size is not part of the tiling. */
  lemma ResizedTiled(hs: Headers, s: Shape, h: nat, n: nat)
    requires Tiled(hs, s) && h in hs
    ensures Tiled(hs[h := hs[h].(size := n)], s)
  {
    var r := hs[h := hs[h].(size := n)];
    forall k | k in r
      ensures BlockOk(r, s, k)
    {
      assert BlockOk(hs, s, k);
    }
    forall q | q in s.ends
      ensures RegionOk(r, s, q)
    {
      assert RegionOk(hs, s, q);
    }
    forall g, k | g in r && k in r
      ensures Ordered(r, g, k)
    {
      assert Ordered(hs, g, k);
    }
  }
}
