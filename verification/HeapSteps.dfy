/** The compound steps of the allocator and what each does to the live blocks. */
module HeapSteps {
  import opened HeapShape
  import opened HeapMoves
  import opened HeapAlloc

  /** What holds between the steps of one operation: everything but the merging
      of free neighbours and the sizes. */
  ghost predicate Core(m: Mem, s: Shape, arena: nat) {
    Tiled(m.hs, s) && Lists(m, s) && ArenaOk(m, s, arena)
  }

  predicate InArena(arena: nat, h: nat) { arena <= h && h - arena < ARENA_SIZE }

  predicate IsFree(hs: Headers, h: nat) { h in hs && hs[h].tag.Free? }

  /** The blocks of the arena are the ones at arena addresses. */
  lemma ArenaBlocks(m: Mem, s: Shape, arena: nat, h: nat)
    requires Tiled(m.hs, s) && ArenaOk(m, s, arena) && h in m.hs
    ensures h in s.home && (InArena(arena, h) <==> s.home[h] == arena)
  {
    assert BlockOk(m.hs, s, h);
    assert RegionOk(m.hs, s, s.home[h]);
  }

  /** A live block of the arena without a successor is the last one. */
  lemma LastBlock(m: Mem, s: Shape, arena: nat, h: nat)
    requires Tiled(m.hs, s) && ArenaOk(m, s, arena) && h in m.hs && m.hs[h].nextPhys == 0
    ensures InArena(arena, h) <==> h == m.last
  {
    ArenaBlocks(m, s, arena, h);
    assert BlockOk(m.hs, s, h);
    if InArena(arena, h) {
      LastIsUnique(m.hs, s, h, m.last);
    }
  }

  lemma LinkCoalesced(hs: Headers, s: Shape, head: nat, h: nat)
    requires Tiled(hs, s) && Coalesced(hs) && h in hs && (head == 0 || (head in hs && hs[head].tag.Free?))
      && !IsFree(hs, hs[h].nextPhys) && !IsFree(hs, hs[h].prevPhys)
    ensures Coalesced(Linked(hs, head, h))
  {
    var r := Linked(hs, head, h);
    forall k | k in r && r[k].tag.Free? && r[k].nextPhys in r
      ensures !r[r[k].nextPhys].tag.Free?
    {
      assert BlockOk(hs, s, k) && BlockOk(hs, s, h);
      assert r[k].nextPhys == hs[k].nextPhys;
    }
  }

  /** Linking takes one block out of the live ones. */
  lemma LinkedLive(hs: Headers, head: nat, h: nat)
    requires h in hs && (head == 0 || (head in hs && hs[head].tag.Free?))
    ensures LiveBlocks(Linked(hs, head, h)) == LiveBlocks(hs) - {h}
  {
  }

  lemma UnlinkedLive(hs: Headers, head: nat, free: seq<nat>, i: nat)
    requires FreeListed(hs, head, free) && i < |free|
    ensures FreeNode(hs, free, i) && (hs[free[i]].prevFree == 0 || hs[free[i]].prevFree in hs)
      && (hs[free[i]].nextFree == 0 || hs[free[i]].nextFree in hs)
    ensures LiveBlocks(Unlinked(hs, free[i])) == LiveBlocks(hs)[free[i] := (hs[free[i]].size, hs[free[i]].cap)]
  {
    UnlinkedEffect(hs, head, free, i);
    assert FreeNode(hs, free, i);
    assert i > 0 ==> FreeNode(hs, free, i - 1);
    assert i + 1 < |free| ==> FreeNode(hs, free, i + 1);
  }

  lemma CarvedLive(hs: Headers, r: Headers, h: nat, cap: nat)
    requires h in hs && hs[h].tag.Live? && Splits(hs, h, cap) && IsCarved(hs, r, h, cap)
    ensures LiveBlocks(r) - {h + HEADER + cap} == LiveBlocks(hs)[h := (hs[h].size, cap)]
  {
  }

  lemma AbsorbedLive(hs: Headers, r: Headers, g: nat)
    requires g in hs && hs[g].nextPhys in hs && IsAbsorbed(hs, r, g)
    ensures LiveBlocks(r) - {g} == LiveBlocks(hs) - {g, hs[g].nextPhys}
  {
  }

  /** A block's place among the arena's after a change elsewhere. */
  lemma CarvedArena(m: Mem, s: Shape, arena: nat, r: Headers, h: nat, cap: nat)
    requires Tiled(m.hs, s) && ArenaOk(m, s, arena) && h in m.hs && Splits(m.hs, h, cap) && IsCarved(m.hs, r, h, cap)
    ensures ArenaOk(m.(hs := r, last := if m.hs[h].nextPhys == 0 && InArena(arena, h) then h + HEADER + cap
      else m.last), s.(home := s.home[h + HEADER + cap := s.home[h]]), arena)
  {
    ArenaBlocks(m, s, arena, h);
    assert BlockOk(m.hs, s, h);
    if m.off > 0 && m.last != h && m.hs[h].nextPhys == m.last {
      assert r[m.last].nextPhys == 0;
    }
    if m.off > 0 && m.last == h { ArenaBlocks(m, s, arena, m.last); }
  }

  lemma AbsorbedArena(m: Mem, s: Shape, arena: nat, r: Headers, g: nat)
    requires Tiled(m.hs, s) && ArenaOk(m, s, arena) && g in m.hs && m.hs[g].nextPhys != 0 && m.hs[g].nextPhys in m.hs
      && IsAbsorbed(m.hs, r, g)
    ensures ArenaOk(m.(hs := r, last := if r[g].nextPhys == 0 && InArena(arena, g) then g else m.last),
      s.(home := s.home - {m.hs[g].nextPhys}), arena)
  {
    var h := m.hs[g].nextPhys;
    ArenaBlocks(m, s, arena, g);
    assert BlockOk(m.hs, s, g) && BlockOk(m.hs, s, h);
    if m.hs[h].nextPhys == 0 { LastBlock(m, s, arena, h); ArenaBlocks(m, s, arena, h); }
  }

  lemma SamePhysArena(m: Mem, s: Shape, t: Shape, arena: nat, r: Mem)
    requires ArenaOk(m, s, arena) && SamePhys(m.hs, r.hs) && r.off == m.off && r.last == m.last && t.home == s.home
      && t.ends == s.ends
    ensures ArenaOk(r, t, arena)
  {
  }

  /** The tiling only looks at the regions. */
  lemma TiledRelisted(hs: Headers, s: Shape, t: Shape)
    requires Tiled(hs, s) && t.home == s.home && t.ends == s.ends
    ensures Tiled(hs, t)
  {
    forall h | h in hs
      ensures BlockOk(hs, t, h)
    {
      assert BlockOk(hs, s, h);
    }
    forall q | q in t.ends
      ensures RegionOk(hs, t, q)
    {
      assert RegionOk(hs, s, q);
    }
  }

  /** The recut made by a split, before the remainder is listed. */
  lemma SplitStep(m: Mem, s: Shape, arena: nat, h: nat, cap: nat)
    requires Core(m, s, arena) && Coalesced(m.hs) && h in m.hs && m.hs[h].tag.Live? && cap % 16 == 0
      && Splits(m.hs, h, cap)
    requires !IsFree(m.hs, m.hs[h].nextPhys)
    ensures m.hs[h].nextPhys == 0 || m.hs[h].nextPhys in m.hs
    ensures h in s.home && m.hs[h].nextPhys != h && m.hs[h].nextPhys != h + HEADER + cap
    ensures var rest := h + HEADER + cap; var r := Carved(m.hs, h, cap);
      && Core(m.(hs := r, last := if m.hs[h].nextPhys == 0 && InArena(arena, h) then rest else m.last),
        s.(home := s.home[rest := s.home[h]]), arena)
      && Coalesced(r) && LiveBlocks(r) - {rest} == LiveBlocks(m.hs)[h := (m.hs[h].size, cap)]
      && r[rest].tag.Live? && !IsFree(r, r[rest].nextPhys) && !IsFree(r, r[rest].prevPhys)
      && r[h] == m.hs[h].(nextPhys := rest, cap := cap)
  {
    hide FreeListed, SmallListed, Coalesced, LiveUnlinked, ArenaOk, LiveBlocks;
    assert BlockOk(m.hs, s, h);
    CarvedAt(m.hs, s, h, cap);
    var r, rest := Carved(m.hs, h, cap), h + HEADER + cap;
    hide Tiled, BlockOk, Carved;
    CarvedTiled(m.hs, s, r, h, cap);
    CarveStep(m, s, r, h, cap);
    CarvedLive(m.hs, r, h, cap);
    CarvedArena(m, s, arena, r, h, cap);
    assert r[rest].prevPhys == h;
  }

  lemma UnlinkCore(m: Mem, s: Shape, arena: nat, i: nat)
    requires Core(m, s, arena) && Coalesced(m.hs) && i < |s.free|
    ensures var h := s.free[i];
      && h in m.hs && h > 0 && (m.hs[h].prevFree == 0 || m.hs[h].prevFree in m.hs)
        && (m.hs[h].nextFree == 0 || m.hs[h].nextFree in m.hs)
      && m.hs[h].prevFree != h && m.hs[h].nextFree != h && m.hs[h].tag.Free?
    ensures var h := s.free[i]; var r := Unlinked(m.hs, h);
      && Core(m.(hs := r, free := if m.hs[h].prevFree == 0 then m.hs[h].nextFree else m.free),
        s.(free := Without(s.free, i)), arena)
      && Coalesced(r) && SamePhys(m.hs, r) && r[h].tag.Live?
        && (forall k :: k in r && k != h ==> r[k].tag == m.hs[k].tag)
      && LiveBlocks(r) == LiveBlocks(m.hs)[h := (m.hs[h].size, m.hs[h].cap)]
  {
    UnlinkStep(m, s, i);
    UnlinkedLive(m.hs, m.free, s.free, i);
    UnlinkedEffect(m.hs, m.free, s.free, i);
    assert i > 0 ==> FreeNode(m.hs, s.free, i - 1);
    hide FreeListed, SmallListed, Coalesced, LiveUnlinked, LiveBlocks, Unlinked;
    var h := s.free[i];
    var r := m.(hs := Unlinked(m.hs, h), free := if m.hs[h].prevFree == 0 then m.hs[h].nextFree else m.free);
    TiledRelisted(r.hs, s, s.(free := Without(s.free, i)));
    SamePhysArena(m, s, s.(free := Without(s.free, i)), arena, r);
    hide Tiled, ArenaOk;
  }

  lemma LinkCore(m: Mem, s: Shape, arena: nat, h: nat)
    requires Core(m, s, arena) && h in m.hs && m.hs[h].tag.Live?
    ensures m.free != h && (m.free == 0 || m.free in m.hs)
    ensures var r := Linked(m.hs, m.free, h);
      && Core(m.(hs := r, free := h), s.(free := [h] + s.free), arena)
      && SamePhys(m.hs, r) && r[h].tag.Free? && (forall k :: k in r && k != h ==> r[k].tag == m.hs[k].tag)
      && LiveBlocks(r) == LiveBlocks(m.hs) - {h}
      && (Coalesced(m.hs) && !IsFree(m.hs, m.hs[h].nextPhys) && !IsFree(m.hs, m.hs[h].prevPhys) ==> Coalesced(r))
  {
    LinkStep(m, s, h);
    LinkedFreeListed(m.hs, m.free, s.free, h);
    LinkedLive(m.hs, m.free, h);
    if Coalesced(m.hs) && !IsFree(m.hs, m.hs[h].nextPhys)
      && !IsFree(m.hs, m.hs[h].prevPhys) { LinkCoalesced(m.hs, s, m.free, h); }
    hide FreeListed, SmallListed, Coalesced, LiveUnlinked, LiveBlocks, Linked;
    var r := m.(hs := Linked(m.hs, m.free, h), free := h);
    TiledRelisted(r.hs, s, s.(free := [h] + s.free));
    SamePhysArena(m, s, s.(free := [h] + s.free), arena, r);
    hide Tiled, ArenaOk;
  }

  lemma InvParts(m: Mem, s: Shape, arena: nat)
    ensures Inv(m, s, arena) <==> Core(m, s, arena) && Coalesced(m.hs) && FitsBut(m.hs, 0)
  {
  }

  lemma ResizedFreeListed(hs: Headers, head: nat, free: seq<nat>, h: nat, n: nat)
    requires FreeListed(hs, head, free) && h in hs
    ensures FreeListed(hs[h := hs[h].(size := n)], head, free)
  {
    var r := hs[h := hs[h].(size := n)];
    forall i | 0 <= i < |free|
      ensures FreeNode(r, free, i)
    {
      assert FreeNode(hs, free, i);
    }
  }

  lemma ResizedUnlinked(hs: Headers, h: nat, n: nat)
    requires LiveUnlinked(hs) && h in hs
    ensures LiveUnlinked(hs[h := hs[h].(size := n)])
  {
  }

  /** Changing the size of a live block. */
  lemma SizeCore(m: Mem, s: Shape, arena: nat, h: nat, n: nat)
    requires Core(m, s, arena) && Coalesced(m.hs) && h in m.hs && m.hs[h].tag.Live?
    ensures var r := m.hs[h := m.hs[h].(size := n)];
      Core(m.(hs := r), s, arena) && Coalesced(r) && LiveBlocks(r) == LiveBlocks(m.hs)[h := (n, m.hs[h].cap)]
  {
    var r := m.hs[h := m.hs[h].(size := n)];
    hide Tiled, FreeListed, SmallListed, LiveUnlinked;
    ResizedTiled(m.hs, s, h, n);
    ResizedFreeListed(m.hs, m.free, s.free, h, n);
    SmallKept(m.hs, r, m.small, s.small);
    ResizedUnlinked(m.hs, h, n);
  }

  lemma UncacheCore(m: Mem, s: Shape, arena: nat, k: nat, n: nat)
    requires Core(m, s, arena) && Coalesced(m.hs) && k < CLASSES && k < |m.small| && m.small[k] != 0
    ensures |s.small| == CLASSES && |s.small[k]| > 0 && m.small[k] in m.hs && m.hs[m.small[k]].tag.Cached?
      && m.hs[m.small[k]].cap == 16 * k
    ensures var c := m.small[k]; var r := m.hs[c := m.hs[c].(nextFree := 0, tag := Live, size := n)];
      && Core(m.(hs := r, small := m.small[k := m.hs[c].nextFree]), s.(small := s.small[k := s.small[k][1..]]), arena)
      && Coalesced(r) && LiveBlocks(r) == LiveBlocks(m.hs)[c := (n, 16 * k)]
  {
    UncacheStep(m, s, k, n);
    var c := m.small[k];
    var r := m.hs[c := m.hs[c].(nextFree := 0, tag := Live, size := n)];
    hide FreeListed, SmallListed, Coalesced, LiveUnlinked;
    TiledRelisted(r, s, s.(small := s.small[k := s.small[k][1..]]));
  }

  lemma CacheCore(m: Mem, s: Shape, arena: nat, h: nat, k: nat)
    requires Core(m, s, arena) && Coalesced(m.hs) && h in m.hs && m.hs[h].tag.Live? && k < CLASSES
      && m.hs[h].cap == 16 * k
    ensures |m.small| == CLASSES == |s.small|
    ensures var r := m.hs[h := m.hs[h].(tag := Cached, prevFree := 0, nextFree := m.small[k])];
      && Core(m.(hs := r, small := m.small[k := h]), s.(small := s.small[k := [h] + s.small[k]]), arena)
      && Coalesced(r) && LiveBlocks(r) == LiveBlocks(m.hs) - {h}
  {
    CacheStep(m, s, h, k);
    var r := m.hs[h := m.hs[h].(tag := Cached, prevFree := 0, nextFree := m.small[k])];
    hide FreeListed, SmallListed, Coalesced, LiveUnlinked;
    TiledRelisted(r, s, s.(small := s.small[k := [h] + s.small[k]]));
  }

  /** A fresh live block of the given extent. */
  function NewBlock(n: nat, cap: nat, prev: nat): Header { Header(n, cap, prev, 0, 0, 0, Live) }

  lemma RoomIsVacant(m: Mem, s: Shape, arena: nat, end: nat)
    requires Tiled(m.hs, s) && ArenaOk(m, s, arena) && end <= arena + ARENA_SIZE
    ensures Vacant(s, arena + m.off, end) && AtEnd(m.hs, s, arena, m.off, m.last)
  {
    forall r | r in s.ends
      ensures s.ends[r] <= arena + m.off || end <= r
    {
    }
  }

  lemma RegionIsInhabited(hs: Headers, s: Shape, r: nat)
    requires Tiled(hs, s) && r in s.ends
    ensures r + HEADER <= s.ends[r]
  {
    assert RegionOk(hs, s, r) && BlockOk(hs, s, r);
  }

  lemma BumpArena(m: Mem, s: Shape, arena: nat, x: Header)
    requires Tiled(m.hs, s) && ArenaOk(m, s, arena) && x.cap % 16 == 0 && x.nextPhys == 0
      && m.off + HEADER + x.cap <= ARENA_SIZE
    requires m.last == 0 || m.last in m.hs
    ensures var at := arena + m.off;
      ArenaOk(m.(hs := Appended(m.hs, m.last, at, x), last := at, off := m.off + HEADER + x.cap),
        Grown(s, arena, at, at + HEADER + x.cap), arena)
    ensures (arena + m.off) % 16 == 0
  {
    Aligned(m.off, x.cap, 0);
    Aligned(arena, m.off, 0);
    hide Tiled;
    var at := arena + m.off;
    assert m.last == at ==> m.off > 0;
    if m.off > 0 && m.last == at { LastEndsThere(m, s, arena); }
  }

  lemma LastEndsThere(m: Mem, s: Shape, arena: nat)
    requires Tiled(m.hs, s) && ArenaOk(m, s, arena) && m.off > 0
    ensures m.last < arena + m.off
  {
    assert BlockOk(m.hs, s, m.last);
  }

  lemma AppendedLive(hs: Headers, last: nat, at: nat, x: Header)
    requires (last == 0 || last in hs) && at !in hs && x.tag.Live?
    ensures LiveBlocks(Appended(hs, last, at, x)) == LiveBlocks(hs)[at := (x.size, x.cap)]
  {
  }

  lemma BumpCore(m: Mem, s: Shape, arena: nat, n: nat, cap: nat)
    requires Core(m, s, arena) && Coalesced(m.hs) && cap % 16 == 0 && m.off + HEADER + cap <= ARENA_SIZE
    ensures arena + m.off !in m.hs && (m.last == 0 || m.last in m.hs) && arena + m.off > 0 && (arena + m.off) % 16 == 0
    ensures var at := arena + m.off; var r := Appended(m.hs, m.last, at, NewBlock(n, cap, m.last));
      && Core(m.(hs := r, last := at, off := m.off + HEADER + cap), Grown(s, arena, at, at + HEADER + cap), arena)
      && Coalesced(r) && LiveBlocks(r) == LiveBlocks(m.hs)[at := (n, cap)]
  {
    hide Tiled, FreeListed, SmallListed, Coalesced, LiveUnlinked, LiveBlocks;
    var at, x := arena + m.off, NewBlock(n, cap, m.last);
    RoomIsVacant(m, s, arena, at + HEADER + cap);
    assert (m.last == 0 || m.last in m.hs) && at + HEADER + cap < ADDRESSES && arena > 0;
    AppendedTiled(m.hs, s, arena, m.off, m.last, x);
    BumpArena(m, s, arena, x);
    AppendedLive(m.hs, m.last, at, x);
    hide ArenaOk;
    AddStep(m, s, Appended(m.hs, m.last, at, x), at);
    hide Appended;
  }

  /** A mapping the kernel may hand out: whole, aligned, and clear of the
      arena and of every mapping before it. */
  ghost predicate Mappable(s: Shape, arena: nat, at: nat, bytes: nat) {
    at > 0 && at % 16 == 0 && at + bytes < ADDRESSES && Vacant(s, at, at + bytes)
      && (arena + ARENA_SIZE <= at || at + bytes <= arena)
  }

  lemma SlabCore(m: Mem, s: Shape, arena: nat, at: nat, n: nat, cap: nat)
    requires Core(m, s, arena) && Coalesced(m.hs) && cap % 16 == 0 && Mappable(s, arena, at, HEADER + cap)
    ensures at !in m.hs
    ensures var r := m.hs[at := NewBlock(n, cap, 0)];
      && Core(m.(hs := r), Grown(s, at, at, at + HEADER + cap), arena)
      && Coalesced(r) && LiveBlocks(r) == LiveBlocks(m.hs)[at := (n, cap)]
  {
    hide Tiled, FreeListed, SmallListed, Coalesced, LiveUnlinked;
    if at in s.ends { RegionIsInhabited(m.hs, s, at); }
    SlabTiled(m.hs, s, at, NewBlock(n, cap, 0));
    AddStep(m, s, m.hs[at := NewBlock(n, cap, 0)], at);
  }

  /** Sizes still fit after one live block was given a size that does. */
  lemma FitsAfter(a: Headers, b: Headers, h: nat, n: nat, cap: nat)
    requires FitsBut(a, 0) && LiveBlocks(b) == LiveBlocks(a)[h := (n, cap)] && n <= cap && 0 !in b
    ensures FitsBut(b, 0)
  {
    forall k | k in b && b[k].tag.Live?
      ensures b[k].size <= b[k].cap
    {
      assert k in LiveBlocks(b);
      assert k != h ==> k in LiveBlocks(a);
    }
  }

  lemma LiveIsThere(hs: Headers, h: nat)
    requires h in hs && hs[h].tag.Live?
    ensures LiveBlocks(hs)[h := (hs[h].size, hs[h].cap)] == LiveBlocks(hs)
  {
  }

  /** One more live block, at least as large as asked for. */
  ghost predicate Allocated(before: map<nat, (nat, nat)>, after: map<nat, (nat, nat)>, h: nat, n: nat) {
    h !in before && h in after && n <= after[h].1 && after == before[h := (n, after[h].1)]
  }

  lemma AllocatedInv(a: Headers, m: Mem, s: Shape, arena: nat, h: nat, n: nat)
    requires FitsBut(a, 0) && Allocated(LiveBlocks(a), LiveBlocks(m.hs), h, n) && Core(m, s, arena) && Coalesced(m.hs)
    ensures Inv(m, s, arena) && h > 0 && h % 16 == 0
  {
    assert h in LiveBlocks(m.hs);
    assert BlockOk(m.hs, s, h);
    assert 0 in m.hs ==> BlockOk(m.hs, s, 0);
    hide BlockOk, Core;
    FitsAfter(a, m.hs, h, n, LiveBlocks(m.hs)[h].1);
    InvParts(m, s, arena);
  }

  lemma NoLive(hs: Headers, h: nat)
    requires h !in hs || !hs[h].tag.Live?
    ensures h !in LiveBlocks(hs)
  {
  }

  lemma FreeIsListed(m: Mem, s: Shape, arena: nat, i: nat)
    requires Inv(m, s, arena) && i < |s.free|
    ensures var h := s.free[i];
      h > 0 && IsFree(m.hs, h) && m.hs[h].nextFree == Nth(s.free, i + 1) && !IsFree(m.hs, m.hs[h].nextPhys)
  {
    assert FreeNode(m.hs, s.free, i);
  }

  /** Every free block comes up in a walk of the list. */
  lemma WalkSeesAll(m: Mem, s: Shape, arena: nat, h: nat) returns (i: nat)
    requires Inv(m, s, arena) && IsFree(m.hs, h)
    ensures i < |s.free| && s.free[i] == h
  {
    i :| i < |s.free| && s.free[i] == h;
  }

  /** Nothing has its header at the null address. */
  lemma NullIsNoBlock(m: Mem, s: Shape, arena: nat)
    requires Core(m, s, arena)
    ensures 0 !in m.hs
  {
    assert 0 in m.hs ==> BlockOk(m.hs, s, 0);
  }

  /** The contents of the payloads of the given blocks. */
  ghost predicate PayloadsKept(b: Bytes, c: Bytes, live: map<nat, (nat, nat)>) {
    forall h, a: nat :: h in live && h + HEADER <= a < h + HEADER + live[h].1 ==> At(c, a) == At(b, a)
  }

  /** No header, of the heap before or of the heap after, lies in the payload
      of a block that is live in both. */
  lemma PayloadsSafe(m: Mem, s: Shape, m': Mem, s': Shape, arena: nat, b: Bytes, c: Bytes, live: map<nat, (nat, nat)>)
    requires Inv(m, s, arena) && Inv(m', s', arena) && BytesKept(b, c, m.hs.Keys + m'.hs.Keys)
    requires live.Keys <= LiveBlocks(m.hs).Keys && live.Keys <= LiveBlocks(m'.hs).Keys
    requires forall h :: h in live ==> live[h].1 == m.hs[h].cap == m'.hs[h].cap
    ensures PayloadsKept(b, c, live)
  {
    forall h, a: nat | h in live && h + HEADER <= a < h + HEADER + live[h].1
      ensures At(c, a) == At(b, a)
    {
      assert h in LiveBlocks(m.hs) && h in LiveBlocks(m'.hs);
      PayloadHoldsNoHeader(m.hs, s, h, a);
      PayloadHoldsNoHeader(m'.hs, s', h, a);
      assert !Covered(a, m.hs.Keys + m'.hs.Keys);
    }
  }

  lemma PayloadHoldsNoHeader(hs: Headers, s: Shape, h: nat, a: nat)
    requires Tiled(hs, s) && h in hs && h + HEADER <= a < End(hs, h)
    ensures !Covered(a, hs.Keys)
  {
    forall k | k in hs
      ensures !(k <= a < k + HEADER)
    {
      if k <= a < k + HEADER { BlocksAreDisjoint(hs, s, h, k, a); }
    }
  }

  lemma Unchanged(b: Bytes, live: map<nat, (nat, nat)>)
    ensures PayloadsKept(b, b, live)
  {
  }

  lemma FreeHead(m: Mem, s: Shape, arena: nat)
    requires Inv(m, s, arena)
    ensures m.free == Nth(s.free, 0)
  {
  }

  lemma SmallHeads(m: Mem, s: Shape, arena: nat)
    requires Inv(m, s, arena)
    ensures |m.small| == CLASSES
  {
  }

  lemma AllocatedSafe(m: Mem, s: Shape, m': Mem, s': Shape, arena: nat, b: Bytes, c: Bytes, h: nat, n: nat)
    requires Inv(m, s, arena) && Inv(m', s', arena) && BytesKept(b, c, m'.hs.Keys) && m.hs.Keys <= m'.hs.Keys
    requires Allocated(LiveBlocks(m.hs), LiveBlocks(m'.hs), h, n)
    ensures PayloadsKept(b, c, LiveBlocks(m.hs)) && h % 16 == 0 && (h + HEADER) % 16 == 0
  {
    hide Inv, BytesKept, PayloadsKept;
    assert m.hs.Keys + m'.hs.Keys == m'.hs.Keys;
    assert h in LiveBlocks(m'.hs);
    BlockIsAligned(m', s', arena, h);
    forall k | k in LiveBlocks(m.hs)
      ensures k in LiveBlocks(m'.hs) && m.hs[k].cap == m'.hs[k].cap
    {
      assert LiveBlocks(m'.hs)[k] == LiveBlocks(m.hs)[k];
    }
    PayloadsSafe(m, s, m', s', arena, b, c, LiveBlocks(m.hs));
  }

  lemma BlockIsAligned(m: Mem, s: Shape, arena: nat, h: nat)
    requires Inv(m, s, arena) && h in m.hs
    ensures h > 0 && h % 16 == 0 && (h + HEADER) % 16 == 0 && m.hs[h].cap % 16 == 0
  {
    assert BlockOk(m.hs, s, h);
    Aligned(h, 0, 0);
  }

  lemma FirstFitIsUnique(m: Mem, s: Shape, arena: nat, aligned: nat, i: nat, j: nat)
    requires Inv(m, s, arena) && FirstFit(m.hs, s.free, aligned, i) && FirstFit(m.hs, s.free, aligned, j)
    ensures i == j
  {
  }

  /** A free block has no free neighbour, and its neighbours point back at it. */
  lemma NeighboursOfFree(m: Mem, s: Shape, arena: nat, h: nat)
    requires Core(m, s, arena) && Coalesced(m.hs) && IsFree(m.hs, h)
    ensures !IsFree(m.hs, m.hs[h].nextPhys) && !IsFree(m.hs, m.hs[h].prevPhys)
  {
    NullIsNoBlock(m, s, arena);
    assert BlockOk(m.hs, s, h);
  }

  lemma Neighbours(m: Mem, s: Shape, arena: nat, h: nat)
    requires Core(m, s, arena) && h in m.hs
    ensures h > 0 && h in s.home
      && (m.hs[h].prevPhys != 0 ==>
      m.hs[h].prevPhys in m.hs && m.hs[m.hs[h].prevPhys].nextPhys == h && m.hs[h].prevPhys < h
      && End(m.hs, m.hs[h].prevPhys) == h)
    ensures m.hs[h].nextPhys != 0 ==>
      m.hs[h].nextPhys in m.hs && m.hs[m.hs[h].nextPhys].prevPhys == h && m.hs[h].nextPhys == End(m.hs, h)
    ensures m.hs[h].cap % 16 == 0 && |m.small| == CLASSES
  {
    assert BlockOk(m.hs, s, h);
    if m.hs[h].prevPhys != 0 { assert m.hs[h].prevPhys in m.hs; assert BlockOk(m.hs, s, m.hs[h].prevPhys); }
  }

  /** Merging live block g with the live block after it. */
  lemma AbsorbCore(m: Mem, s: Shape, arena: nat, g: nat)
    requires Core(m, s, arena) && Coalesced(m.hs) && g in m.hs && m.hs[g].nextPhys in m.hs && m.hs[g].nextPhys != 0
    requires m.hs[g].tag.Live? && m.hs[m.hs[g].nextPhys].tag.Live?
    ensures m.hs[g].nextPhys in m.hs && m.hs[g].nextPhys != g
      && (m.hs[m.hs[g].nextPhys].nextPhys == 0 || m.hs[m.hs[g].nextPhys].nextPhys in m.hs)
    ensures var h := m.hs[g].nextPhys; var r := Absorbed(m.hs, g);
      && r.Keys == m.hs.Keys - {h}
        && r[g] == m.hs[g].(cap := m.hs[g].cap + HEADER + m.hs[h].cap, nextPhys := m.hs[h].nextPhys)
      && h != m.hs[h].nextPhys && g != m.hs[h].nextPhys
      && Core(m.(hs := r, last := if r[g].nextPhys == 0 && InArena(arena, g) then g else m.last),
        s.(home := s.home - {h}), arena)
      && Coalesced(r) && LiveBlocks(r) - {g} == LiveBlocks(m.hs) - {g, h}
      && (forall k :: k in r ==> r[k].tag == m.hs[k].tag && (k != g ==> r[k].cap == m.hs[k].cap))
  {
    hide FreeListed, SmallListed, Coalesced, LiveUnlinked, ArenaOk, LiveBlocks, Tiled, Absorbed;
    AbsorbedAt(m.hs, s, g);
    var r := Absorbed(m.hs, g);
    AbsorbedTiled(m.hs, s, r, g);
    AbsorbStep(m, s, r, g);
    AbsorbedLive(m.hs, r, g);
    AbsorbedArena(m, s, arena, r, g);
    AbsorbedCoalesced(m.hs, r, g);
  }

  lemma AbsorbedCoalesced(hs: Headers, r: Headers, g: nat)
    requires Coalesced(hs) && g in hs && hs[g].nextPhys in hs && IsAbsorbed(hs, r, g) && hs[g].tag.Live?
    ensures Coalesced(r)
  {
    forall k | k in r && r[k].tag.Free? && r[k].nextPhys in r
      ensures !r[r[k].nextPhys].tag.Free?
    {
      assert r[k].nextPhys == hs[k].nextPhys;
    }
  }

  lemma FreeHasNode(m: Mem, s: Shape, arena: nat, h: nat) returns (i: nat)
    requires Core(m, s, arena) && IsFree(m.hs, h)
    ensures i < |s.free| && s.free[i] == h
  {
    i :| i < |s.free| && s.free[i] == h;
  }

  lemma FreedLive(l0: map<nat, (nat, nat)>, l1: map<nat, (nat, nat)>, l2: map<nat, (nat, nat)>, g: nat, h: nat, n: nat)
    requires l1 - {g, h} == l0 - {g, h} && l2 - {g, n} == l1 - {g, n}
    requires (g == h || (g !in l0 && h !in l1)) && n !in l0 && n !in l2
    ensures l2 - {g} == l0 - {h}
  {
    forall k
      ensures (k in l2 - {g} <==> k in l0 - {h}) && (k in l2 - {g} ==> (l2 - {g})[k] == (l0 - {h})[k])
    {
      if k in l0 || k in l1 || k in l2 {
        assert k != g && k != h ==> (k in l1 - {g, h} <==> k in l0 - {g, h});
        assert k != g && k != n ==> (k in l2 - {g, n} <==> k in l1 - {g, n});
        assert k in l1 - {g, h} ==> (l1 - {g, h})[k] == (l0 - {g, h})[k];
        assert k in l2 - {g, n} ==> (l2 - {g, n})[k] == (l1 - {g, n})[k];
      }
    }
  }

  /** Block g taken off the free list and extended over h, or h over g. */
  lemma MergedLive(l0: map<nat, (nat, nat)>, l1: map<nat, (nat, nat)>, l2: map<nat, (nat, nat)>, f: nat, x: (nat, nat),
      g: nat, h: nat)
    requires l1 == l0[f := x] && l2 - {g} == l1 - {g, h} && f in {g, h}
    ensures l2 - {g, h} == l0 - {g, h}
  {
    assert l2 - {g, h} == (l2 - {g}) - {h};
    assert (l1 - {g, h}) - {h} == l0 - {g, h};
  }

  /** One live block fewer. */
  lemma FreedInv(a: Headers, m: Mem, s: Shape, arena: nat, h: nat)
    requires FitsBut(a, 0) && LiveBlocks(m.hs) == LiveBlocks(a) - {h} && Core(m, s, arena) && Coalesced(m.hs) && 0 !in a
    ensures Inv(m, s, arena)
  {
    hide Core, Coalesced;
    NullIsNoBlock(m, s, arena);
    forall k | k in m.hs && m.hs[k].tag.Live?
      ensures m.hs[k].size <= m.hs[k].cap
    {
      assert k in LiveBlocks(m.hs) && LiveBlocks(m.hs)[k] == LiveBlocks(a)[k];
    }
    InvParts(m, s, arena);
  }

  lemma FreedSafe(m: Mem, s: Shape, m': Mem, s': Shape, arena: nat, b: Bytes, c: Bytes, h: nat)
    requires Inv(m, s, arena) && Inv(m', s', arena) && BytesKept(b, c, m.hs.Keys) && m'.hs.Keys <= m.hs.Keys
    requires LiveBlocks(m'.hs) == LiveBlocks(m.hs) - {h}
    ensures PayloadsKept(b, c, LiveBlocks(m'.hs))
  {
    hide Inv, BytesKept, PayloadsKept;
    assert m.hs.Keys + m'.hs.Keys == m.hs.Keys;
    forall k | k in LiveBlocks(m'.hs)
      ensures k in LiveBlocks(m.hs) && m.hs[k].cap == m'.hs[k].cap
    {
      assert LiveBlocks(m'.hs)[k] == LiveBlocks(m.hs)[k];
    }
    PayloadsSafe(m, s, m', s', arena, b, c, LiveBlocks(m'.hs));
  }

  /** The arena's last block, once a block without successor is known. */
  lemma CoreLast(m: Mem, s: Shape, arena: nat, l: nat, g: nat)
    requires Core(m.(last := l), s, arena) && g in m.hs && m.hs[g].nextPhys == 0 && InArena(arena, g)
    ensures l == g
  {
    LastBlock(m.(last := l), s, arena, g);
  }

  // ----- contents -----

  /** n bytes moved from s to d, all at once. */
  function Copied(b: Bytes, d: nat, s: nat, n: nat): Bytes {
    if n == 0 then b
    else if s + n - 1 in b then Copied(b, d, s, n - 1)[d + n - 1 := b[s + n - 1]]
    else Copied(b, d, s, n - 1) - {d + n - 1}
  }

  function Zeroed(b: Bytes, d: nat, n: nat): Bytes {
    if n == 0 then b else Zeroed(b, d, n - 1)[d + n - 1 := 0]
  }

  lemma {:induction false} CopiedByte(b: Bytes, d: nat, s: nat, n: nat, a: nat)
    ensures At(Copied(b, d, s, n), a) == if d <= a < d + n then At(b, s + (a - d)) else At(b, a)
  {
    if n > 0 { CopiedByte(b, d, s, n - 1, a); }
  }

  lemma {:induction false} ZeroedByte(b: Bytes, d: nat, n: nat, a: nat)
    ensures At(Zeroed(b, d, n), a) == if d <= a < d + n then 0 else At(b, a)
  {
    if n > 0 { ZeroedByte(b, d, n - 1, a); }
  }

  /** The n bytes at s in b are the n bytes at d in c. */
  ghost predicate SameBytes(b: Bytes, s: nat, c: Bytes, d: nat, n: nat) {
    forall a: nat :: d <= a < d + n ==> At(c, a) == At(b, s + (a - d))
  }

  lemma CopiedAt(b: Bytes, d: nat, s: nat, n: nat)
    ensures SameBytes(b, s, Copied(b, d, s, n), d, n) && WrittenIn(b, Copied(b, d, s, n), d, n)
  {
    forall a: nat
      ensures At(Copied(b, d, s, n), a) == if d <= a < d + n then At(b, s + (a - d)) else At(b, a)
    {
      CopiedByte(b, d, s, n, a);
    }
  }

  lemma ZeroedAt(b: Bytes, d: nat, n: nat)
    ensures (forall a: nat :: d <= a < d + n ==> At(Zeroed(b, d, n), a) == 0) && WrittenIn(b, Zeroed(b, d, n), d, n)
  {
    forall a: nat
      ensures At(Zeroed(b, d, n), a) == if d <= a < d + n then 0 else At(b, a)
    {
      ZeroedByte(b, d, n, a);
    }
  }

  /** Only bytes of [d, d + n) differ. */
  ghost predicate WrittenIn(b: Bytes, c: Bytes, d: nat, n: nat) {
    forall a: nat :: !(d <= a < d + n) ==> At(c, a) == At(b, a)
  }

  /** Writing inside one live payload leaves the others alone. */
  lemma WriteStaysInside(m: Mem, s: Shape, arena: nat, b: Bytes, c: Bytes, h: nat, n: nat)
    requires Inv(m, s, arena) && h in LiveBlocks(m.hs) && n <= LiveBlocks(m.hs)[h].1 && WrittenIn(b, c, h + HEADER, n)
    ensures PayloadsKept(b, c, LiveBlocks(m.hs) - {h})
  {
    var others := LiveBlocks(m.hs) - {h};
    forall k, a: nat | k in others && k + HEADER <= a < k + HEADER + others[k].1
      ensures At(c, a) == At(b, a)
    {
      if h + HEADER <= a < h + HEADER + n { BlocksAreDisjoint(m.hs, s, h, k, a); }
    }
  }

  lemma KeptCompose(b: Bytes, c: Bytes, d: Bytes, x: map<nat, (nat, nat)>, y: map<nat, (nat, nat)>, all: map<nat, (nat,
      nat)>)
    requires PayloadsKept(b, c, x) && PayloadsKept(c, d, y)
    requires forall h :: h in all ==> h in x && h in y && x[h].1 == y[h].1 == all[h].1
    ensures PayloadsKept(b, d, all)
  {
  }

  /** A realloc that moved: the old block's bytes are in the new one. */
  lemma MovedContents(b0: Bytes, b1: Bytes, b2: Bytes, b3: Bytes, live0: map<nat, (nat, nat)>, live1: map<nat, (nat,
      nat)>, g: nat, h: nat, n: nat)
    requires Allocated(live0, live1, g, n) && h in live0 && PayloadsKept(b0, b1, live0)
      && PayloadsKept(b1, b2, live1 - {g}) && PayloadsKept(b2, b3, live1 - {h})
    requires live0[h].1 <= live1[g].1 && SameBytes(b1, h + HEADER, b2, g + HEADER, live0[h].1)
    ensures SameBytes(b0, h + HEADER, b3, g + HEADER, live0[h].1) && PayloadsKept(b0, b3, live0 - {h})
  {
    forall a: nat | g + HEADER <= a < g + HEADER + live0[h].1
      ensures At(b3, a) == At(b0, h + HEADER + (a - (g + HEADER)))
    {
      assert g in live1 - {h} && At(b3, a) == At(b2, a);
    }
    KeptCompose(b0, b1, b2, live0, live1 - {g}, live0);
    KeptCompose(b0, b2, b3, live0, live1 - {h}, live0 - {h});
  }

  // ----- what the invariant gives callers -----

  /** Live payloads are aligned, as large as asked for, disjoint from every
      header and from each other, and inside a region. */
  lemma LivePayloads(m: Mem, s: Shape, arena: nat, g: nat, h: nat, a: nat)
    requires Inv(m, s, arena) && g in LiveBlocks(m.hs) && h in LiveBlocks(m.hs)
    requires g + HEADER <= a < g + HEADER + LiveBlocks(m.hs)[g].1
    ensures (g + HEADER) % 16 == 0 && LiveBlocks(m.hs)[g].0 <= LiveBlocks(m.hs)[g].1 && !Covered(a, m.hs.Keys)
    ensures g != h ==> !(h <= a < h + HEADER + LiveBlocks(m.hs)[h].1)
    ensures g in s.home && s.home[g] in s.ends && s.home[g] <= a < s.ends[s.home[g]] < ADDRESSES
  {
    BlockIsAligned(m, s, arena, g);
    PayloadHoldsNoHeader(m.hs, s, g, a);
    assert BlockOk(m.hs, s, g);
    assert RegionOk(m.hs, s, s.home[g]);
    if g != h && h <= a < End(m.hs, h) { BlocksAreDisjoint(m.hs, s, g, h, a); }
  }

  /** Nothing is lost: every address of the arena's used part and of every slab
      lies in exactly one block, and that block is live or on exactly one list. */
  lemma NothingIsLost(m: Mem, s: Shape, arena: nat, r: nat, a: nat) returns (h: nat)
    requires Inv(m, s, arena) && r in s.ends && r <= a < s.ends[r]
    ensures h in m.hs && h <= a < End(m.hs, h) && (forall k :: k in m.hs && k <= a < End(m.hs, k) ==> k == h)
    ensures m.hs[h].tag.Live? <==> h in LiveBlocks(m.hs)
    ensures m.hs[h].tag.Free? <==> h in s.free
    ensures m.hs[h].tag.Cached? <==> exists k :: 0 <= k < |s.small| && h in s.small[k]
  {
    assert RegionOk(m.hs, s, r);
    h := RegionsAreCovered(m.hs, s, r, a);
    forall k | k in m.hs && k <= a < End(m.hs, k)
      ensures k == h
    {
      BlocksAreDisjoint(m.hs, s, k, h, a);
    }
    ListedByTag(m, s, arena, h);
  }

  lemma ListedByTag(m: Mem, s: Shape, arena: nat, h: nat)
    requires Inv(m, s, arena) && h in m.hs
    ensures m.hs[h].tag.Free? <==> h in s.free
    ensures m.hs[h].tag.Cached? <==> exists k :: 0 <= k < |s.small| && h in s.small[k]
  {
    if h in s.free {
      var i :| 0 <= i < |s.free| && s.free[i] == h;
      assert FreeNode(m.hs, s.free, i);
    }
    if k :| 0 <= k < |s.small| && h in s.small[k] {
      assert ClassListed(m.hs, m.small[k], s.small[k], k);
      var i :| 0 <= i < |s.small[k]| && s.small[k][i] == h;
      assert ClassNode(m.hs, s.small[k], k, i);
    }
  }

  // ----- small facts used by the operations -----

  lemma LiveAt(hs: Headers, h: nat)
    requires h in LiveBlocks(hs)
    ensures h in hs && hs[h].tag.Live? && LiveBlocks(hs)[h] == (hs[h].size, hs[h].cap)
  {
  }

  lemma ResizedSafe(m: Mem, m': Mem, s: Shape, arena: nat, b: Bytes, c: Bytes, h: nat, n: nat)
    requires Inv(m, s, arena) && Inv(m', s, arena) && BytesKept(b, c, m'.hs.Keys) && m'.hs.Keys == m.hs.Keys
      && h in LiveBlocks(m.hs)
    requires LiveBlocks(m'.hs) == LiveBlocks(m.hs)[h := (n, LiveBlocks(m.hs)[h].1)]
    ensures PayloadsKept(b, c, LiveBlocks(m'.hs)) && PayloadsKept(b, c, LiveBlocks(m.hs) - {h})
  {
    hide Inv, BytesKept;
    assert m.hs.Keys + m'.hs.Keys == m'.hs.Keys;
    forall k | k in LiveBlocks(m'.hs)
      ensures k in LiveBlocks(m.hs) && m.hs[k].cap == m'.hs[k].cap
    {
      assert LiveBlocks(m'.hs)[k].1 == LiveBlocks(m.hs)[k].1;
    }
    PayloadsSafe(m, s, m', s, arena, b, c, LiveBlocks(m'.hs));
  }

  lemma MovedLive(live0: map<nat, (nat, nat)>, live1: map<nat, (nat, nat)>, live2: map<nat, (nat, nat)>, g: nat,
      h: nat, n: nat)
    requires Allocated(live0, live1, g, n) && h in live0 && live2 == live1 - {h}
    ensures Allocated(live0 - {h}, live2, g, n)
  {
    assert g != h;
  }

  /** calloc's overflow test, n > SIZE_MAX / size, is exact. */
  lemma ProductOverflows(n: nat, size: nat)
    requires size > 0 && n > SIZE_MAX / size
    ensures n * size > SIZE_MAX
  {
    var q := SIZE_MAX / size;
    assert (q + 1) * size > SIZE_MAX;
    assert n * size == (q + 1) * size + (n - q - 1) * size;
  }

  lemma ProductFits(n: nat, size: nat)
    requires size > 0 && n <= SIZE_MAX / size
    ensures n * size <= SIZE_MAX
  {
    var q := SIZE_MAX / size;
    assert q * size <= SIZE_MAX;
    assert q * size == n * size + (q - n) * size;
  }

  /** Where a released block ends up: block g, which runs to `end`, is the block
      together with its free neighbours. */
  ghost predicate Reclaimed(hs: Headers, h: nat, g: nat, end: nat)
    requires h in hs
  {
    && g == (if IsFree(hs, hs[h].prevPhys) then hs[h].prevPhys else h)
    && end == if IsFree(hs, hs[h].nextPhys) then End(hs, hs[h].nextPhys) else End(hs, h)
  }
}
