/** malloc, free, calloc and realloc over the heap's globals. A store to a
    header clobbers the 64 bytes it occupies, so that "no payload is touched"
    is a statement about addresses. */
module Heap {
  import opened HeapShape
  import opened HeapMoves
  import opened HeapAlloc
  import opened HeapSteps

  class Heap {
    const arena: nat
    var hs: Headers
    var off: nat
    var last: nat
    var free: nat
    var small: seq<nat>
    var bytes: Bytes
    ghost var shape: Shape

    ghost function Globals(): Mem
      reads this
    {
      Mem(hs, off, last, free, small)
    }

    ghost predicate Valid()
      reads this
    {
      Inv(Globals(), shape, arena)
    }

    /** The invariant between steps, for a given last block of the arena. */
    ghost predicate CoreFor(l: nat)
      reads this
    {
      Core(Globals().(last := l), shape, arena)
    }

    ghost predicate CoreOk()
      reads this
    {
      CoreFor(last)
    }

    constructor (at: nat)
      requires at > 0 && at % 16 == 0 && at + ARENA_SIZE < ADDRESSES
      ensures Valid() && arena == at && LiveBlocks(hs) == map[] && off == 0 && shape.ends == map[]
    {
      arena := at;
      hs, off, last, free, small, bytes := map[], 0, 0, 0, seq(CLASSES, _ => 0), map[];
      shape := Shape(map[], map[], [], seq(CLASSES, _ => []));
    }

    /** A store to the header at h. */
    method Put(h: nat, x: Header, ghost was: Bytes, ghost keys: set<nat>)
      requires BytesKept(was, bytes, keys) && h in keys
      modifies this`hs, this`bytes
      ensures hs == old(hs)[h := x] && BytesKept(was, bytes, keys)
    {
      ClobberedKeeps(bytes, h, keys);
      BytesCompose(was, bytes, Clobbered(bytes, h), keys, keys, keys);
      hs := hs[h := x];
      bytes := Clobbered(bytes, h);
    }

    method UnlinkFree(h: nat, ghost i: nat, ghost l: nat)
      requires CoreFor(l) && Coalesced(hs) && i < |shape.free| && shape.free[i] == h
      modifies this`hs, this`free, this`bytes, this`shape
      ensures CoreFor(l) && Coalesced(hs) && SamePhys(old(hs), hs) && h in hs && hs[h].tag.Live?
      ensures forall k :: k in hs && k != h ==> hs[k].tag == old(hs)[k].tag
      ensures LiveBlocks(hs) == old(LiveBlocks(hs))[h := (hs[h].size, hs[h].cap)]
      ensures shape == old(shape).(free := Without(old(shape.free), i))
      ensures BytesKept(old(bytes), bytes, hs.Keys)
    {
      hide Core, Coalesced, BytesKept, LiveBlocks;
      UnlinkCore(Globals().(last := l), shape, arena, i);
      ghost var was, keys := bytes, hs.Keys;
      var p, n := hs[h].prevFree, hs[h].nextFree;
      if p != 0 {
        Put(p, hs[p].(nextFree := n), was, keys);
      } else {
        free := n;
      }
      if n != 0 { Put(n, hs[n].(prevFree := p), was, keys); }
      Put(h, hs[h].(prevFree := 0, nextFree := 0, tag := Live), was, keys);
      shape := shape.(free := Without(shape.free, i));
      assert hs == Unlinked(old(hs), h);
    }

    method LinkFree(h: nat)
      requires CoreOk() && h in hs && hs[h].tag.Live?
      modifies this`hs, this`free, this`bytes, this`shape
      ensures CoreOk() && SamePhys(old(hs), hs) && free == h && IsFree(hs, h)
      ensures forall k :: k in hs && k != h ==> hs[k].tag == old(hs)[k].tag
      ensures old(Coalesced(hs) && !IsFree(hs, hs[h].nextPhys) && !IsFree(hs, hs[h].prevPhys)) ==> Coalesced(hs)
      ensures LiveBlocks(hs) == old(LiveBlocks(hs)) - {h}
      ensures shape == old(shape).(free := [h] + old(shape.free))
      ensures BytesKept(old(bytes), bytes, hs.Keys)
    {
      hide Core, Coalesced, BytesKept, LiveBlocks;
      LinkCore(Globals(), shape, arena, h);
      ghost var was, keys := bytes, hs.Keys;
      Put(h, hs[h].(tag := Tag.Free, prevFree := 0, nextFree := free), was, keys);
      if free != 0 { Put(free, hs[free].(prevFree := h), was, keys); }
      free := h;
      shape := shape.(free := [h] + shape.free);
      assert hs == Linked(old(hs), old(free), h);
    }

    /** Cuts the live block h down to `capacity` when what is left over can
        hold a header and 16 bytes. */
    method SplitBlock(h: nat, capacity: nat)
      requires CoreOk() && Coalesced(hs) && h in hs && hs[h].tag.Live? && capacity % 16 == 0
        && !IsFree(hs, hs[h].nextPhys)
      modifies this`hs, this`last, this`free, this`bytes, this`shape
      ensures CoreOk() && Coalesced(hs) && h in hs && hs[h].tag.Live? && hs[h].size == old(hs)[h].size
      ensures hs[h].cap == if old(Splits(hs, h, capacity)) then capacity else old(hs)[h].cap
      ensures LiveBlocks(hs) == old(LiveBlocks(hs))[h := (hs[h].size, hs[h].cap)]
      ensures old(hs.Keys) <= hs.Keys && shape.ends == old(shape.ends) && BytesKept(old(bytes), bytes, hs.Keys)
    {
      hide Core, Coalesced, BytesKept, LiveBlocks;
      if hs[h].cap < capacity + HEADER + 16 {
        LiveIsThere(hs, h);
        NothingLost(bytes, hs.Keys);
        return;
      }
      SplitStep(Globals(), shape, arena, h, capacity);
      var rest := h + HEADER + capacity;
      ghost var was, keys := bytes, hs.Keys + {rest};
      Put(rest, Header(0, hs[h].cap - capacity - HEADER, h, hs[h].nextPhys, 0, 0, Live), was, keys);
      if hs[rest].nextPhys != 0 {
        Put(hs[rest].nextPhys, hs[hs[rest].nextPhys].(prevPhys := rest), was, keys);
      } else if InArena(arena, h) {
        last := rest;
      }
      Put(h, hs[h].(nextPhys := rest, cap := capacity), was, keys);
      assert hs == Carved(old(hs), h, capacity);
      ghost var mid := bytes;
      shape := shape.(home := shape.home[rest := shape.home[h]]);
      LinkFree(rest);
      BytesCompose(was, mid, bytes, keys, hs.Keys, hs.Keys);
    }

    method TakeCached(k: nat, n: nat) returns (h: nat)
      requires Valid() && k < CLASSES && |small| == CLASSES && small[k] != 0 && n <= 16 * k
      modifies this`hs, this`small, this`bytes, this`shape
      ensures Valid() && h == old(small)[k] && hs.Keys == old(hs.Keys) && shape.ends == old(shape.ends)
      ensures Allocated(old(LiveBlocks(hs)), LiveBlocks(hs), h, n) && LiveBlocks(hs)[h].1 == 16 * k
      ensures BytesKept(old(bytes), bytes, hs.Keys)
    {
      hide Core, Coalesced, BytesKept, LiveBlocks, Inv, FitsBut;
      InvParts(Globals(), shape, arena);
      UncacheCore(Globals(), shape, arena, k, n);
      NothingLost(bytes, hs.Keys);
      h := small[k];
      NoLive(hs, h);
      small := small[k := hs[h].nextFree];
      Put(h, hs[h].(nextFree := 0, tag := Live, size := n), bytes, hs.Keys);
      shape := shape.(small := shape.small[k := shape.small[k][1..]]);
      AllocatedInv(old(hs), Globals(), shape, arena, h, n);
    }

    /** Takes node i of the free list, cut down to the request. */
    method TakeFree(h: nat, n: nat, aligned: nat, ghost i: nat)
      requires Valid() && i < |shape.free| && h == shape.free[i] && aligned % 16 == 0 && n <= aligned && h in hs
        && aligned <= hs[h].cap
      modifies this`hs, this`last, this`free, this`bytes, this`shape
      ensures Valid() && old(hs.Keys) <= hs.Keys && shape.ends == old(shape.ends)
      ensures Allocated(old(LiveBlocks(hs)), LiveBlocks(hs), h, n)
      ensures LiveBlocks(hs)[h].1 == if old(Splits(hs, h, aligned)) then aligned else old(hs)[h].cap
      ensures BytesKept(old(bytes), bytes, hs.Keys)
    {
      hide Core, Coalesced, BytesKept, LiveBlocks, Inv, FitsBut;
      InvParts(Globals(), shape, arena);
      FreeIsListed(Globals(), shape, arena, i);
      NoLive(hs, h);
      ghost var b0 := bytes;
      UnlinkFree(h, i, last);
      ghost var b1, k1 := bytes, hs.Keys;
      SplitBlock(h, aligned);
      BytesCompose(b0, b1, bytes, k1, hs.Keys, hs.Keys);
      SizeCore(Globals(), shape, arena, h, n);
      ghost var keys := hs.Keys;
      Put(h, hs[h].(size := n), b0, keys);
      assert hs.Keys == keys;
      AllocatedInv(old(hs), Globals(), shape, arena, h, n);
    }

    /** Opens a slab of `slab` bytes that the kernel mapped at h. */
    method TakeSlab(h: nat, n: nat, aligned: nat, slab: nat)
      requires Valid() && Mappable(shape, arena, h, slab) && aligned % 16 == 0 && n <= aligned && slab % 16 == 0
        && aligned + HEADER <= slab
      modifies this`hs, this`last, this`free, this`bytes, this`shape
      ensures Valid() && old(hs.Keys) <= hs.Keys && shape.ends == old(shape.ends)[h := h + slab]
      ensures Allocated(old(LiveBlocks(hs)), LiveBlocks(hs), h, n)
      ensures BytesKept(old(bytes), bytes, hs.Keys)
    {
      hide Core, Coalesced, BytesKept, LiveBlocks, Inv, FitsBut;
      InvParts(Globals(), shape, arena);
      var capacity := slab - HEADER;
      Aligned(0, 0, slab);
      SlabCore(Globals(), shape, arena, h, n, capacity);
      NoLive(hs, h);
      ghost var b0, keys := bytes, hs.Keys + {h};
      NothingLost(bytes, keys);
      Put(h, NewBlock(n, capacity, 0), b0, keys);
      shape := Grown(shape, h, h, h + HEADER + capacity);
      ghost var b1 := bytes;
      NullIsNoBlock(Globals(), shape, arena);
      assert hs.Keys == keys;
      SplitBlock(h, aligned);
      BytesCompose(b0, b1, bytes, keys, hs.Keys, hs.Keys);
      AllocatedInv(old(hs), Globals(), shape, arena, h, n);
    }

    /** Opens a block at the end of the arena's used part. */
    method Bump(n: nat, aligned: nat) returns (h: nat)
      requires Valid() && aligned % 16 == 0 && n <= aligned && off + HEADER + aligned <= ARENA_SIZE
      modifies this`hs, this`last, this`off, this`bytes, this`shape
      ensures Valid() && h == arena + old(off) && hs.Keys == old(hs.Keys) + {h}
        && shape.ends == old(shape.ends)[arena := arena + off]
      ensures off == old(off) + HEADER + aligned
      ensures Allocated(old(LiveBlocks(hs)), LiveBlocks(hs), h, n) && LiveBlocks(hs)[h].1 == aligned
      ensures BytesKept(old(bytes), bytes, hs.Keys)
    {
      hide Core, Coalesced, BytesKept, LiveBlocks, Inv, FitsBut;
      InvParts(Globals(), shape, arena);
      BumpCore(Globals(), shape, arena, n, aligned);
      h := arena + off;
      NoLive(hs, h);
      ghost var b0, keys := bytes, hs.Keys + {h};
      NothingLost(bytes, keys);
      Put(h, NewBlock(n, aligned, last), b0, keys);
      if last != 0 { Put(last, hs[last].(nextPhys := h), b0, keys); }
      last := h;
      off := off + HEADER + aligned;
      shape := Grown(shape, arena, h, h + HEADER + aligned);
      AllocatedInv(old(hs), Globals(), shape, arena, h, n);
    }

    /** Walks the free list; h is 0 when nothing on it is large enough. */
    method FindFit(aligned: nat) returns (h: nat, ghost i: nat)
      requires Valid()
      ensures h == 0 <==> forall k :: IsFree(hs, k) ==> hs[k].cap < aligned
      ensures h != 0 ==> i < |shape.free| && h == shape.free[i] && h in hs && aligned <= hs[h].cap
      ensures forall j :: FirstFit(hs, shape.free, aligned, j) ==> h != 0 && h == shape.free[j]
    {
      hide Inv;
      h, i := free, 0;
      FreeHead(Globals(), shape, arena);
      while h != 0
        invariant i <= |shape.free| && h == Nth(shape.free, i)
        invariant forall j :: 0 <= j < i ==> IsFree(hs, shape.free[j]) && hs[shape.free[j]].cap < aligned
        decreases |shape.free| - i
      {
        FreeIsListed(Globals(), shape, arena, i);
        if hs[h].cap >= aligned {
          assert IsFree(hs, h) && FirstFit(hs, shape.free, aligned, i);
          forall j | FirstFit(hs, shape.free, aligned, j)
            ensures h == shape.free[j]
          {
            FirstFitIsUnique(Globals(), shape, arena, aligned, i, j);
          }
          return;
        }
        h, i := hs[h].nextFree, i + 1;
      }
      forall k | IsFree(hs, k)
        ensures hs[k].cap < aligned
      {
        var j := WalkSeesAll(Globals(), shape, arena, k);
        FreeIsListed(Globals(), shape, arena, j);
        if i < |shape.free| { FreeIsListed(Globals(), shape, arena, i); }
      }
      forall j | 0 <= j < |shape.free|
        ensures !FirstFit(hs, shape.free, aligned, j)
      {
        FreeIsListed(Globals(), shape, arena, j);
      }
    }

    method Malloc(n: nat, mapped: nat) returns (r: nat)
      requires Valid() && n <= SIZE_MAX
      requires mapped < MAP_FAILED ==> Mappable(shape, arena, mapped, SlabBytes(RoundUp(n)))
      modifies this
      ensures Valid()
      ensures r == 0 <==>
        n > SIZE_MAX - 15 || (old(NothingFits(Globals(), RoundUp(n)) && ArenaFull(off, RoundUp(n)))
          && (RoundUp(n) > SIZE_MAX - HEADER - 4095 || mapped >= MAP_FAILED))
      ensures r == 0 ==> Globals() == old(Globals()) && shape == old(shape) && bytes == old(bytes)
      ensures r != 0 ==> r >= HEADER && r % 16 == 0 && Allocated(old(LiveBlocks(hs)), LiveBlocks(hs), r - HEADER, n)
      ensures r != 0 && old(IsCached(small, RoundUp(n))) ==> r == old(small)[RoundUp(n) / 16] + HEADER
      ensures r != 0 && !old(IsCached(small, RoundUp(n))) ==>
        forall i :: FirstFit(old(hs), old(shape.free), RoundUp(n), i) ==> r == old(shape.free)[i] + HEADER
      ensures shape.ends == if r == 0 || !old(NothingFits(Globals(), RoundUp(n))) then old(shape.ends)
        else if old(ArenaFull(off, RoundUp(n))) then old(shape.ends)[mapped := mapped + SlabBytes(RoundUp(n))]
        else old(shape.ends)[arena := arena + old(off) + HEADER + RoundUp(n)]
      ensures PayloadsKept(old(bytes), bytes, old(LiveBlocks(hs)))
    {
      hide Inv, Allocated, BytesKept, LiveBlocks, Mappable, PayloadsKept, FirstFit, SlabBytes, RoundUp;
      ghost var m, s := Globals(), shape;
      Unchanged(bytes, LiveBlocks(hs));
      if n > SIZE_MAX - 15 { return 0; }
      var aligned := RoundUp(n);
      SmallHeads(m, s, arena);
      var h: nat;
      if aligned <= SMALL_MAX && small[aligned / 16] != 0 {
        h := TakeCached(aligned / 16, n);
      } else {
        ghost var i: nat;
        h, i := FindFit(aligned);
        assert h == 0 <==> NothingFits(m, aligned);
        if h != 0 {
          TakeFree(h, n, aligned, i);
        } else if ArenaFull(off, aligned) {
          if aligned > SIZE_MAX - HEADER - 4095 { return 0; }
          if mapped >= MAP_FAILED { return 0; }
          h := mapped;
          TakeSlab(h, n, aligned, SlabBytes(aligned));
        } else {
          h := Bump(n, aligned);
        }
      }
      AllocatedSafe(m, s, Globals(), shape, arena, old(bytes), bytes, h, n);
      r := h + HEADER;
    }

    /** Extends live block g over the live block after it; l is the arena's
        last block before, l' after. */
    method Absorb(g: nat, ghost l: nat) returns (ghost l': nat)
      requires CoreFor(l) && Coalesced(hs) && g in hs && hs[g].tag.Live? && hs[g].nextPhys != 0 && hs[g].nextPhys in hs
        && hs[hs[g].nextPhys].tag.Live?
      modifies this`hs, this`bytes, this`shape
      ensures CoreFor(l') && Coalesced(hs) && hs.Keys == old(hs.Keys) - {old(hs[g].nextPhys)} && g in hs
      ensures var x, y := old(hs[g]),
        old(hs[hs[g].nextPhys]); hs[g] == x.(cap := x.cap + HEADER + y.cap, nextPhys := y.nextPhys)
      ensures l' == if hs[g].nextPhys == 0 && InArena(arena, g) then g else l
      ensures LiveBlocks(hs) - {g} == old(LiveBlocks(hs)) - {g, old(hs[g].nextPhys)}
      ensures forall k :: k in hs ==> hs[k].tag == old(hs)[k].tag && (k != g ==> hs[k].cap == old(hs)[k].cap)
      ensures shape.ends == old(shape.ends) && shape.small == old(shape.small) && shape.free == old(shape.free)
      ensures BytesKept(old(bytes), bytes, old(hs.Keys))
    {
      hide Core, Coalesced, BytesKept, LiveBlocks;
      AbsorbCore(Globals().(last := l), shape, arena, g);
      ghost var was, keys := bytes, hs.Keys;
      NothingLost(bytes, keys);
      var h := hs[g].nextPhys;
      Put(g, hs[g].(cap := hs[g].cap + HEADER + hs[h].cap, nextPhys := hs[h].nextPhys), was, keys);
      if hs[h].nextPhys != 0 { Put(hs[h].nextPhys, hs[hs[h].nextPhys].(prevPhys := g), was, keys); }
      hs := hs - {h};
      assert hs == Absorbed(old(hs), g);
      shape := shape.(home := shape.home - {h});
      l' := if hs[g].nextPhys == 0 && InArena(arena, g) then g else l;
    }

    method MergePrev(h: nat) returns (g: nat, ghost l: nat)
      requires CoreOk() && Coalesced(hs) && h in hs && hs[h].tag.Live?
      modifies this`hs, this`free, this`bytes, this`shape
      ensures CoreFor(l) && Coalesced(hs) && g in hs && hs[g].tag.Live? && hs.Keys <= old(hs.Keys) && g in old(hs)
      ensures g == if old(IsFree(hs, hs[h].prevPhys)) then old(hs[h].prevPhys) else h
      ensures hs[g].nextPhys == old(hs[h].nextPhys) && End(hs, g) == old(End(hs, h)) && !IsFree(hs, hs[g].prevPhys)
      ensures IsFree(hs, hs[g].nextPhys) == old(IsFree(hs, hs[h].nextPhys))
      ensures l == if g != h && hs[g].nextPhys == 0 && InArena(arena, g) then g else last
      ensures LiveBlocks(hs) - {g, h} == old(LiveBlocks(hs)) - {g, h} && (g != h ==> h !in hs)
      ensures forall k :: k in hs && k != g ==> hs[k].tag == old(hs)[k].tag && hs[k].cap == old(hs)[k].cap
      ensures shape.ends == old(shape.ends) && shape.small == old(shape.small)
        && BytesKept(old(bytes), bytes, old(hs.Keys))
    {
      hide Core, Coalesced, BytesKept, LiveBlocks;
      ghost var b0 := bytes;
      NothingLost(bytes, hs.Keys);
      Neighbours(Globals(), shape, arena, h);
      NullIsNoBlock(Globals(), shape, arena);
      g, l := h, last;
      if hs[h].prevPhys != 0 && hs[hs[h].prevPhys].tag.Free? {
        g := hs[h].prevPhys;
        NeighboursOfFree(Globals(), shape, arena, g);
        ghost var i := FreeHasNode(Globals(), shape, arena, g);
        UnlinkFree(g, i, last);
        ghost var b1, k1, live1, x := bytes, hs.Keys, LiveBlocks(hs), (hs[g].size, hs[g].cap);
        l := Absorb(g, last);
        MergedLive(old(LiveBlocks(hs)), live1, LiveBlocks(hs), g, x, g, h);
        BytesCompose(b0, b1, bytes, k1, k1, old(hs.Keys));
      }
    }

    method MergeNext(g: nat, ghost l: nat) returns (ghost l': nat, ghost n: nat)
      requires CoreFor(l) && Coalesced(hs) && g in hs && hs[g].tag.Live? && !IsFree(hs, hs[g].prevPhys)
      modifies this`hs, this`free, this`bytes, this`shape
      ensures CoreFor(l') && Coalesced(hs) && g in hs && hs[g].tag.Live? && hs.Keys <= old(hs.Keys)
      ensures n == old(hs[g].nextPhys) && !IsFree(hs, hs[g].nextPhys) && !IsFree(hs, hs[g].prevPhys)
      ensures End(hs, g) == if old(IsFree(hs, hs[g].nextPhys)) then End(old(hs), n) else old(End(hs, g))
      ensures l' == if old(IsFree(hs, hs[g].nextPhys)) && hs[g].nextPhys == 0 && InArena(arena, g) then g else l
      ensures old(IsFree(hs, hs[g].nextPhys)) ==> n !in hs && LiveBlocks(hs) - {g, n} == old(LiveBlocks(hs)) - {g, n}
      ensures !old(IsFree(hs, hs[g].nextPhys)) ==> LiveBlocks(hs) == old(LiveBlocks(hs)) && hs == old(hs)
      ensures shape.ends == old(shape.ends) && shape.small == old(shape.small)
        && BytesKept(old(bytes), bytes, old(hs.Keys))
    {
      hide Core, Coalesced, BytesKept, LiveBlocks;
      ghost var b0 := bytes;
      NothingLost(bytes, hs.Keys);
      ghost var m := Globals().(last := l);
      Neighbours(m, shape, arena, g);
      NullIsNoBlock(m, shape, arena);
      n, l' := hs[g].nextPhys, l;
      if hs[g].nextPhys != 0 && hs[hs[g].nextPhys].tag.Free? {
        NeighboursOfFree(m, shape, arena, n);
        ghost var i := FreeHasNode(m, shape, arena, n);
        UnlinkFree(hs[g].nextPhys, i, l);
        ghost var b1, k1, live1, x := bytes, hs.Keys, LiveBlocks(hs), (hs[n].size, hs[n].cap);
        l' := Absorb(g, l);
        MergedLive(old(LiveBlocks(hs)), live1, LiveBlocks(hs), n, x, g, n);
        BytesCompose(b0, b1, bytes, k1, k1, old(hs.Keys));
      }
    }

    /** Puts live block h on the list of its class. */
    method Cache(h: nat)
      requires Valid() && h in hs && hs[h].tag.Live? && hs[h].cap <= SMALL_MAX
      modifies this`hs, this`small, this`bytes, this`shape
      ensures Valid() && hs.Keys == old(hs.Keys) && LiveBlocks(hs) == old(LiveBlocks(hs)) - {h}
        && |old(shape.small)| == CLASSES
      ensures var k := old(hs[h]).cap / 16;
        shape == old(shape).(small := old(shape.small)[k := [h] + old(shape.small)[k]])
      ensures BytesKept(old(bytes), bytes, hs.Keys)
    {
      hide Core, Coalesced, BytesKept, LiveBlocks, Inv, FitsBut;
      InvParts(Globals(), shape, arena);
      Neighbours(Globals(), shape, arena, h);
      NullIsNoBlock(Globals(), shape, arena);
      var k := hs[h].cap / 16;
      CacheCore(Globals(), shape, arena, h, k);
      ghost var keys := hs.Keys;
      NothingLost(bytes, keys);
      Put(h, hs[h].(tag := Cached, prevFree := 0, nextFree := small[k]), bytes, keys);
      small := small[k := h];
      shape := shape.(small := shape.small[k := [h] + shape.small[k]]);
      assert hs.Keys == keys;
      FreedInv(old(hs), Globals(), shape, arena, h);
    }

    /** Merges live block h with its free neighbours. */
    method Merge(h: nat) returns (g: nat, ghost l: nat)
      requires Valid() && h in hs && hs[h].tag.Live?
      modifies this`hs, this`free, this`bytes, this`shape
      ensures CoreFor(l) && Coalesced(hs) && g in hs && hs[g].tag.Live? && hs.Keys <= old(hs.Keys)
      ensures !IsFree(hs, hs[g].nextPhys) && !IsFree(hs, hs[g].prevPhys)
      ensures (hs[g].nextPhys == 0 && InArena(arena, g)) || l == last
      ensures LiveBlocks(hs) - {g} == old(LiveBlocks(hs)) - {h}
      ensures shape.ends == old(shape.ends) && shape.small == old(shape.small)
      ensures g == if old(IsFree(hs, hs[h].prevPhys)) then old(hs[h].prevPhys) else h
      ensures End(hs, g) == if old(IsFree(hs, hs[h].nextPhys)) then End(old(hs), old(hs[h].nextPhys))
        else old(End(hs, h))
      ensures BytesKept(old(bytes), bytes, old(hs.Keys))
    {
      hide Core, Coalesced, BytesKept, LiveBlocks, Inv, FitsBut;
      InvParts(Globals(), shape, arena);
      NullIsNoBlock(Globals(), shape, arena);
      Neighbours(Globals(), shape, arena, h);
      ghost var b0, keys, live0, n := bytes, hs.Keys, LiveBlocks(hs), 0;
      ghost var nextFree := IsFree(hs, hs[h].nextPhys);
      NoLive(hs, 0);
      if IsFree(hs, hs[h].prevPhys) { NoLive(hs, hs[h].prevPhys); }
      if nextFree { NoLive(hs, hs[h].nextPhys); }
      g, l := MergePrev(h);
      if g != h { NoLive(hs, h); }
      ghost var b1, k1, live1 := bytes, hs.Keys, LiveBlocks(hs);
      l, n := MergeNext(g, l);
      BytesCompose(b0, b1, bytes, keys, k1, keys);
      if !nextFree { n := 0; }
      NoLive(hs, n);
      FreedLive(live0, live1, LiveBlocks(hs), g, h, n);
    }

    /** Returns a block too large to cache to the free list. */
    method Release(h: nat) returns (g: nat)
      requires Valid() && h in hs && hs[h].tag.Live?
      modifies this`hs, this`last, this`free, this`bytes, this`shape
      ensures Valid() && hs.Keys <= old(hs.Keys) && LiveBlocks(hs) == old(LiveBlocks(hs)) - {h}
      ensures shape.ends == old(shape.ends) && shape.small == old(shape.small) && shape.free != [] && shape.free[0] == g
      ensures g in hs && g == if old(IsFree(hs, hs[h].prevPhys)) then old(hs[h].prevPhys) else h
      ensures End(hs, g) == if old(IsFree(hs, hs[h].nextPhys)) then End(old(hs), old(hs[h].nextPhys))
        else old(End(hs, h))
      ensures BytesKept(old(bytes), bytes, old(hs.Keys))
    {
      hide Core, Coalesced, BytesKept, LiveBlocks, Inv, FitsBut;
      InvParts(Globals(), shape, arena);
      NullIsNoBlock(Globals(), shape, arena);
      ghost var b0, keys, l := bytes, hs.Keys, 0;
      g, l := Merge(h);
      if hs[g].nextPhys == 0 && InArena(arena, g) {
        CoreLast(Globals(), shape, arena, l, g);
        last := g;
      }
      ghost var b1 := bytes;
      LinkFree(g);
      BytesCompose(b0, b1, bytes, keys, hs.Keys, keys);
      FreedInv(old(hs), Globals(), shape, arena, h);
    }

    /** Frees the block at p. A second free of a block traps and changes nothing. */
    method Free(p: nat) returns (trapped: bool)
      requires Valid() && (p == 0 || (p >= HEADER && p - HEADER in hs))
      modifies this
      ensures Valid() && shape.ends == old(shape.ends)
      ensures trapped <==> p != 0 && !old(hs)[p - HEADER].tag.Live?
      ensures p == 0 || trapped ==> Globals() == old(Globals()) && shape == old(shape) && bytes == old(bytes)
      ensures p != 0 && !trapped ==> LiveBlocks(hs) == old(LiveBlocks(hs)) - {p - HEADER}
      ensures PayloadsKept(old(bytes), bytes, LiveBlocks(hs))
      ensures p != 0 && !trapped && old(hs)[p - HEADER].cap <= SMALL_MAX ==>
        && |old(shape.small)| == CLASSES
        && var k := old(hs)[p - HEADER].cap / 16;
           shape == old(shape).(small := old(shape.small)[k := [p - HEADER] + old(shape.small)[k]])
      ensures p != 0 && !trapped && old(hs)[p - HEADER].cap > SMALL_MAX ==>
        free in hs && Reclaimed(old(hs), p - HEADER, free, End(hs, free))
    {
      hide Inv, BytesKept, LiveBlocks, PayloadsKept;
      ghost var m, s := Globals(), shape;
      Unchanged(bytes, LiveBlocks(hs));
      if p == 0 { return false; }
      var h := p - HEADER;
      if !hs[h].tag.Live? { return true; }
      if hs[h].cap <= SMALL_MAX {
        Cache(h);
      } else {
        var g := Release(h);
        FreeHead(Globals(), shape, arena);
      }
      FreedSafe(m, s, Globals(), shape, arena, old(bytes), bytes, h);
      trapped := false;
    }

    method Calloc(n: nat, size: nat, mapped: nat) returns (r: nat)
      requires Valid() && n <= SIZE_MAX && size <= SIZE_MAX
      requires mapped < MAP_FAILED ==> Mappable(shape, arena, mapped, SlabBytes(RoundUp(n * size)))
      modifies this
      ensures Valid()
      ensures r == 0 <==>
        n * size > SIZE_MAX - 15
          || (old(NothingFits(Globals(), RoundUp(n * size)) && ArenaFull(off, RoundUp(n * size)))
          && (RoundUp(n * size) > SIZE_MAX - HEADER - 4095 || mapped >= MAP_FAILED))
      ensures r == 0 ==> Globals() == old(Globals()) && shape == old(shape) && bytes == old(bytes)
      ensures r != 0 ==>
        r >= HEADER && r % 16 == 0 && Allocated(old(LiveBlocks(hs)), LiveBlocks(hs), r - HEADER, n * size)
      ensures r != 0 ==> forall a: nat :: r <= a < r + n * size ==> At(bytes, a) == 0
      ensures PayloadsKept(old(bytes), bytes, old(LiveBlocks(hs)))
    {
      hide Inv, LiveBlocks, PayloadsKept, NothingFits, ArenaFull, Mappable, RoundUp, SlabBytes;
      Unchanged(bytes, LiveBlocks(hs));
      if size != 0 && n > SIZE_MAX / size {
        ProductOverflows(n, size);
        return 0;
      }
      if size != 0 { ProductFits(n, size); }
      var total := n * size;
      r := Malloc(total, mapped);
      if r == 0 { return; }
      ghost var was, live := bytes, LiveBlocks(hs);
      ZeroedAt(bytes, r, total);
      bytes := Zeroed(bytes, r, total);
      WriteStaysInside(Globals(), shape, arena, was, bytes, r - HEADER, total);
      KeptCompose(old(bytes), was, bytes, old(LiveBlocks(hs)), live - {r - HEADER}, old(LiveBlocks(hs)));
    }

    method Realloc(p: nat, n: nat, mapped: nat) returns (r: nat)
      requires Valid() && n <= SIZE_MAX && (p == 0 || (p >= HEADER && p - HEADER in LiveBlocks(hs)))
      requires mapped < MAP_FAILED ==> Mappable(shape, arena, mapped, SlabBytes(RoundUp(n)))
      modifies this
      ensures Valid() && (r != 0 ==> r >= HEADER)
      ensures p == 0 && r != 0 ==> Allocated(old(LiveBlocks(hs)), LiveBlocks(hs), r - HEADER, n)
      ensures p != 0 && n == 0 ==> r == 0 && LiveBlocks(hs) == old(LiveBlocks(hs)) - {p - HEADER}
      ensures p != 0 && 0 < n <= old(LiveBlocks(hs)[p - HEADER].1) ==>
        r == p && LiveBlocks(hs) == old(LiveBlocks(hs)[p - HEADER := (n, LiveBlocks(hs)[p - HEADER].1)])
          && PayloadsKept(old(bytes), bytes, LiveBlocks(hs))
      ensures (p == 0 || n > old(LiveBlocks(hs)[p - HEADER].1)) && r == 0 ==>
        Globals() == old(Globals()) && shape == old(shape) && bytes == old(bytes)
      ensures p == 0 || n > old(LiveBlocks(hs)[p - HEADER].1) ==>
        (r == 0 <==>
          n > SIZE_MAX - 15 || (old(NothingFits(Globals(), RoundUp(n)) && ArenaFull(off, RoundUp(n)))
            && (RoundUp(n) > SIZE_MAX - HEADER - 4095 || mapped >= MAP_FAILED)))
      ensures p != 0 && r != 0 && n > old(LiveBlocks(hs)[p - HEADER].1) ==>
        && Allocated(old(LiveBlocks(hs)) - {p - HEADER}, LiveBlocks(hs), r - HEADER, n) && r != p
        && SameBytes(old(bytes), p, bytes, r, old(LiveBlocks(hs)[p - HEADER].1))
      ensures PayloadsKept(old(bytes), bytes, if p == 0 then old(LiveBlocks(hs))
        else old(LiveBlocks(hs)) - {p - HEADER})
    {
      hide Inv, LiveBlocks, PayloadsKept, NothingFits, ArenaFull, Mappable, RoundUp, SlabBytes, SameBytes;
      if p == 0 {
        r := Malloc(n, mapped);
        return;
      }
      var h := p - HEADER;
      LiveAt(hs, h);
      ghost var m, s, live0, b0 := Globals(), shape, LiveBlocks(hs), bytes;
      if n == 0 {
        var trapped := Free(p);
        return 0;
      }
      if n <= hs[h].cap {
        Resize(h, n);
        return p;
      }
      r := Malloc(n, mapped);
      if r == 0 {
        Unchanged(bytes, live0 - {h});
        return;
      }
      MoveInto(r, p, live0, b0, n);
    }

    /** The copy and the free at the end of a realloc that moves. */
    method MoveInto(r: nat, p: nat, ghost live0: map<nat, (nat, nat)>, ghost b0: Bytes, ghost n: nat)
      requires Valid() && p >= HEADER && r >= HEADER && p - HEADER in live0 && live0[p - HEADER].1 < n
      requires Allocated(live0, LiveBlocks(hs), r - HEADER, n) && PayloadsKept(b0, bytes, live0)
      modifies this
      ensures Valid() && Allocated(live0 - {p - HEADER}, LiveBlocks(hs), r - HEADER, n)
      ensures SameBytes(b0, p, bytes, r, live0[p - HEADER].1) && PayloadsKept(b0, bytes, live0 - {p - HEADER})
    {
      hide Inv, LiveBlocks, PayloadsKept, Copied, SameBytes, WrittenIn;
      ghost var h, g := p - HEADER, r - HEADER;
      ghost var live1, b1 := LiveBlocks(hs), bytes;
      LiveAt(hs, h);
      LiveAt(hs, g);
      var copied := hs[p - HEADER].cap;
      CopiedAt(bytes, r, p, copied);
      bytes := Copied(bytes, r, p, copied);
      ghost var b2 := bytes;
      WriteStaysInside(Globals(), shape, arena, b1, bytes, g, copied);
      var trapped := Free(p);
      MovedContents(b0, b1, b2, bytes, live0, live1, g, h, n);
      MovedLive(live0, live1, LiveBlocks(hs), g, h, n);
    }

    /** Shrinking, or growing into the block's own slack, happens in place. */
    method Resize(h: nat, n: nat)
      requires Valid() && h in LiveBlocks(hs) && n <= LiveBlocks(hs)[h].1
      modifies this`hs, this`bytes
      ensures Valid() && LiveBlocks(hs) == old(LiveBlocks(hs))[h := (n, old(LiveBlocks(hs))[h].1)]
      ensures PayloadsKept(old(bytes), bytes, LiveBlocks(hs))
      ensures PayloadsKept(old(bytes), bytes, old(LiveBlocks(hs)) - {h})
    {
      hide Inv, LiveBlocks, PayloadsKept, Core, Coalesced, FitsBut, BytesKept;
      InvParts(Globals(), shape, arena);
      NullIsNoBlock(Globals(), shape, arena);
      LiveAt(hs, h);
      SizeCore(Globals(), shape, arena, h, n);
      ghost var keys := hs.Keys;
      NothingLost(bytes, keys);
      Put(h, hs[h].(size := n), bytes, keys);
      assert hs.Keys == keys;
      FitsAfter(old(hs), hs, h, n, hs[h].cap);
      InvParts(Globals(), shape, arena);
      ResizedSafe(old(Globals()), Globals(), shape, arena, old(bytes), bytes, h, n);
    }

    method UsableSize(p: nat) returns (r: nat)
      requires Valid() && (p == 0 || (p >= HEADER && p - HEADER in LiveBlocks(hs)))
      ensures p == 0 ==> r == 0
      ensures p != 0 ==> r == LiveBlocks(hs)[p - HEADER].1 && LiveBlocks(hs)[p - HEADER].0 <= r
    {
      if p == 0 { return 0; }
      LiveAt(hs, p - HEADER);
      InvParts(Globals(), shape, arena);
      NullIsNoBlock(Globals(), shape, arena);
      r := hs[p - HEADER].cap;
    }
  }
}
