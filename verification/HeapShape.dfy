/** The block headers of the freestanding heap as plain maps, and the
    invariant that ties them together. An address of 0 is the null pointer. */
module HeapShape {
  import opened Counting

  const HEADER := 64
  const ARENA_SIZE := 0x400_0000
  const SMALL_MAX := 512
  const CLASSES := 33
  const ADDRESSES := 0x1_0000_0000_0000_0000

  datatype Tag = Live | Free | Cached

  datatype Header = Header(size: nat, cap: nat, prevPhys: nat, nextPhys: nat, prevFree: nat, nextFree: nat, tag: Tag)

  type Headers = map<nat, Header>

  /** The end of the block whose header is at h. */
  function End(hs: Headers, h: nat): nat
    requires h in hs
  {
    h + HEADER + hs[h].cap
  }

  /** How memory is cut up: the region each header lies in, where each region
      ends, and the orders of the free list and of the size-class lists. */
  datatype Shape = Shape(home: map<nat, nat>, ends: map<nat, nat>, free: seq<nat>, small: seq<seq<nat>>)

  function Nth(s: seq<nat>, i: int): nat { if 0 <= i < |s| then s[i] else 0 }

  /** A block: aligned, inside its region, with physical links that agree with
      its neighbours and end exactly at the region's ends. */
  ghost predicate BlockOk(hs: Headers, s: Shape, h: nat)
    requires h in hs && hs.Keys == s.home.Keys
  {
    var x := hs[h];
    && h > 0 && h % 16 == 0 && x.cap % 16 == 0
    && s.home[h] in s.ends && s.home[h] <= h && End(hs, h) <= s.ends[s.home[h]]
    && (x.nextPhys == 0 <==> End(hs, h) == s.ends[s.home[h]])
    && (x.prevPhys == 0 <==> h == s.home[h])
    && (x.nextPhys != 0 ==>
      x.nextPhys == End(hs, h) && x.nextPhys in hs && hs[x.nextPhys].prevPhys == h && s.home[x.nextPhys] == s.home[h])
    && (x.prevPhys != 0 ==> x.prevPhys in hs && hs[x.prevPhys].nextPhys == h && s.home[x.prevPhys] == s.home[h])
  }

  ghost predicate RegionOk(hs: Headers, s: Shape, r: nat)
    requires r in s.ends && hs.Keys == s.home.Keys
  {
    r in hs && s.home[r] == r && s.ends[r] < ADDRESSES
  }

  /** Block g ends before block h starts. */
  ghost predicate Ordered(hs: Headers, g: nat, h: nat)
    requires g in hs && h in hs
  {
    g < h ==> End(hs, g) <= h
  }

  ghost predicate RegionsOrdered(ends: map<nat, nat>, q: nat, r: nat)
    requires q in ends && r in ends
  {
    q < r ==> ends[q] <= r
  }

  /** Chains of blocks tile every region; nothing overlaps. */
  ghost predicate Tiled(hs: Headers, s: Shape) {
    && hs.Keys == s.home.Keys
    && (forall h {:trigger BlockOk(hs, s, h)} :: h in hs ==> BlockOk(hs, s, h))
    && (forall r {:trigger RegionOk(hs, s, r)} :: r in s.ends ==> RegionOk(hs, s, r))
    && (forall g, h {:trigger Ordered(hs, g, h)} :: g in hs && h in hs ==> Ordered(hs, g, h))
    && (forall q, r {:trigger RegionsOrdered(s.ends, q, r)} :: q in s.ends && r in s.ends ==>
      RegionsOrdered(s.ends, q, r))
  }

  /** Node i of the doubly linked free list. */
  ghost predicate FreeNode(hs: Headers, free: seq<nat>, i: int)
    requires 0 <= i < |free|
  {
    && free[i] in hs && free[i] > 0 && hs[free[i]].tag.Free?
    && hs[free[i]].nextFree == Nth(free, i + 1) && hs[free[i]].prevFree == Nth(free, i - 1)
  }

  /** The free list holds exactly the free blocks, in list order. */
  ghost predicate FreeListed(hs: Headers, head: nat, free: seq<nat>) {
    && head == Nth(free, 0) && Distinct(free)
    && (forall i :: 0 <= i < |free| ==> FreeNode(hs, free, i))
    && (forall h :: h in hs && hs[h].tag.Free? ==> h in free)
  }

  ghost predicate ClassNode(hs: Headers, list: seq<nat>, k: nat, i: int)
    requires 0 <= i < |list|
  {
    && list[i] in hs && list[i] > 0 && hs[list[i]].tag.Cached? && hs[list[i]].cap == 16 * k
    && hs[list[i]].nextFree == Nth(list, i + 1) && hs[list[i]].prevFree == 0
  }

  ghost predicate ClassListed(hs: Headers, head: nat, list: seq<nat>, k: nat) {
    head == Nth(list, 0) && Distinct(list) && forall i :: 0 <= i < |list| ==> ClassNode(hs, list, k, i)
  }

  /** The singly linked size-class lists: exactly the cached blocks, by capacity. */
  ghost predicate SmallListed(hs: Headers, heads: seq<nat>, small: seq<seq<nat>>) {
    && |heads| == CLASSES == |small|
    && (forall k :: 0 <= k < CLASSES ==> ClassListed(hs, heads[k], small[k], k))
    && (forall h :: h in hs && hs[h].tag.Cached? ==> hs[h].cap <= SMALL_MAX && h in small[hs[h].cap / 16])
  }

  ghost predicate LiveUnlinked(hs: Headers) {
    forall h :: h in hs && hs[h].tag.Live? ==> hs[h].prevFree == 0 && hs[h].nextFree == 0
  }

  /** Every live block but `h` is as large as was asked for. */
  ghost predicate FitsBut(hs: Headers, h: nat) {
    forall k :: k in hs && k != h && hs[k].tag.Live? ==> hs[k].size <= hs[k].cap
  }

  /** Free neighbours have been merged. */
  ghost predicate Coalesced(hs: Headers) {
    forall h :: h in hs && hs[h].tag.Free? && hs[h].nextPhys in hs ==> !hs[hs[h].nextPhys].tag.Free?
  }

  /** The allocator's globals. */
  datatype Mem = Mem(hs: Headers, off: nat, last: nat, free: nat, small: seq<nat>)

  /** The arena is the region that starts at `arena` once it holds a block;
      every other region is a mapped slab outside it. */
  ghost predicate ArenaOk(m: Mem, s: Shape, arena: nat) {
    && arena > 0 && arena % 16 == 0 && arena + ARENA_SIZE < ADDRESSES && m.off <= ARENA_SIZE && m.off % 16 == 0
    && (m.last == 0 <==> m.off == 0) && (arena in s.ends <==> m.off > 0)
    && (m.off > 0 ==> s.ends[arena] == arena + m.off)
    && (m.off > 0 ==> m.last in m.hs && m.last in s.home && s.home[m.last] == arena && m.hs[m.last].nextPhys == 0)
    && (forall r :: r in s.ends && r != arena ==> r >= arena + ARENA_SIZE || s.ends[r] <= arena)
  }

  ghost predicate Inv(m: Mem, s: Shape, arena: nat) {
    && Tiled(m.hs, s) && FreeListed(m.hs, m.free, s.free) && SmallListed(m.hs, m.small, s.small)
    && LiveUnlinked(m.hs) && FitsBut(m.hs, 0) && Coalesced(m.hs) && ArenaOk(m, s, arena)
  }

  // ----- the helpers of the C code, on maps -----

  function Unlinked(hs: Headers, h: nat): (r: Headers)
    requires h in hs && (hs[h].prevFree == 0 || hs[h].prevFree in hs) && (hs[h].nextFree == 0 || hs[h].nextFree in hs)
    ensures r.Keys == hs.Keys
  {
    var p, n := hs[h].prevFree, hs[h].nextFree;
    var a := if p != 0 then hs[p := hs[p].(nextFree := n)] else hs;
    var b := if n != 0 then a[n := a[n].(prevFree := p)] else a;
    b[h := b[h].(prevFree := 0, nextFree := 0, tag := Live)]
  }

  function Linked(hs: Headers, head: nat, h: nat): (r: Headers)
    requires h in hs && (head == 0 || head in hs)
    ensures r.Keys == hs.Keys
  {
    var a := hs[h := hs[h].(tag := Free, prevFree := 0, nextFree := head)];
    if head != 0 then a[head := a[head].(prevFree := h)] else a
  }

  /** Same blocks in the same places, whatever list they are on. */
  ghost predicate SamePhys(a: Headers, b: Headers) {
    && a.Keys == b.Keys
    && forall h :: h in a ==> SamePlace(a[h], b[h])
  }

  predicate SamePlace(x: Header, y: Header) {
    y.cap == x.cap && y.prevPhys == x.prevPhys && y.nextPhys == x.nextPhys && y.size == x.size
  }

  lemma SamePhysTiled(a: Headers, b: Headers, s: Shape)
    requires SamePhys(a, b) && Tiled(a, s)
    ensures Tiled(b, s)
  {
    forall h | h in b
      ensures BlockOk(b, s, h)
    {
      assert BlockOk(a, s, h);
    }
    forall r | r in s.ends
      ensures RegionOk(b, s, r)
    {
      assert RegionOk(a, s, r);
    }
    forall g, h | g in b && h in b
      ensures Ordered(b, g, h)
    {
      assert Ordered(a, g, h);
    }
  }

  function Without(s: seq<nat>, i: nat): seq<nat>
    requires i < |s|
  {
    s[..i] + s[i + 1..]
  }

  lemma UnlinkedEffect(hs: Headers, head: nat, free: seq<nat>, i: nat)
    requires FreeListed(hs, head, free) && i < |free|
    ensures var h := free[i]; var p, n := Nth(free, i - 1), Nth(free, i + 1);
      && h in hs && hs[h].prevFree == p && hs[h].nextFree == n && p != h && n != h && (p == 0 || p != n)
      && (p == 0 || p in hs) && (n == 0 || n in hs)
      && SamePhys(hs, Unlinked(hs, h))
      && (forall k :: k in hs && k != h && k != p && k != n ==> Unlinked(hs, h)[k] == hs[k])
      && Unlinked(hs, h)[h] == hs[h].(prevFree := 0, nextFree := 0, tag := Live)
      && (p != 0 ==> Unlinked(hs, h)[p] == hs[p].(nextFree := n))
        && (n != 0 ==> Unlinked(hs, h)[n] == hs[n].(prevFree := p))
  {
    assert FreeNode(hs, free, i);
    assert i > 0 ==> FreeNode(hs, free, i - 1);
    assert i + 1 < |free| ==> FreeNode(hs, free, i + 1);
  }

  lemma UnlinkedNode(hs: Headers, head: nat, free: seq<nat>, i: nat, j: nat)
    requires FreeListed(hs, head, free) && i < |free| && j < |free| - 1
    requires free[i] in hs && (hs[free[i]].prevFree == 0 || hs[free[i]].prevFree in hs)
      && (hs[free[i]].nextFree == 0 || hs[free[i]].nextFree in hs)
    ensures FreeNode(Unlinked(hs, free[i]), Without(free, i), j)
  {
    UnlinkedEffect(hs, head, free, i);
    hide Unlinked;
    var o, g := if j < i then j else j + 1, Without(free, i);
    assert g[j] == free[o] && free[o] != free[i];
    assert FreeNode(hs, free, o);
    assert o > 0 ==> free[o - 1] != free[o];
    assert i > 0 && o != i - 1 ==> free[o] != free[i - 1];
    assert i + 1 < |free| && o != i + 1 ==> free[o] != free[i + 1];
  }

  lemma WithoutOne(free: seq<nat>, i: nat)
    requires Distinct(free) && i < |free|
    ensures Distinct(Without(free, i)) && forall k :: k in free && k != free[i] ==> k in Without(free, i)
  {
    var g := Without(free, i);
    forall k | k in free && k != free[i]
      ensures k in g
    {
      var o :| 0 <= o < |free| && free[o] == k;
      assert g[if o < i then o else o - 1] == k;
    }
  }

  lemma UnlinkedFreeListed(hs: Headers, head: nat, free: seq<nat>, i: nat)
    requires FreeListed(hs, head, free) && i < |free|
    ensures FreeNode(hs, free, i) && (hs[free[i]].prevFree == 0 || hs[free[i]].prevFree in hs)
      && (hs[free[i]].nextFree == 0 || hs[free[i]].nextFree in hs)
    ensures FreeListed(Unlinked(hs, free[i]), if i == 0 then Nth(free, 1) else head, Without(free, i))
  {
    UnlinkedEffect(hs, head, free, i);
    assert FreeNode(hs, free, i);
    WithoutOne(free, i);
    var h, r, g := free[i], Unlinked(hs, free[i]), Without(free, i);
    forall j | 0 <= j < |g|
      ensures FreeNode(r, g, j)
    {
      UnlinkedNode(hs, head, free, i, j);
    }
    hide FreeNode, Unlinked;
    forall k | k in r && r[k].tag.Free?
      ensures k in g
    {
      assert k in hs && hs[k].tag.Free? && k != h;
    }
  }

  lemma LinkedFreeListed(hs: Headers, head: nat, free: seq<nat>, h: nat)
    requires FreeListed(hs, head, free) && h in hs && h > 0 && !hs[h].tag.Free?
    ensures head == 0 || (head in hs && hs[head].tag.Free?)
    ensures FreeListed(Linked(hs, head, h), h, [h] + free) && SamePhys(hs, Linked(hs, head, h))
    ensures forall k :: k in hs && k != h && k != head ==> Linked(hs, head, h)[k] == hs[k]
    ensures forall k :: k in hs && k != h ==> Linked(hs, head, h)[k].tag == hs[k].tag
    ensures Linked(hs, head, h)[h].tag.Free?
  {
    assert |free| > 0 ==> FreeNode(hs, free, 0);
    var r, g := Linked(hs, head, h), [h] + free;
    forall j | 0 <= j < |free|
      ensures free[j] != h
    {
      assert FreeNode(hs, free, j);
    }
    forall j | 0 <= j < |g|
      ensures FreeNode(r, g, j)
    {
      if j > 0 {
        assert FreeNode(hs, free, j - 1);
        assert j > 1 ==> free[0] != free[j - 1];
      }
    }
    forall k | k in r && r[k].tag.Free?
      ensures k in g
    {
      if k != h {
        var o :| 0 <= o < |free| && free[o] == k;
        assert g[o + 1] == k;
      }
    }
  }

  /** Changing only headers that are not cached leaves the class lists alone. */
  lemma SmallKept(a: Headers, b: Headers, heads: seq<nat>, small: seq<seq<nat>>)
    requires SmallListed(a, heads, small)
    requires forall h :: h in a && a[h].tag.Cached? ==> h in b && b[h] == a[h]
    requires forall h :: h in b && b[h].tag.Cached? ==> h in a && a[h].tag.Cached?
    ensures SmallListed(b, heads, small)
  {
    forall k | 0 <= k < CLASSES
      ensures ClassListed(b, heads[k], small[k], k)
    {
      assert ClassListed(a, heads[k], small[k], k);
      forall i | 0 <= i < |small[k]|
        ensures ClassNode(b, small[k], k, i)
      {
        assert ClassNode(a, small[k], k, i);
      }
    }
  }
}
