/** Delta-encoded pc-value tables: the encoder, the decoder, and the plain step
    function both must agree with. */
module PcTable {
  import opened ByteType
  import opened Options
  import opened Varint

  datatype Entry = Entry(pc: nat, value: int)

  /** The value of the last entry at or before pc, else -1. */
  function StepValue(ents: seq<Entry>, pc: nat): int {
    if ents == [] then -1
    else if ents[|ents| - 1].pc <= pc then ents[|ents| - 1].value
    else StepValue(ents[..|ents| - 1], pc)
  }

  /** Entries in pc order; several may share a pc, the last one counts. */
  ghost predicate Sorted(ents: seq<Entry>) { forall i, j :: 0 <= i < j < |ents| ==> ents[i].pc <= ents[j].pc }

  ghost predicate Increasing(ents: seq<Entry>) { forall i, j :: 0 <= i < j < |ents| ==> ents[i].pc < ents[j].pc }

  /** Where the entries at one pc end up with the value in force before it, none
      of them strays from it. */
  ghost predicate Settles(ents: seq<Entry>, size: nat) {
    forall k :: 0 <= k < |ents| && 0 < ents[k].pc < size ==>
      StepValue(ents, ents[k].pc) == StepValue(ents, ents[k].pc - 1) ==> ents[k].value == StepValue(ents, ents[k].pc)
  }

  ghost predicate EntriesOk(ents: seq<Entry>) {
    forall i :: 0 <= i < |ents| ==> IsU64(ents[i].pc) && IsI64(ents[i].value)
  }

  // ----- segments -----

  datatype Seg = Seg(val: int, start: nat)

  function SegValue(segs: seq<Seg>, pc: nat): int {
    if segs == [] then -1
    else if segs[|segs| - 1].start <= pc then segs[|segs| - 1].val
    else SegValue(segs[..|segs| - 1], pc)
  }

  /** Segments start at 0 and go up. */
  ghost predicate SegsOk(segs: seq<Seg>, size: nat) {
    && segs != [] && segs[0].start == 0 && size > 0
    && (forall i :: 0 <= i < |segs| ==> segs[i].start < size && IsI64(segs[i].val))
    && (forall i :: 0 < i < |segs| ==> Rises(segs, i))
  }

  ghost predicate Rises(segs: seq<Seg>, i: nat)
    requires 0 < i < |segs|
  {
    segs[i - 1].start < segs[i].start
  }

  /** The value changes at every boundary. */
  ghost predicate Changing(segs: seq<Seg>) { forall i :: 0 < i < |segs| ==> Changes(segs, i) }

  ghost predicate Changes(segs: seq<Seg>, i: nat)
    requires 0 < i < |segs|
  {
    segs[i - 1].val != segs[i].val
  }

  ghost predicate SameValues(segs: seq<Seg>, ents: seq<Entry>, size: nat) {
    forall pc: nat :: pc < size ==> SegValue(segs, pc) == StepValue(ents, pc)
  }

  /** Entry k leaves the value in force before p. */
  ghost predicate Departs(ents: seq<Entry>, k: nat, p: nat) {
    k < |ents| && ents[k].pc == p && p > 0 && ents[k].value != StepValue(ents, p - 1)
  }

  ghost predicate DepartsAt(ents: seq<Entry>, p: nat) { exists k: nat :: Departs(ents, k, p) }

  ghost predicate StartsAt(segs: seq<Seg>, p: nat) { exists i :: 0 < i < |segs| && segs[i].start == p }

  /** Segments but the first start exactly where some entry departs. */
  ghost predicate Boundaries(segs: seq<Seg>, ents: seq<Entry>, size: nat) {
    && (forall i :: 0 < i < |segs| ==> DepartsAt(ents, segs[i].start))
    && (forall p: nat :: 0 < p < size && DepartsAt(ents, p) ==> StartsAt(segs, p))
  }

  function Int64(pc: nat): int { Wrap(pc) }

  /** Appending an entry changes the step function from its pc on. */
  lemma StepAppend(ents: seq<Entry>, e: Entry, pc: nat)
    ensures StepValue(ents + [e], pc) == if e.pc <= pc then e.value else StepValue(ents, pc)
  {
    assert (ents + [e])[..|ents|] == ents;
  }

  lemma SegAppend(segs: seq<Seg>, s: Seg, pc: nat)
    ensures SegValue(segs + [s], pc) == if s.start <= pc then s.val else SegValue(segs, pc)
  {
    assert (segs + [s])[..|segs|] == segs;
  }

  ghost predicate UpTo(ents: seq<Entry>, pc: nat) { forall k :: 0 <= k < |ents| ==> ents[k].pc <= pc }

  /** A later entry does not change what departed before it. */
  lemma DepartsGrow(ents: seq<Entry>, e: Entry, p: nat)
    requires p <= e.pc
    ensures DepartsAt(ents, p) ==> DepartsAt(ents + [e], p)
    ensures UpTo(ents, e.pc) && DepartsAt(ents + [e], p) ==>
      DepartsAt(ents, p) || (p == e.pc && p > 0 && e.value != StepValue(ents, p - 1))
  {
    if p > 0 { StepAppend(ents, e, p - 1); }
    if DepartsAt(ents, p) {
      var k: nat :| Departs(ents, k, p);
      assert Departs(ents + [e], k, p);
    }
    if DepartsAt(ents + [e], p) {
      var k: nat :| Departs(ents + [e], k, p);
      assert k < |ents| ==> Departs(ents, k, p);
    }
  }

  /** After an entry at or past the last start, with the same boundaries. */
  lemma BoundariesKept(segs: seq<Seg>, ents: seq<Entry>, e: Entry, size: nat, now: seq<Seg>)
    requires Boundaries(segs, ents, size) && UpTo(ents, e.pc) && |now| == |segs|
    requires forall i :: 0 <= i < |segs| ==> now[i].start == segs[i].start && segs[i].start <= e.pc
    requires 0 < e.pc < size && e.value != StepValue(ents, e.pc - 1) ==> StartsAt(segs, e.pc)
    ensures Boundaries(now, ents + [e], size)
  {
    forall i | 0 < i < |now|
      ensures DepartsAt(ents + [e], now[i].start)
    {
      assert DepartsAt(ents, segs[i].start);
      DepartsGrow(ents, e, segs[i].start);
    }
    forall p: nat | 0 < p < size && DepartsAt(ents + [e], p)
      ensures StartsAt(now, p)
    {
      var k: nat :| Departs(ents + [e], k, p);
      assert p <= e.pc;
      DepartsGrow(ents, e, p);
      assert StartsAt(segs, p);
      var i :| 0 < i < |segs| && segs[i].start == p;
      assert now[i].start == p;
    }
  }

  /** Everything the first pass maintains. */
  ghost predicate Built(segs: seq<Seg>, ents: seq<Entry>, size: nat) {
    SegsOk(segs, size) && SameValues(segs, ents, size) && Boundaries(segs, ents, size)
  }

  lemma BuildSkip(segs: seq<Seg>, ents: seq<Entry>, e: Entry, size: nat)
    requires Built(segs, ents, size) && UpTo(ents, e.pc)
    requires segs[|segs| - 1].start <= e.pc
      && (e.pc >= size || (segs[|segs| - 1].start < e.pc && e.value == segs[|segs| - 1].val))
    ensures Built(segs, ents + [e], size)
  {
    forall pc: nat | pc < size
      ensures SegValue(segs, pc) == StepValue(ents + [e], pc)
    {
      StepAppend(ents, e, pc);
    }
    forall i | 0 <= i < |segs|
      ensures segs[i].start <= e.pc
    {
      StartsRise(segs, size, i, |segs| - 1);
    }
    if e.pc < size { assert SegValue(segs, e.pc - 1) == e.value; }
    BoundariesKept(segs, ents, e, size, segs);
  }

  lemma BuildReplace(segs: seq<Seg>, ents: seq<Entry>, e: Entry, size: nat)
    requires Built(segs, ents, size) && UpTo(ents, e.pc) && segs[|segs| - 1].start == e.pc < size && IsI64(e.value)
    ensures Built(segs[|segs| - 1 := Seg(e.value, e.pc)], ents + [e], size)
  {
    var m := |segs| - 1;
    var now := segs[m := Seg(e.value, e.pc)];
    forall i | 0 < i < |now|
      ensures Rises(now, i)
    {
      assert Rises(segs, i);
    }
    assert now == segs[..m] + [Seg(e.value, e.pc)] && segs == segs[..m] + [segs[m]];
    forall pc: nat | pc < size
      ensures SegValue(now, pc) == StepValue(ents + [e], pc)
    {
      StepAppend(ents, e, pc);
      SegAppend(segs[..m], Seg(e.value, e.pc), pc);
      SegAppend(segs[..m], segs[m], pc);
    }
    forall i | 0 <= i < |segs|
      ensures segs[i].start <= e.pc
    {
      StartsRise(segs, size, i, |segs| - 1);
    }
    assert e.pc > 0 ==> m > 0;
    BoundariesKept(segs, ents, e, size, now);
  }

  lemma BuildAppend(segs: seq<Seg>, ents: seq<Entry>, e: Entry, size: nat)
    requires Built(segs, ents, size) && UpTo(ents, e.pc)
    requires segs[|segs| - 1].start < e.pc < size && e.value != segs[|segs| - 1].val && IsI64(e.value)
    ensures Built(segs + [Seg(e.value, e.pc)], ents + [e], size)
  {
    var more := segs + [Seg(e.value, e.pc)];
    forall i | 0 < i < |more|
      ensures Rises(more, i)
    {
      if i < |segs| { assert Rises(segs, i); }
    }
    forall pc: nat | pc < size
      ensures SegValue(more, pc) == StepValue(ents + [e], pc)
    {
      StepAppend(ents, e, pc);
      SegAppend(segs, Seg(e.value, e.pc), pc);
    }
    AppendBoundary(segs, ents, e, size);
  }

  lemma AppendBoundary(segs: seq<Seg>, ents: seq<Entry>, e: Entry, size: nat)
    requires Built(segs, ents, size) && UpTo(ents, e.pc) && segs[|segs| - 1].start < e.pc < size
      && e.value != segs[|segs| - 1].val
    ensures Boundaries(segs + [Seg(e.value, e.pc)], ents + [e], size)
  {
    var more := segs + [Seg(e.value, e.pc)];
    assert SegValue(segs, e.pc - 1) == segs[|segs| - 1].val;
    StepAppend(ents, e, e.pc - 1);
    assert Departs(ents + [e], |ents|, e.pc);
    hide StepValue, SegValue, SameValues, Departs;
    assert DepartsAt(ents + [e], e.pc);
    hide DepartsAt;
    forall i | 0 < i < |more|
      ensures DepartsAt(ents + [e], more[i].start)
    {
      if i < |segs| {
        StartsRise(segs, size, i, |segs| - 1);
        assert DepartsAt(ents, segs[i].start);
        DepartsGrow(ents, e, segs[i].start);
      }
    }
    forall p: nat | 0 < p < size && DepartsAt(ents + [e], p)
      ensures StartsAt(more, p)
    {
      DepartedEarlier(ents, e, p);
      DepartsGrow(ents, e, p);
      if p == e.pc {
        assert more[|segs|].start == p;
      } else {
        assert StartsAt(segs, p);
        var i :| 0 < i < |segs| && segs[i].start == p;
        assert more[i].start == p;
      }
    }
  }

  lemma DepartedEarlier(ents: seq<Entry>, e: Entry, p: nat)
    requires UpTo(ents, e.pc) && DepartsAt(ents + [e], p)
    ensures p <= e.pc
  {
    var k: nat :| Departs(ents + [e], k, p);
  }

  /** The first pass of pcbytes. */
  method Build(ents: seq<Entry>, size: nat) returns (segs: seq<Seg>)
    requires 0 < size < TWO63 && Sorted(ents) && EntriesOk(ents)
    ensures Built(segs, ents, size)
  {
    segs := [Seg(-1, 0)];
    for n := 0 to |ents|
      invariant Built(segs, ents[..n], size) && segs != []
      invariant n == 0 ==> segs == [Seg(-1, 0)]
      invariant n > 0 ==> segs[|segs| - 1].start <= ents[n - 1].pc
    {
      var e := ents[n];
      assert ents[..n + 1] == ents[..n] + [e];
      assert UpTo(ents[..n], e.pc) && (n > 0 ==> ents[n - 1].pc <= e.pc);
      hide Built, UpTo, Sorted;
      var pc := Int64(e.pc);
      SkippedPc(e.pc, size);
      var last := segs[|segs| - 1];
      if pc < 0 || pc >= size {
        BuildSkip(segs, ents[..n], e, size);
      } else if pc == last.start {
        BuildReplace(segs, ents[..n], e, size);
        segs := segs[|segs| - 1 := Seg(e.value, last.start)];
      } else if e.value == last.val {
        BuildSkip(segs, ents[..n], e, size);
      } else {
        BuildAppend(segs, ents[..n], e, size);
        segs := segs + [Seg(e.value, pc)];
      }
    }
    assert ents[..|ents|] == ents;
  }

  /** The int64 view of a uint64 pc is skipped exactly from size on. */
  lemma SkippedPc(pc: nat, size: nat)
    requires IsU64(pc) && size < TWO63
    ensures (Int64(pc) < 0 || Int64(pc) >= size) <==> pc >= size
    ensures pc < size ==> Int64(pc) == pc
  {
  }

  /** The value segment i gives. */
  lemma {:induction false} SegAt(segs: seq<Seg>, size: nat, n: nat, i: nat, pc: nat)
    requires SegsOk(segs, size) && i < n <= |segs| && segs[i].start <= pc && (i + 1 < |segs| ==> pc < segs[i + 1].start)
    ensures SegValue(segs[..n], pc) == segs[i].val
  {
    assert segs[..n][..n - 1] == segs[..n - 1];
    if i + 1 < n {
      StartsRise(segs, size, i + 1, n - 1);
      SegAt(segs, size, n - 1, i, pc);
    }
  }

  lemma {:induction false} StartsRise(segs: seq<Seg>, size: nat, i: nat, j: nat)
    requires SegsOk(segs, size) && i <= j < |segs|
    ensures segs[i].start <= segs[j].start
    decreases j - i
  {
    if i < j {
      assert Rises(segs, j);
      StartsRise(segs, size, i, j - 1);
    }
  }

  /** The step function on either side of a boundary. */
  lemma AroundStart(segs: seq<Seg>, ents: seq<Entry>, size: nat, i: nat)
    requires Built(segs, ents, size) && 0 < i < |segs|
    ensures segs[i].start > 0 && StepValue(ents, segs[i].start) == segs[i].val
      && StepValue(ents, segs[i].start - 1) == segs[i - 1].val
  {
    assert Rises(segs, i) && (i + 1 < |segs| ==> Rises(segs, i + 1));
    assert segs[..|segs|] == segs;
    SegAt(segs, size, |segs|, i, segs[i].start);
    SegAt(segs, size, |segs|, i - 1, segs[i].start - 1);
  }

  /** The segments change at every boundary exactly for entries that settle. */
  lemma ChangingIff(segs: seq<Seg>, ents: seq<Entry>, size: nat)
    requires Built(segs, ents, size)
    ensures Changing(segs) <==> Settles(ents, size)
  {
    if Settles(ents, size) {
      forall i | 0 < i < |segs|
        ensures Changes(segs, i)
      {
        AroundStart(segs, ents, size, i);
        assert DepartsAt(ents, segs[i].start);
        var k: nat :| Departs(ents, k, segs[i].start);
      }
    }
    if Changing(segs) {
      forall k | 0 <= k < |ents| && 0 < ents[k].pc < size
        && StepValue(ents, ents[k].pc) == StepValue(ents, ents[k].pc - 1)
        ensures ents[k].value == StepValue(ents, ents[k].pc)
      {
        if ents[k].value != StepValue(ents, ents[k].pc) {
          assert Departs(ents, k, ents[k].pc);
          assert StartsAt(segs, ents[k].pc);
          var i :| 0 < i < |segs| && segs[i].start == ents[k].pc;
          assert Changes(segs, i);
          AroundStart(segs, ents, size, i);
        }
      }
    }
  }

  lemma {:induction false} StepAtEntry(ents: seq<Entry>, n: nat, k: nat)
    requires Increasing(ents) && k < n <= |ents|
    ensures StepValue(ents[..n], ents[k].pc) == ents[k].value
  {
    assert ents[..n][..n - 1] == ents[..n - 1];
    if k + 1 < n { StepAtEntry(ents, n - 1, k); }
  }

  /** Entries at distinct pcs always settle. */
  lemma IncreasingSettles(ents: seq<Entry>, size: nat)
    requires Increasing(ents)
    ensures Sorted(ents) && Settles(ents, size)
  {
    assert ents[..|ents|] == ents;
    forall k | 0 <= k < |ents|
      ensures StepValue(ents, ents[k].pc) == ents[k].value
    {
      StepAtEntry(ents, |ents|, k);
    }
  }

  /** Two entries at one pc that do not: the table decodes to one span only. */
  lemma RepeatedPcBreaksTheTable()
    ensures var ents := [Entry(0, 1), Entry(4, 2), Entry(4, 1)]; Sorted(ents) && !Settles(ents, 8)
  {
    var ents := [Entry(0, 1), Entry(4, 2), Entry(4, 1)];
    assert ents[..2] == [Entry(0, 1), Entry(4, 2)] && ents[..1] == [Entry(0, 1)] && ents[..2][..1] == ents[..1]
      && ents[..1][..0] == [];
    assert StepValue(ents, 4) == 1 && StepValue(ents, 3) == 1 && ents[1].value == 2;
  }

  // ----- bytes -----

  function EndOf(segs: seq<Seg>, size: nat, i: nat): nat
    requires i < |segs|
  {
    if i + 1 < |segs| then segs[i + 1].start else size
  }

  function Prev(segs: seq<Seg>, i: nat): int
    requires i <= |segs|
  {
    if i == 0 then -1 else segs[i - 1].val
  }

  function Width(segs: seq<Seg>, size: nat, i: nat): nat
    requires SegsOk(segs, size) && i < |segs|
  {
    assert i + 1 < |segs| ==> Rises(segs, i + 1);
    EndOf(segs, size, i) - segs[i].start
  }

  /** Value delta, then width in instruction quanta. */
  function Chunk(segs: seq<Seg>, size: nat, q: nat, i: nat): seq<Byte>
    requires SegsOk(segs, size) && i < |segs| && q > 0
  {
    Uleb(Zig(Wrap(segs[i].val - Prev(segs, i)))) + Uleb(Width(segs, size, i) / q)
  }

  function Bytes(segs: seq<Seg>, size: nat, q: nat, i: nat): seq<Byte>
    requires SegsOk(segs, size) && i <= |segs| && q > 0
    decreases |segs| - i
  {
    if i == |segs| then [0] else Chunk(segs, size, q, i) + Bytes(segs, size, q, i + 1)
  }

  function FirstBytes(segs: seq<Seg>, size: nat, q: nat, i: nat): seq<Byte>
    requires SegsOk(segs, size) && i <= |segs| && q > 0
  {
    if i == 0 then [] else FirstBytes(segs, size, q, i - 1) + Chunk(segs, size, q, i - 1)
  }

  lemma {:induction false} BytesJoin(segs: seq<Seg>, size: nat, q: nat, i: nat)
    requires SegsOk(segs, size) && i <= |segs| && q > 0
    ensures FirstBytes(segs, size, q, i) + Bytes(segs, size, q, i) == Bytes(segs, size, q, 0)
  {
    if i > 0 {
      BytesJoin(segs, size, q, i - 1);
      assert FirstBytes(segs, size, q, i) + Bytes(segs, size, q, i) == FirstBytes(segs, size, q, i - 1) +
        (Chunk(segs, size, q, i - 1) + Bytes(segs, size, q, i));
    }
  }

  /** The whole encoder; segs is what it encodes. A function without code has
      no table. */
  method PcBytes(q: nat, size: nat, ents: seq<Entry>) returns (dst: seq<Byte>, ghost segs: seq<Seg>)
    requires q > 0 && size < TWO63 && Sorted(ents) && EntriesOk(ents)
    ensures size == 0 ==> dst == []
    ensures size > 0 ==> Built(segs, ents, size) && dst == Bytes(segs, size, q, 0)
  {
    if size == 0 { return [], []; }
    var list := Build(ents, size);
    segs := list;
    dst := EncodeSegs(list, size, q);
  }

  /** The second pass. */
  method EncodeSegs(segs: seq<Seg>, size: nat, q: nat) returns (dst: seq<Byte>)
    requires SegsOk(segs, size) && q > 0
    ensures dst == Bytes(segs, size, q, 0)
  {
    hide SegsOk, Uleb, Wrap, Zig;
    dst := [];
    var prev := -1;
    for i := 0 to |segs|
      invariant dst == FirstBytes(segs, size, q, i) && prev == Prev(segs, i)
    {
      var s := segs[i];
      var end := if i + 1 < |segs| then segs[i + 1].start else size;
      WidthIsPositive(segs, size, i);
      var w := (end - s.start) / q;
      var x := Zig(Wrap(s.val - prev));
      assert Chunk(segs, size, q, i) == Uleb(x) + Uleb(w);
      dst := dst + Uleb(x);
      dst := dst + Uleb(w);
      assert dst == FirstBytes(segs, size, q, i) + (Uleb(x) + Uleb(w));
      prev := s.val;
    }
    dst := dst + [0];
    BytesJoin(segs, size, q, |segs|);
  }

  lemma WidthIsPositive(segs: seq<Seg>, size: nat, i: nat)
    requires SegsOk(segs, size) && i < |segs|
    ensures segs[i].start < EndOf(segs, size, i) <= size && IsI64(segs[i].val) && IsI64(Prev(segs, i))
  {
    assert i + 1 < |segs| ==> Rises(segs, i + 1);
    assert i > 0 ==> Rises(segs, i);
  }

  // ----- the decoder -----

  datatype Span = Span(lo: nat, hi: nat, val: int)

  function Decode(b: seq<Byte>, val: int, pc: nat, first: bool, q: nat): Option<seq<Span>>
    decreases |b|
  {
    if b == [] then Some([]) else
      var u := Uvarint(b, 0, 0);
      if u.None? then None
      else if u.value.value == 0 && !first then Some([]) else
        var rest, v := b[u.value.len..], Wrap(val + Unzig(u.value.value));
        var d := Uvarint(rest, 0, 0);
        if d.None? then None else
          var end := (pc + d.value.value * q) % TWO64;
          var more := Decode(rest[d.value.len..], v, end, false, q);
          if more.None? then None else Some([Span(pc, end, v)] + more.value)
  }

  /** The loop of the decoder. */
  method DecodePcValue(bytes: seq<Byte>, q: nat) returns (out: Option<seq<Span>>)
    ensures out == Decode(bytes, -1, 0, true, q)
  {
    hide Decode, Uvarint, Wrap, Unzig;
    var b, val, first := bytes, -1, true;
    var pc: nat := 0;
    var spans: seq<Span> := [];
    PrependNone(Decode(b, val, pc, first, q));
    while |b| > 0
      invariant Decode(bytes, -1, 0, true, q) == Prepend(spans, Decode(b, val, pc, first, q))
      decreases |b|
    {
      DecodeStep(b, val, pc, first, q);
      var u := Uvarint(b, 0, 0);
      if u.None? { return None; }
      if u.value.value == 0 && !first {
        assert spans + [] == spans;
        return Some(spans);
      }
      b, first := b[u.value.len..], false;
      val := Wrap(val + Unzig(u.value.value));
      var d := Uvarint(b, 0, 0);
      if d.None? { return None; }
      b := b[d.value.len..];
      var end := (pc + d.value.value * q) % TWO64;
      PrependOne(spans, Span(pc, end, val), Decode(b, val, end, false, q));
      spans, pc := spans + [Span(pc, end, val)], end;
    }
    assert b == [] && spans + [] == spans;
    DecodeNone(val, pc, first, q);
    return Some(spans);
  }

  function Prepend(spans: seq<Span>, more: Option<seq<Span>>): Option<seq<Span>> {
    if more.None? then None else Some(spans + more.value)
  }

  lemma PrependNone(more: Option<seq<Span>>)
    ensures Prepend([], more) == more
  {
    if more.Some? { assert [] + more.value == more.value; }
  }

  lemma PrependOne(spans: seq<Span>, s: Span, more: Option<seq<Span>>)
    ensures Prepend(spans, Prepend([s], more)) == Prepend(spans + [s], more)
  {
    if more.Some? { assert spans + ([s] + more.value) == (spans + [s]) + more.value; }
  }

  lemma DecodeNone(val: int, pc: nat, first: bool, q: nat)
    ensures Decode([], val, pc, first, q) == Some([])
  {
  }

  /** One turn of the decoder. */
  lemma DecodeStep(b: seq<Byte>, val: int, pc: nat, first: bool, q: nat)
    requires b != []
    ensures var u := Uvarint(b, 0, 0);
      Decode(b, val, pc, first, q) ==
      if u.None? then None else if u.value.value == 0 && !first then Some([]) else
        var d := Uvarint(b[u.value.len..], 0, 0);
        if d.None? then None else
          var v, end := Wrap(val + Unzig(u.value.value)), (pc + d.value.value * q) % TWO64;
          Prepend([Span(pc, end, v)], Decode(b[u.value.len..][d.value.len..], v, end, false, q))
  {
  }

  // ----- round trip -----

  /** Where segment i starts once widths are cut to whole quanta. */
  function Bound(segs: seq<Seg>, size: nat, q: nat, i: nat): nat
    requires SegsOk(segs, size) && i <= |segs| && q > 0
  {
    if i == 0 then 0 else Bound(segs, size, q, i - 1) + Whole(Width(segs, size, i - 1), q)
  }

  /** Cut to whole quanta. */
  function Whole(w: nat, q: nat): nat
    requires q > 0
  {
    w / q * q
  }

  lemma {:induction false} BoundIsLow(segs: seq<Seg>, size: nat, q: nat, i: nat)
    requires SegsOk(segs, size) && i <= |segs| && q > 0
    ensures Bound(segs, size, q, i) <= if i < |segs| then segs[i].start else size
  {
    if i > 0 {
      BoundIsLow(segs, size, q, i - 1);
      WidthIsPositive(segs, size, i - 1);
      CutDown(Width(segs, size, i - 1), q);
    }
  }

  lemma CutDown(w: nat, q: nat)
    requires q > 0
    ensures 0 <= w / q * q <= w
  {
    assert w == w / q * q + w % q;
  }

  function Spans(segs: seq<Seg>, size: nat, q: nat, i: nat): seq<Span>
    requires SegsOk(segs, size) && i <= |segs| && q > 0
    decreases |segs| - i
  {
    if i == |segs| then []
    else [SpanOf(segs, size, q, i)] + Spans(segs, size, q, i + 1)
  }

  lemma ChunkReads(segs: seq<Seg>, size: nat, q: nat, i: nat, rest: seq<Byte>)
    requires SegsOk(segs, size) && i < |segs| && q > 0 && size < TWO63
    ensures var b := Chunk(segs, size, q, i) + rest; var u := Uvarint(b, 0, 0);
      && u.Some? && (u.value.value == 0 <==> Prev(segs, i) == segs[i].val)
        && Wrap(Prev(segs, i) + Unzig(u.value.value)) == segs[i].val
      && var d := Uvarint(b[u.value.len..], 0, 0);
        d.Some? && d.value.value == Width(segs, size, i) / q && b[u.value.len..][d.value.len..] == rest
  {
    hide Uleb, Uvarint, Wrap, Zig, Unzig;
    WidthIsPositive(segs, size, i);
    var x, w := Wrap(segs[i].val - Prev(segs, i)), Width(segs, size, i) / q;
    WrapRoundTrip(Prev(segs, i), segs[i].val);
    ZigRoundTrip(x);
    Quotient(Width(segs, size, i), q);
    hide SegsOk;
    var b := Chunk(segs, size, q, i) + rest;
    assert b == Uleb(Zig(x)) + (Uleb(w) + rest);
    UlebRoundTrip(Zig(x), Uleb(w) + rest);
    assert b[|Uleb(Zig(x))|..] == Uleb(w) + rest;
    UlebRoundTrip(w, rest);
  }

  lemma Product(k: nat, q: nat)
    requires q > 0
    ensures k <= k * q
  {
    assert k * q == k + k * (q - 1);
  }

  lemma Quotient(w: nat, q: nat)
    requires q > 0
    ensures 0 <= w / q <= w
  {
    CutDown(w, q);
    Product(w / q, q);
  }

  /** Decoding gives back the segments, cut to whole quanta. */
  lemma {:induction false} DecodeBytes(segs: seq<Seg>, size: nat, q: nat, i: nat)
    requires SegsOk(segs, size) && Changing(segs) && i <= |segs| && q > 0 && size < TWO63
    ensures Decode(Bytes(segs, size, q, i), Prev(segs, i), Bound(segs, size, q, i), i == 0, q) ==
      Some(Spans(segs, size, q, i))
    decreases |segs| - i
  {
    if i == |segs| {
      assert Bytes(segs, size, q, i) == [0];
      UlebRoundTrip(0, []);
      assert Uleb(0) + [] == [0];
    } else {
      DecodeBytes(segs, size, q, i + 1);
      assert i > 0 ==> Changes(segs, i);
      DecodeChunk(segs, size, q, i, Spans(segs, size, q, i + 1));
    }
  }

  function SpanOf(segs: seq<Seg>, size: nat, q: nat, i: nat): Span
    requires SegsOk(segs, size) && i < |segs| && q > 0
  {
    Span(Bound(segs, size, q, i), Bound(segs, size, q, i + 1), segs[i].val)
  }

  lemma DecodeChunk(segs: seq<Seg>, size: nat, q: nat, i: nat, more: seq<Span>)
    requires SegsOk(segs, size) && i < |segs| && q > 0 && size < TWO63 && (i > 0 ==> Prev(segs, i) != segs[i].val)
    requires Decode(Bytes(segs, size, q, i + 1), segs[i].val, Bound(segs, size, q, i + 1), false, q) == Some(more)
    ensures Decode(Bytes(segs, size, q, i), Prev(segs, i), Bound(segs, size, q, i), i == 0, q) ==
      Some([SpanOf(segs, size, q, i)] + more)
  {
    hide SegsOk, Uvarint, Chunk, Wrap, Unzig, Width, Decode, Bound;
    var rest := Bytes(segs, size, q, i + 1);
    ChunkReads(segs, size, q, i, rest);
    BoundIsLow(segs, size, q, i + 1);
    BoundNext(segs, size, q, i);
    WidthIsPositive(segs, size, i);
    StartIsInside(segs, size, i + 1);
    DecodeStep(Chunk(segs, size, q, i) + rest, Prev(segs, i), Bound(segs, size, q, i), i == 0, q);
  }

  /** Spans of segments i to j. */
  function SpansTo(segs: seq<Seg>, size: nat, q: nat, i: nat, j: nat): seq<Span>
    requires SegsOk(segs, size) && i <= j <= |segs| && q > 0
    decreases j - i
  {
    if i == j then [] else [SpanOf(segs, size, q, i)] + SpansTo(segs, size, q, i + 1, j)
  }

  /** A boundary without a change reads as the end of the table. */
  lemma {:induction false} DecodeStops(segs: seq<Seg>, size: nat, q: nat, i: nat, j: nat)
    requires SegsOk(segs, size) && q > 0 && size < TWO63 && i <= j && 0 < j < |segs| && !Changes(segs, j)
    requires forall k :: 0 < k < j ==> Changes(segs, k)
    ensures Decode(Bytes(segs, size, q, i), Prev(segs, i), Bound(segs, size, q, i), i == 0, q) ==
      Some(SpansTo(segs, size, q, i, j))
    decreases j - i
  {
    if i == j {
      ChunkReads(segs, size, q, j, Bytes(segs, size, q, j + 1));
      DecodeStep(Chunk(segs, size, q, j) + Bytes(segs, size, q, j + 1), Prev(segs, j), Bound(segs, size, q, j), false,
        q);
    } else {
      DecodeStops(segs, size, q, i + 1, j);
      assert i > 0 ==> Changes(segs, i);
      DecodeChunk(segs, size, q, i, SpansTo(segs, size, q, i + 1, j));
    }
  }

  lemma StartIsInside(segs: seq<Seg>, size: nat, i: nat)
    requires SegsOk(segs, size)
    ensures i < |segs| ==> segs[i].start < size
  {
  }

  lemma BoundNext(segs: seq<Seg>, size: nat, q: nat, i: nat)
    requires SegsOk(segs, size) && i < |segs| && q > 0
    ensures Bound(segs, size, q, i + 1) == Bound(segs, size, q, i) + Width(segs, size, i) / q * q
  {
  }
}
