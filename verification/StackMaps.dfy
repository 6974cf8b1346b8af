/** Looking a pc up in an encoded table, and the stack maps that are found that
    way: deduplicated bitmaps indexed by safepoint. */
module StackMaps {
  import opened ByteType
  import opened LittleEndian
  import opened Options
  import opened Varint
  import opened PcTable

  /** The value of the span that holds pc. */
  function ValueAt(spans: seq<Span>, pc: nat): Option<int> {
    if spans == [] then None else if spans[0].lo <= pc < spans[0].hi then Some(spans[0].val)
      else ValueAt(spans[1..], pc)
  }

  /** Spans follow each other without gap or overlap from lo to hi. */
  ghost predicate Tiles(spans: seq<Span>, lo: nat, hi: nat) {
    if spans == [] then lo == hi else spans[0].lo == lo && lo < spans[0].hi && Tiles(spans[1..], spans[0].hi, hi)
  }

  lemma {:induction false} BoundsRise(segs: seq<Seg>, size: nat, q: nat, i: nat, j: nat)
    requires SegsOk(segs, size) && i <= j <= |segs| && q > 0
    ensures Bound(segs, size, q, i) <= Bound(segs, size, q, j)
  {
    if i < j {
      BoundsRise(segs, size, q, i, j - 1);
      CutDown(Width(segs, size, j - 1), q);
    }
  }

  lemma {:induction false} SpanFound(segs: seq<Seg>, size: nat, q: nat, i: nat, j: nat, pc: nat)
    requires SegsOk(segs, size) && i <= j < |segs| && q > 0
      && Bound(segs, size, q, j) <= pc < Bound(segs, size, q, j + 1)
    ensures ValueAt(Spans(segs, size, q, i), pc) == Some(segs[j].val)
    decreases |segs| - i
  {
    assert Spans(segs, size, q, i)[1..] == Spans(segs, size, q, i + 1);
    if i < j {
      BoundsRise(segs, size, q, i + 1, j);
      SpanFound(segs, size, q, i + 1, j, pc);
    }
  }

  lemma {:induction false} SpanMissing(segs: seq<Seg>, size: nat, q: nat, i: nat, pc: nat)
    requires SegsOk(segs, size) && i <= |segs| && q > 0 && Bound(segs, size, q, |segs|) <= pc
    ensures ValueAt(Spans(segs, size, q, i), pc) == None
    decreases |segs| - i
  {
    if i < |segs| {
      assert Spans(segs, size, q, i)[1..] == Spans(segs, size, q, i + 1);
      BoundsRise(segs, size, q, i + 1, |segs|);
      SpanMissing(segs, size, q, i + 1, pc);
    }
  }

  /** The segment that holds pc. */
  lemma {:induction false} FindSeg(segs: seq<Seg>, n: nat, pc: nat) returns (j: nat)
    requires 0 < n <= |segs| && segs[0].start == 0
    ensures j < n && segs[j].start <= pc && SegValue(segs[..n], pc) == segs[j].val
      && (j + 1 < n ==> pc < segs[j + 1].start)
  {
    assert segs[..n][..n - 1] == segs[..n - 1];
    if segs[n - 1].start <= pc {
      j := n - 1;
    } else {
      j := FindSeg(segs, n - 1, pc);
    }
  }

  /** Every segment but the first starts at an entry. */
  ghost predicate FromEntries(segs: seq<Seg>, ents: seq<Entry>) {
    forall i :: 0 < i < |segs| ==> EntryAt(ents, segs[i].start)
  }

  ghost predicate EntryAt(ents: seq<Entry>, pc: nat) { exists k :: 0 <= k < |ents| && ents[k].pc == pc }

  lemma BuiltFromEntries(segs: seq<Seg>, ents: seq<Entry>, size: nat)
    requires Built(segs, ents, size)
    ensures FromEntries(segs, ents)
  {
    forall i | 0 < i < |segs|
      ensures EntryAt(ents, segs[i].start)
    {
      assert DepartsAt(ents, segs[i].start);
    }
  }

  // ----- tables whose pcs are whole instructions -----

  ghost predicate Whole(ents: seq<Entry>, size: nat, q: nat)
    requires q > 0
  {
    size % q == 0 && forall k :: 0 <= k < |ents| ==> ents[k].pc % q == 0
  }

  lemma WholeWidth(lo: nat, hi: nat, q: nat)
    requires q > 0 && lo % q == 0 && hi % q == 0 && lo <= hi
    ensures (hi - lo) / q * q == hi - lo
  {
    var a, b := lo / q, hi / q;
    assert lo == a * q && hi == b * q;
    assert hi - lo == (b - a) * q;
    Exact(hi - lo, b - a, q);
  }

  lemma Exact(w: nat, k: int, q: nat)
    requires q > 0 && w == k * q
    ensures w / q == k
  {
    assert w == w / q * q + w % q;
    var d := k - w / q;
    assert d * q == w % q;
  }

  lemma {:induction false} WholeBounds(segs: seq<Seg>, ents: seq<Entry>, size: nat, q: nat, i: nat)
    requires q > 0 && SegsOk(segs, size) && FromEntries(segs, ents) && Whole(ents, size, q) && i <= |segs|
    ensures Bound(segs, size, q, i) == if i < |segs| then segs[i].start else size
  {
    if i > 0 {
      WholeBounds(segs, ents, size, q, i - 1);
      WidthIsPositive(segs, size, i - 1);
      assert i < |segs| ==> EntryAt(ents, segs[i].start);
      assert i > 1 ==> EntryAt(ents, segs[i - 1].start);
      Zero(q);
      WholeWidth(segs[i - 1].start, EndOf(segs, size, i - 1), q);
    }
  }

  lemma Zero(q: nat)
    requires q > 0
    ensures 0 % q == 0
  {
  }

  lemma {:induction false} WholeTiles(segs: seq<Seg>, ents: seq<Entry>, size: nat, q: nat, i: nat)
    requires q > 0 && SegsOk(segs, size) && FromEntries(segs, ents) && Whole(ents, size, q) && i <= |segs|
    ensures Tiles(Spans(segs, size, q, i), if i < |segs| then segs[i].start else size, size)
    decreases |segs| - i
  {
    if i < |segs| {
      WholeBounds(segs, ents, size, q, i);
      WholeBounds(segs, ents, size, q, i + 1);
      WidthIsPositive(segs, size, i);
      WholeTiles(segs, ents, size, q, i + 1);
      assert Spans(segs, size, q, i)[1..] == Spans(segs, size, q, i + 1);
    }
  }

  /** The bytes decode to spans that tile [0, size) and give the step function. */
  ghost predicate Faithful(bytes: seq<Byte>, q: nat, size: nat, ents: seq<Entry>) {
    var spans := Decode(bytes, -1, 0, true, q);
    && spans.Some? && Tiles(spans.value, 0, size)
    && forall pc: nat :: pc < size ==> ValueAt(spans.value, pc) == Some(StepValue(ents, pc))
  }

  lemma WholeTable(segs: seq<Seg>, ents: seq<Entry>, size: nat, q: nat)
    requires q > 0 && 0 < size < TWO63 && Built(segs, ents, size) && Changing(segs) && Whole(ents, size, q)
    ensures Faithful(Bytes(segs, size, q, 0), q, size, ents)
  {
    BuiltFromEntries(segs, ents, size);
    DecodeBytes(segs, size, q, 0);
    WholeTiles(segs, ents, size, q, 0);
    forall pc: nat | pc < size
      ensures ValueAt(Spans(segs, size, q, 0), pc) == Some(StepValue(ents, pc))
    {
      assert segs[..|segs|] == segs;
      var j := FindSeg(segs, |segs|, pc);
      WholeBounds(segs, ents, size, q, j);
      WholeBounds(segs, ents, size, q, j + 1);
      SpanFound(segs, size, q, 0, j, pc);
    }
  }

  lemma {:induction false} TilesEnd(segs: seq<Seg>, size: nat, q: nat, i: nat, j: nat, hi: nat)
    requires SegsOk(segs, size) && i <= j <= |segs| && q > 0
      && Tiles(SpansTo(segs, size, q, i, j), Bound(segs, size, q, i), hi)
    ensures hi == Bound(segs, size, q, j)
    decreases j - i
  {
    if i < j {
      assert SpansTo(segs, size, q, i, j)[1..] == SpansTo(segs, size, q, i + 1, j);
      TilesEnd(segs, size, q, i + 1, j, hi);
    }
  }

  /** A segment that does not change the value cuts the table short. */
  lemma UnchangedTable(segs: seq<Seg>, ents: seq<Entry>, size: nat, q: nat)
    requires q > 0 && 0 < size < TWO63 && Built(segs, ents, size) && !Changing(segs)
    ensures !Faithful(Bytes(segs, size, q, 0), q, size, ents)
  {
    var j := FirstUnchanged(segs);
    DecodeStops(segs, size, q, 0, j);
    BoundIsLow(segs, size, q, j);
    if Tiles(SpansTo(segs, size, q, 0, j), 0, size) { TilesEnd(segs, size, q, 0, j, size); }
  }

  lemma {:induction false} FirstUnchanged(segs: seq<Seg>) returns (j: nat)
    requires !Changing(segs)
    ensures 0 < j < |segs| && !Changes(segs, j) && forall k :: 0 < k < j ==> Changes(segs, k)
    decreases |segs|
  {
    var m := |segs| - 1;
    if Changing(segs[..m]) {
      j := m;
      forall k | 0 < k < m
        ensures Changes(segs, k)
      {
        assert Changes(segs[..m], k);
      }
    } else {
      j := FirstUnchanged(segs[..m]);
      assert forall k :: 0 < k <= j ==> (Changes(segs[..m], k) <==> Changes(segs, k));
    }
  }

  /** For entries in pc order on instruction boundaries the table is faithful
      exactly when the entries settle; entries at distinct pcs always do. */
  method Pctab(q: nat, size: nat, ents: seq<Entry>) returns (bytes: seq<Byte>)
    requires q > 0 && size < TWO63 && Sorted(ents) && EntriesOk(ents)
    ensures size == 0 ==> bytes == []
    ensures size > 0 && Whole(ents, size, q) ==> (Faithful(bytes, q, size, ents) <==> Settles(ents, size))
  {
    hide Built, Changing, Whole, Faithful, Bytes, Settles, Sorted;
    ghost var segs;
    bytes, segs := PcBytes(q, size, ents);
    if size > 0 && Whole(ents, size, q) {
      ChangingIff(segs, ents, size);
      if Changing(segs) { WholeTable(segs, ents, size, q); } else { UnchangedTable(segs, ents, size, q); }
    }
  }

  // ----- stack maps -----

  datatype Safepoint = Safepoint(pc: nat, args: seq<Byte>, locals: seq<Byte>)

  /** Entry k of the index names safepoint k's pair of bitmaps, from the byte
      before its return address. */
  ghost predicate Indexed(sps: seq<Safepoint>, args: seq<seq<Byte>>, locals: seq<seq<Byte>>, idx: seq<Entry>, k: nat)
    requires k < |sps| && |idx| >= |sps|
  {
    && idx[k].pc == sps[k].pc - 1 && 0 <= idx[k].value < |args| == |locals|
    && args[idx[k].value] == sps[k].args && locals[idx[k].value] == sps[k].locals
  }

  /** The pair of bitmaps belongs to one of the first n safepoints. */
  ghost predicate Recorded(sps: seq<Safepoint>, n: nat, args: seq<Byte>, locals: seq<Byte>) {
    exists k :: 0 <= k < n && k < |sps| && sps[k].args == args && sps[k].locals == locals
  }

  method Dedup(sps: seq<Safepoint>) returns (args: seq<seq<Byte>>, locals: seq<seq<Byte>>, idx: seq<Entry>)
    requires forall k :: 0 <= k < |sps| ==> sps[k].pc > 0
    ensures |idx| == |sps| && |args| == |locals| <= |sps| && forall k :: 0 <= k < |sps| ==>
      Indexed(sps, args, locals, idx, k)
    ensures forall i, j :: 0 <= i < j < |args| ==> (args[i], locals[i]) != (args[j], locals[j])
    ensures forall i :: 0 <= i < |args| ==> Recorded(sps, |sps|, args[i], locals[i])
  {
    var seen: map<(seq<Byte>, seq<Byte>), nat> := map[];
    args, locals, idx := [], [], [];
    for n := 0 to |sps|
      invariant |idx| == n && |args| == |locals| <= n
      invariant forall p :: p in seen ==> seen[p] < |args| && p == (args[seen[p]], locals[seen[p]])
      invariant forall i :: 0 <= i < |args| ==> (args[i], locals[i]) in seen && seen[(args[i], locals[i])] == i
      invariant forall k :: 0 <= k < n ==> Indexed(sps[..n], args, locals, idx, k)
      invariant forall i :: 0 <= i < |args| ==> Recorded(sps, n, args[i], locals[i])
    {
      var p := (sps[n].args, sps[n].locals);
      ghost var args0, locals0, idx0 := args, locals, idx;
      var i := |args|;
      if p in seen {
        i := seen[p];
      } else {
        seen := seen[p := i];
        args, locals := args + [sps[n].args], locals + [sps[n].locals];
      }
      idx := idx + [Entry(sps[n].pc - 1, i)];
      ghost var now := sps[..n + 1];
      forall j | 0 <= j < |args|
        ensures Recorded(sps, n + 1, args[j], locals[j])
      {
        if j < |args0| { assert Recorded(sps, n, args0[j], locals0[j]); }
      }
      forall k | 0 <= k < n + 1
        ensures Indexed(now, args, locals, idx, k)
      {
        if k < n { assert Indexed(sps[..n], args0, locals0, idx0, k); }
      }
    }
    assert sps[..|sps|] == sps;
  }

  /** Four bytes, least significant first. */
  function Four(v: nat): (b: seq<Byte>)
    ensures |b| == 4
  {
    [v % 256, v / 256 % 256, v / 65536 % 256, v / 16777216 % 256]
  }

  function Stride(nbit: nat): nat { (nbit + 7) / 8 }

  function Concat(maps: seq<seq<Byte>>): seq<Byte> {
    if maps == [] then [] else Concat(maps[..|maps| - 1]) + maps[|maps| - 1]
  }

  /** Count, width, bitmaps; a blob is never empty. */
  function Blob(nbit: nat, maps: seq<seq<Byte>>): seq<Byte> {
    Four(if |maps| == 0 then 1 else |maps|) + Four(nbit) +
      (if |maps| == 0 then seq(Stride(nbit), _ => 0) else Concat(maps))
  }

  /** Where map i starts. */
  function Place(i: nat, stride: nat): nat { i * stride }

  /** What the runtime reads for index i. */
  function BlobAt(blob: seq<Byte>, stride: nat, i: nat): seq<Byte>
    requires 8 + Place(i, stride) + stride <= |blob|
  {
    blob[8 + Place(i, stride)..8 + Place(i, stride) + stride]
  }

  lemma Times(i: nat, k: nat, stride: nat)
    requires i <= k
    ensures (i + 1) * stride == i * stride + stride && i * stride <= k * stride
  {
    assert k * stride == i * stride + (k - i) * stride;
  }

  lemma {:induction false} ConcatLength(maps: seq<seq<Byte>>, stride: nat)
    requires forall k :: 0 <= k < |maps| ==> |maps[k]| == stride
    ensures |Concat(maps)| == |maps| * stride
  {
    if maps != [] {
      ConcatLength(maps[..|maps| - 1], stride);
      Times(|maps| - 1, |maps| - 1, stride);
    }
  }

  /** lo is where map i starts. */
  lemma {:induction false} ConcatAt(maps: seq<seq<Byte>>, stride: nat, i: nat, lo: nat)
    requires i < |maps| && lo == Place(i, stride) && forall k :: 0 <= k < |maps| ==> |maps[k]| == stride
    ensures lo + stride <= |Concat(maps)| && Concat(maps)[lo..lo + stride] == maps[i]
    decreases |maps|
  {
    var rest := maps[..|maps| - 1];
    if i < |rest| {
      ConcatAt(rest, stride, i, lo);
      assert Concat(maps)[lo..lo + stride] == Concat(rest)[lo..lo + stride];
    } else {
      ConcatLength(rest, stride);
    }
  }

  /** A blob begins with the number of bitmaps and the number of bits of each. */
  lemma BlobHead(nbit: nat, maps: seq<seq<Byte>>)
    ensures Field(Blob(nbit, maps), 0, 4, if maps == [] then 1 else |maps|) && Field(Blob(nbit, maps), 4, 4, nbit)
  {
    FourField(if maps == [] then 1 else |maps|);
    FourField(nbit);
    hide Four, Concat;
  }

  lemma FourField(v: nat)
    ensures Field(Four(v), 0, 4, v)
  {
    var b := Four(v);
    assert b[0] == Digit(v, 0);
    assert b[1] == Digit(v / 256, 0) == Digit(v, 1);
    assert b[2] == Digit(v / 256 / 256, 0) == Digit(v / 256, 1) == Digit(v, 2);
    assert b[3] == Digit(v / 256 / 256 / 256, 0) == Digit(v / 256 / 256, 1) == Digit(v / 256, 2) == Digit(v, 3);
    hide Digit, Four;
    forall i | 0 <= i < 4
      ensures b[0 + i] == Digit(v, i)
    {
      assert i == 0 || i == 1 || i == 2 || i == 3;
    }
  }

  lemma BlobHolds(nbit: nat, maps: seq<seq<Byte>>, i: nat)
    requires i < |maps| && forall k :: 0 <= k < |maps| ==> |maps[k]| == Stride(nbit)
    ensures 8 + Place(i, Stride(nbit)) + Stride(nbit) <= |Blob(nbit, maps)|
      && BlobAt(Blob(nbit, maps), Stride(nbit), i) == maps[i]
  {
    hide Stride, Four, Concat, Place;
    var s, lo := Stride(nbit), Place(i, Stride(nbit));
    ConcatAt(maps, s, i, lo);
    var head := Four(|maps|) + Four(nbit);
    assert Blob(nbit, maps) == head + Concat(maps);
    AfterHead(head, Concat(maps), lo, s);
  }

  lemma AfterHead(head: seq<Byte>, body: seq<Byte>, lo: nat, s: nat)
    requires |head| == 8 && lo + s <= |body|
    ensures (head + body)[8 + lo..8 + lo + s] == body[lo..lo + s]
  {
  }

  // ----- safepoints -----

  /** Return addresses in order, on instruction boundaries, inside the function. */
  ghost predicate SafepointsOk(sps: seq<Safepoint>, size: nat, q: nat)
    requires q > 0
  {
    && size % q == 0
    && (forall k :: 0 <= k < |sps| ==> 0 < sps[k].pc <= size && sps[k].pc % q == 0)
    && (forall j, k :: 0 <= j < k < |sps| ==> sps[j].pc < sps[k].pc)
  }

  /** The index entry in force at a safepoint's return address less one is the
      safepoint's own. */
  lemma {:induction false} OwnEntry(sps: seq<Safepoint>, idx: seq<Entry>, n: nat, k: nat)
    requires k < n <= |sps| && |idx| == |sps| && forall j, m :: 0 <= j < m < |sps| ==> sps[j].pc < sps[m].pc
    requires forall j :: 0 <= j < |sps| ==> sps[j].pc > 0 && idx[j].pc == sps[j].pc - 1
    ensures StepValue(idx[..n], sps[k].pc - 1) == idx[k].value
  {
    assert idx[..n][..n - 1] == idx[..n - 1];
    if k + 1 < n {
      OwnEntry(sps, idx, n - 1, k);
    }
  }

  /** With a quantum above one, an entry a byte before an instruction boundary
      is moved back to the instruction before, and the last one is cut off. */
  lemma {:induction false} CutBounds(segs: seq<Seg>, ents: seq<Entry>, size: nat, q: nat, i: nat)
    requires q > 1 && SegsOk(segs, size) && FromEntries(segs, ents) && size % q == 0 && i <= |segs| && |segs| > 1
    requires forall k :: 0 <= k < |ents| ==> (ents[k].pc + 1) % q == 0
    ensures Bound(segs, size, q, i) == if i == 0 then 0 else if i < |segs| then segs[i].start + 1 - q else size - q
  {
    if i > 0 {
      CutBounds(segs, ents, size, q, i - 1);
      WidthIsPositive(segs, size, i - 1);
      assert i < |segs| ==> EntryAt(ents, segs[i].start);
      assert i > 1 ==> EntryAt(ents, segs[i - 1].start);
      var lo, hi := if i == 1 then 0 else segs[i - 1].start + 1, if i < |segs| then segs[i].start + 1 else size;
      Zero(q);
      CutWidth(lo, hi, q, Width(segs, size, i - 1), i == 1, i == |segs|);
    }
  }

  /** lo and hi are boundaries; w is the distance between the entries. */
  lemma CutWidth(lo: nat, hi: nat, q: nat, w: nat, first: bool, last: bool)
    requires q > 1 && lo % q == 0 && hi % q == 0 && !(first && last)
    requires w == hi - lo + (if first then -1 else 0) + (if last then 1 else 0)
    ensures w / q * q == if first then hi - lo - q else hi - lo
  {
    var a, b := lo / q, hi / q;
    assert lo == a * q && hi == b * q && hi - lo == (b - a) * q;
    if first {
      assert w == (b - a - 1) * q + (q - 1);
      Near(w, b - a - 1, q, q - 1);
    } else {
      Near(w, b - a, q, if last then 1 else 0);
    }
  }

  lemma Near(w: nat, k: int, q: nat, e: nat)
    requires q > 0 && w == k * q + e && e < q
    ensures w / q == k
  {
    assert w == w / q * q + w % q;
    var d := k - w / q;
    assert d * q == w % q - e;
  }

  lemma {:induction false} StepBefore(ents: seq<Entry>, pc: nat)
    requires forall i :: 0 <= i < |ents| ==> pc < ents[i].pc
    ensures StepValue(ents, pc) == -1
  {
    if ents != [] { StepBefore(ents[..|ents| - 1], pc); }
  }

  lemma BoundaryGap(a: nat, b: nat, q: nat)
    requires q > 0 && a % q == 0 && b % q == 0 && a < b
    ensures a + q <= b
  {
    var i, j := a / q, b / q;
    assert a == i * q && b == j * q;
    if j <= i { Times(j, i, q); }
    Times(i, j - 1, q);
    assert j * q == (j - 1) * q + q;
  }

  /** A safepoint's entry is on the index; with a quantum above one, every
      entry lies a byte before a boundary and after the first instruction. */
  ghost predicate IndexOk(sps: seq<Safepoint>, idx: seq<Entry>, size: nat, q: nat)
    requires q > 0
  {
    SafepointsOk(sps, size, q) && |idx| == |sps| && forall k :: 0 <= k < |sps| ==>
      idx[k].pc == sps[k].pc - 1 && 0 <= idx[k].value
  }

  lemma EntryOfSafepoint(sps: seq<Safepoint>, idx: seq<Entry>, size: nat, q: nat, k: nat)
    requires q > 0 && IndexOk(sps, idx, size, q) && k < |sps|
    ensures StepValue(idx, sps[k].pc - 1) == idx[k].value && (q > 1 ==> StepValue(idx, 0) == -1)
  {
    assert idx[..|idx|] == idx;
    OwnEntry(sps, idx, |sps|, k);
    if q > 1 {
      forall i | 0 <= i < |idx|
        ensures 0 < idx[i].pc
      {
        Zero(q);
        BoundaryGap(0, sps[i].pc, q);
      }
      StepBefore(idx, 0);
    }
  }

  /** The span that holds a safepoint, when the quantum cuts widths. */
  lemma CutLookup(sps: seq<Safepoint>, idx: seq<Entry>, segs: seq<Seg>, size: nat, q: nat, k: nat)
    requires q > 1 && IndexOk(sps, idx, size, q) && k < |sps|
    requires Built(segs, idx, size)
    ensures ValueAt(Spans(segs, size, q, 0), sps[k].pc - 1) == if sps[k].pc < size then Some(idx[k].value) else None
  {
    BuiltFromEntries(segs, idx, size);
    var pc := sps[k].pc - 1;
    var j := SegOfSafepoint(sps, idx, segs, size, q, k);
    CutBounds(segs, idx, size, q, j);
    CutBounds(segs, idx, size, q, j + 1);
    hide SameValues, SegValue, Spans, Bound;
    if j + 1 < |segs| {
      assert EntryAt(idx, segs[j + 1].start);
      BoundaryGap(sps[k].pc, segs[j + 1].start + 1, q);
      SpanFound(segs, size, q, 0, j, pc);
    } else if sps[k].pc < size {
      BoundaryGap(sps[k].pc, size, q);
      SpanFound(segs, size, q, 0, j, pc);
    } else {
      SpanMissing(segs, size, q, 0, pc);
    }
  }

  /** A safepoint never falls in the first segment, which starts at pc 0. */
  lemma SegOfSafepoint(sps: seq<Safepoint>, idx: seq<Entry>, segs: seq<Seg>, size: nat, q: nat, k: nat) returns (j: nat)
    requires q > 1 && IndexOk(sps, idx, size, q) && k < |sps| && SegsOk(segs, size) && SameValues(segs, idx, size)
    ensures 0 < j < |segs| && segs[j].start <= sps[k].pc - 1 && segs[j].val == idx[k].value
      && (j + 1 < |segs| ==> sps[k].pc - 1 < segs[j + 1].start)
  {
    EntryOfSafepoint(sps, idx, size, q, k);
    assert segs[..|segs|] == segs;
    var z := FindSeg(segs, |segs|, 0);
    AllStarts(segs, size, z);
    j := FindSeg(segs, |segs|, sps[k].pc - 1);
  }

  lemma {:induction false} AllStarts(segs: seq<Seg>, size: nat, i: nat)
    requires SegsOk(segs, size) && i < |segs|
    ensures i > 0 ==> segs[i].start > 0
  {
    if i > 0 {
      assert Rises(segs, i);
    }
  }

  /** On amd64 (quantum 1) every safepoint finds its own maps. With a larger
      quantum that holds exactly for the safepoints before the function's end:
      a call that is the last instruction is not covered. */
  lemma SafepointLookup(sps: seq<Safepoint>, idx: seq<Entry>, segs: seq<Seg>, size: nat, q: nat, k: nat)
    requires q > 0 && 0 < size < TWO63 && IndexOk(sps, idx, size, q) && k < |sps|
    requires Built(segs, idx, size) && Changing(segs)
    ensures var spans := Decode(Bytes(segs, size, q, 0), -1, 0, true, q);
      spans.Some? && ValueAt(spans.value, sps[k].pc - 1) == if q == 1 || sps[k].pc < size then Some(idx[k].value)
        else None
  {
    DecodeBytes(segs, size, q, 0);
    if q == 1 {
      WholeTable(segs, idx, size, 1);
      EntryOfSafepoint(sps, idx, size, 1, k);
    } else {
      CutLookup(sps, idx, segs, size, q, k);
    }
  }

  /** What a lookup at a return address less one yields for a safepoint. */
  ghost predicate FindsMaps(sp: Safepoint, table: seq<Byte>, argsBlob: seq<Byte>, localsBlob: seq<Byte>, nargs: nat,
      nlocals: nat, size: nat, q: nat)
    requires sp.pc > 0
  {
    var spans := Decode(table, -1, 0, true, q);
    spans.Some? &&
    var v := ValueAt(spans.value, sp.pc - 1);
    if q == 1 || sp.pc < size
    then v.Some? && v.value >= 0 && MapAt(argsBlob, nargs, v.value, sp.args)
      && MapAt(localsBlob, nlocals, v.value, sp.locals)
    else v == None
  }

  ghost predicate MapAt(blob: seq<Byte>, nbit: nat, i: nat, m: seq<Byte>) {
    var s := Stride(nbit);
    8 + Place(i, s) + s <= |blob| && BlobAt(blob, s, i) == m
  }

  /** From the safepoints of one function to its table and blobs. */
  method Stackmaps(sps: seq<Safepoint>, nargs: nat, nlocals: nat, size: nat, q: nat)
      returns (argsBlob: seq<Byte>, localsBlob: seq<Byte>, table: seq<Byte>)
    requires q > 0 && 0 < size < TWO63 && |sps| < TWO63 && SafepointsOk(sps, size, q)
    requires forall k :: 0 <= k < |sps| ==> |sps[k].args| == Stride(nargs) && |sps[k].locals| == Stride(nlocals)
    ensures forall k :: 0 <= k < |sps| ==> FindsMaps(sps[k], table, argsBlob, localsBlob, nargs, nlocals, size, q)
  {
    var args, locals, idx := Dedup(sps);
    IndexIsOk(sps, args, locals, idx, size, q);
    argsBlob, localsBlob := Blob(nargs, args), Blob(nlocals, locals);
    MapsHaveStride(sps, args, locals, nargs, nlocals);
    IncreasingSettles(idx, size);
    hide Built, Changing, Settles, Sorted, IndexOk, Blob, Bytes, FindsMaps, Recorded, Indexed, Increasing, EntriesOk;
    ghost var segs;
    table, segs := PcBytes(q, size, idx);
    ChangingIff(segs, idx, size);
    forall k | 0 <= k < |sps|
      ensures FindsMaps(sps[k], table, argsBlob, localsBlob, nargs, nlocals, size, q)
    {
      FindsItsMaps(sps, args, locals, idx, segs, nargs, nlocals, size, q, k);
    }
  }

  lemma FindsItsMaps(sps: seq<Safepoint>, args: seq<seq<Byte>>, locals: seq<seq<Byte>>, idx: seq<Entry>,
      segs: seq<Seg>, nargs: nat, nlocals: nat, size: nat, q: nat, k: nat)
    requires q > 0 && 0 < size < TWO63 && IndexOk(sps, idx, size, q) && k < |sps| && sps[k].pc > 0
    requires Built(segs, idx, size) && Changing(segs) && |args| == |locals| && |idx| == |sps|
      && Indexed(sps, args, locals, idx, k)
    requires forall i :: 0 <= i < |args| ==> |args[i]| == Stride(nargs) && |locals[i]| == Stride(nlocals)
    ensures FindsMaps(sps[k], Bytes(segs, size, q, 0), Blob(nargs, args), Blob(nlocals, locals), nargs, nlocals, size,
      q)
  {
    hide Built, Changing, IndexOk, Blob, Bytes, Decode, Stride;
    SafepointLookup(sps, idx, segs, size, q, k);
    BlobHolds(nargs, args, idx[k].value);
    BlobHolds(nlocals, locals, idx[k].value);
  }

  lemma MapsHaveStride(sps: seq<Safepoint>, args: seq<seq<Byte>>, locals: seq<seq<Byte>>, nargs: nat, nlocals: nat)
    requires |args| == |locals| && forall i :: 0 <= i < |args| ==> Recorded(sps, |sps|, args[i], locals[i])
    requires forall k :: 0 <= k < |sps| ==> |sps[k].args| == Stride(nargs) && |sps[k].locals| == Stride(nlocals)
    ensures forall i :: 0 <= i < |args| ==> |args[i]| == Stride(nargs) && |locals[i]| == Stride(nlocals)
  {
    forall i | 0 <= i < |args|
      ensures |args[i]| == Stride(nargs) && |locals[i]| == Stride(nlocals)
    {
      assert Recorded(sps, |sps|, args[i], locals[i]);
    }
  }

  lemma IndexIsOk(sps: seq<Safepoint>, args: seq<seq<Byte>>, locals: seq<seq<Byte>>, idx: seq<Entry>, size: nat, q: nat)
    requires q > 0 && size < TWO63 && SafepointsOk(sps, size, q) && |idx| == |sps| < TWO63 && |args| <= |sps|
    requires forall k :: 0 <= k < |sps| ==> Indexed(sps, args, locals, idx, k)
    ensures IndexOk(sps, idx, size, q) && Increasing(idx) && EntriesOk(idx)
  {
    forall k | 0 <= k < |idx|
      ensures IsU64(idx[k].pc) && IsI64(idx[k].value) && idx[k].pc == sps[k].pc - 1 && 0 <= idx[k].value
    {
      assert Indexed(sps, args, locals, idx, k);
    }
  }
}
