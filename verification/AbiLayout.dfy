/** Where the Go ABI and the C ABI each put the arguments of a signature:
    registers in table order, then aligned, disjoint stack slots. */
module AbiLayout {
  import opened Options

  datatype Bank = IntBank | FloatBank

  datatype Ty = Ptr | F32 | F64 | Int(bits: nat)

  predicate IsScalar(ty: Ty) { ty.Int? ==> ty.bits in {1, 8, 16, 32, 64} }

  function BankOf(ty: Ty): Bank { if ty.F32? || ty.F64? then FloatBank else IntBank }

  /** Size in bytes, which is also the alignment. */
  function Size(ty: Ty): (n: nat)
    ensures IsScalar(ty) ==> n in {1, 2, 4, 8}
  {
    match ty
    case Ptr => 8
    case F32 => 4
    case F64 => 8
    case Int(bits) => if bits == 1 then 1 else bits / 8
  }

  /** A parameter or result: a scalar, a literal struct, a packed struct, or a
      type outside the supported subset (an identified struct, a vector, ...). */
  datatype Param = Scalar(ty: Ty) | Aggregate(fields: seq<Ty>) | Packed | Foreign

  datatype Reason =
    | PackedAggregate | EmptyAggregate | FieldOutsideSubset | ReturnTooLarge | SharedEightbyte | OutsideSubset

  function AlignUp(v: nat, a: nat): (r: nat)
    requires a in {1, 2, 4, 8}
    ensures v <= r < v + a && r % a == 0
  {
    if a == 1 then v else if a == 2 then (v + 1) / 2 * 2 else if a == 4 then (v + 3) / 4 * 4 else (v + 7) / 8 * 8
  }

  // ----- aggregates -----

  datatype AggLay = AggLay(offs: seq<nat>, size: nat, align: nat)

  predicate AllScalar(fields: seq<Ty>) { forall i :: 0 <= i < |fields| ==> IsScalar(fields[i]) }

  /** Where field i starts and where it ends. */
  function FieldOff(fields: seq<Ty>, i: nat): nat
    requires AllScalar(fields) && i < |fields|
    decreases i, 1
  {
    AlignUp(EndAt(fields, i), Size(fields[i]))
  }

  function EndAt(fields: seq<Ty>, i: nat): nat
    requires AllScalar(fields) && i <= |fields|
    decreases i, 0
  {
    if i == 0 then 0 else FieldOff(fields, i - 1) + Size(fields[i - 1])
  }

  function MaxAlign(fields: seq<Ty>, i: nat): (a: nat)
    requires AllScalar(fields) && i <= |fields|
    ensures a in {1, 2, 4, 8} && forall j :: 0 <= j < i ==> Size(fields[j]) <= a
  {
    if i == 0 then 1 else if Size(fields[i - 1]) > MaxAlign(fields, i - 1) then Size(fields[i - 1])
      else MaxAlign(fields, i - 1)
  }

  predicate SeparateEightbytes(fields: seq<Ty>)
    requires AllScalar(fields)
  {
    forall i, j {:trigger FieldOff(fields, i), FieldOff(fields, j)} :: 0 <= i < j < |fields| ==>
      FieldOff(fields, i) / 8 != FieldOff(fields, j) / 8
  }

  /** The struct layouts the thunk compiler accepts. */
  predicate Layable(fields: seq<Ty>, returnLimit: bool) {
    && fields != [] && AllScalar(fields) && SeparateEightbytes(fields)
    && (returnLimit ==> AlignUp(EndAt(fields, |fields|), MaxAlign(fields, |fields|)) <= 16)
  }

  /** r is the least multiple of a from v on. */
  predicate Least(r: nat, v: nat, a: nat) { a > 0 && v <= r < v + a && r % a == 0 }

  /** The C rule for structs: each field is at the next multiple of its size, the
      struct is aligned as its largest field and its size rounded up to that. */
  ghost predicate CRule(fields: seq<Ty>, l: AggLay)
    requires AllScalar(fields)
  {
    && |l.offs| == |fields| && (fields != [] ==> l.offs[0] == 0)
    && (forall i :: 0 < i < |fields| ==> Least(l.offs[i], l.offs[i - 1] + Size(fields[i - 1]), Size(fields[i])))
    && (forall i :: 0 <= i < |fields| ==> Size(fields[i]) <= l.align)
    && (fields != [] ==> exists i :: 0 <= i < |fields| && Size(fields[i]) == l.align)
    && (fields != [] ==> Least(l.size, l.offs[|fields| - 1] + Size(fields[|fields| - 1]), l.align))
  }

  /** The rule leaves no choice. */
  lemma CRuleOnce(fields: seq<Ty>, l: AggLay, k: AggLay)
    requires AllScalar(fields) && fields != [] && CRule(fields, l) && CRule(fields, k)
    ensures l == k
  {
    OffsetsOnce(fields, l, k, |fields|);
    LeastOnce(l.size, k.size, l.offs[|fields| - 1] + Size(fields[|fields| - 1]), l.align);
  }

  lemma LeastOnce(r: nat, q: nat, v: nat, a: nat)
    requires a in {1, 2, 4, 8} && Least(r, v, a) && Least(q, v, a)
    ensures r == q
  {
    if a == 2 { Near2(r, q); }
    else if a == 4 { Near4(r, q); }
    else if a == 8 { Near8(r, q); }
  }

  lemma Near2(r: nat, q: nat)
    requires r % 2 == q % 2 && -2 < r - q < 2
    ensures r == q
  {
  }

  lemma Near4(r: nat, q: nat)
    requires r % 4 == q % 4 && -4 < r - q < 4
    ensures r == q
  {
  }

  lemma Near8(r: nat, q: nat)
    requires r % 8 == q % 8 && -8 < r - q < 8
    ensures r == q
  {
  }

  lemma {:induction false} OffsetsOnce(fields: seq<Ty>, l: AggLay, k: AggLay, n: nat)
    requires AllScalar(fields) && CRule(fields, l) && CRule(fields, k) && n <= |fields|
    ensures l.offs[..n] == k.offs[..n]
  {
    if n > 0 {
      OffsetsOnce(fields, l, k, n - 1);
      if n > 1 {
        assert l.offs[n - 2] == l.offs[..n - 1][n - 2] == k.offs[n - 2];
        LeastOnce(l.offs[n - 1], k.offs[n - 1], l.offs[n - 2] + Size(fields[n - 2]), Size(fields[n - 1]));
      }
      assert l.offs[..n] == l.offs[..n - 1] + [l.offs[n - 1]] && k.offs[..n] == k.offs[..n - 1] + [k.offs[n - 1]];
    }
  }

  /** A layout by the C rule in which each field has an eightbyte of its own. */
  ghost predicate AggOk(fields: seq<Ty>, l: AggLay)
    requires AllScalar(fields)
  {
    && CRule(fields, l) && |l.offs| == |fields| && l.align in {1, 2, 4, 8} && l.size % l.align == 0
    && (forall i :: 0 <= i < |fields| ==> FieldOk(fields, l, i))
    && (forall i, j :: 0 <= i < j < |fields| ==>
      l.offs[i] + Size(fields[i]) <= l.offs[j] && l.offs[i] / 8 < l.offs[j] / 8)
  }

  ghost predicate FieldOk(fields: seq<Ty>, l: AggLay, i: nat)
    requires AllScalar(fields) && |l.offs| == |fields| && i < |fields|
  {
    && l.offs[i] % Size(fields[i]) == 0 && l.offs[i] + Size(fields[i]) <= l.size && Size(fields[i]) <= l.align
    && l.offs[i] / 8 == (l.offs[i] + Size(fields[i]) - 1) / 8
  }

  /** An aligned scalar never crosses an eightbyte. */
  lemma AlignedStaysInside(off: nat, size: nat)
    requires size in {1, 2, 4, 8} && off % size == 0
    ensures off / 8 == (off + size - 1) / 8
  {
  }

  lemma {:induction false} OffsetsGrow(fields: seq<Ty>, i: nat, j: nat)
    requires AllScalar(fields) && i < j <= |fields|
    ensures FieldOff(fields, i) + Size(fields[i]) <= EndAt(fields, j)
  {
    if i + 1 < j {
      OffsetsGrow(fields, i, j - 1);
    }
  }

  lemma {:induction false} SomeIsMax(fields: seq<Ty>, n: nat)
    requires AllScalar(fields) && 0 < n <= |fields|
    ensures exists i :: 0 <= i < n && Size(fields[i]) == MaxAlign(fields, n)
  {
    if n > 1 { SomeIsMax(fields, n - 1); }
    assert MaxAlign(fields, 0) == 1;
    if MaxAlign(fields, n) == Size(fields[n - 1]) { assert Size(fields[n - 1]) == MaxAlign(fields, n); }
  }

  lemma LaidByRule(fields: seq<Ty>, l: AggLay)
    requires AllScalar(fields) && |l.offs| == |fields|
    requires forall i :: 0 <= i < |fields| ==> l.offs[i] == FieldOff(fields, i)
    requires l.align == MaxAlign(fields, |fields|) && l.size == AlignUp(EndAt(fields, |fields|), l.align)
    ensures CRule(fields, l)
  {
    forall i | 0 < i < |fields|
      ensures Least(l.offs[i], l.offs[i - 1] + Size(fields[i - 1]), Size(fields[i]))
    {
      NextField(fields, i);
      hide FieldOff, Least;
      assert l.offs[i - 1] == FieldOff(fields, i - 1) && l.offs[i] == FieldOff(fields, i);
    }
    if fields != [] {
      SomeIsMax(fields, |fields|);
      assert EndAt(fields, 0) == 0;
    }
  }

  lemma NextField(fields: seq<Ty>, i: nat)
    requires AllScalar(fields) && 0 < i < |fields|
    ensures Least(FieldOff(fields, i), FieldOff(fields, i - 1) + Size(fields[i - 1]), Size(fields[i]))
  {
    assert EndAt(fields, i) == FieldOff(fields, i - 1) + Size(fields[i - 1]);
  }

  /** The computed layout is the one the rule gives. */
  lemma RuleOffsets(fields: seq<Ty>, l: AggLay)
    requires AllScalar(fields) && fields != [] && CRule(fields, l)
    ensures |l.offs| == |fields| && forall i :: 0 <= i < |fields| ==> l.offs[i] == FieldOff(fields, i)
    ensures l.size == AlignUp(EndAt(fields, |fields|), MaxAlign(fields, |fields|))
  {
    hide CRule, FieldOff, EndAt, MaxAlign, AlignUp;
    var a := MaxAlign(fields, |fields|);
    var k := AggLay(seq(|fields|, i requires 0 <= i < |fields| => FieldOff(fields, i)),
      AlignUp(EndAt(fields, |fields|), a), a);
    LaidByRule(fields, k);
    CRuleOnce(fields, l, k);
  }

  ghost predicate EightbyteEach(offs: seq<nat>) { forall i, j :: 0 <= i < j < |offs| ==> offs[i] / 8 != offs[j] / 8 }

  lemma SeparateIff(fields: seq<Ty>, offs: seq<nat>)
    requires AllScalar(fields) && |offs| == |fields| && forall i :: 0 <= i < |fields| ==> offs[i] == FieldOff(fields, i)
    ensures SeparateEightbytes(fields) <==> EightbyteEach(offs)
  {
    hide FieldOff;
    if EightbyteEach(offs) {
      forall i, j {:trigger FieldOff(fields, i), FieldOff(fields, j)} | 0 <= i < j < |fields|
        ensures FieldOff(fields, i) / 8 != FieldOff(fields, j) / 8
      {
        assert offs[i] / 8 != offs[j] / 8;
      }
    }
  }

  /** What is accepted, said by the layout the C rule gives: fields that are
      scalars with an eightbyte each, and for a result at most 16 bytes. */
  lemma LayableIff(fields: seq<Ty>, l: AggLay, returnLimit: bool)
    requires AllScalar(fields) && fields != [] && CRule(fields, l)
    ensures Layable(fields, returnLimit) <==> EightbyteEach(l.offs) && (returnLimit ==> l.size <= 16)
  {
    hide CRule, FieldOff, EndAt, MaxAlign, AlignUp, SeparateEightbytes, EightbyteEach;
    RuleOffsets(fields, l);
    SeparateIff(fields, l.offs);
  }

  lemma LaidFields(fields: seq<Ty>, l: AggLay)
    requires AllScalar(fields) && |l.offs| == |fields| && SeparateEightbytes(fields)
    requires forall i :: 0 <= i < |fields| ==> l.offs[i] == FieldOff(fields, i)
    requires l.align == MaxAlign(fields, |fields|) && EndAt(fields, |fields|) <= l.size
    ensures forall i :: 0 <= i < |fields| ==> FieldOk(fields, l, i)
    ensures forall i, j :: 0 <= i < j < |fields| ==>
      l.offs[i] + Size(fields[i]) <= l.offs[j] && l.offs[i] / 8 < l.offs[j] / 8
  {
    forall i | 0 <= i < |fields|
      ensures FieldOk(fields, l, i)
    {
      OffsetsGrow(fields, i, |fields|);
      AlignedStaysInside(l.offs[i], Size(fields[i]));
    }
    forall i, j | 0 <= i < j < |fields|
      ensures l.offs[i] + Size(fields[i]) <= l.offs[j] && l.offs[i] / 8 < l.offs[j] / 8
    {
      OffsetsGrow(fields, i, j);
      assert l.offs[i] == FieldOff(fields, i) && l.offs[j] == FieldOff(fields, j);
    }
  }

  lemma LaidIsOk(fields: seq<Ty>, l: AggLay)
    requires AllScalar(fields) && |l.offs| == |fields| && SeparateEightbytes(fields)
    requires forall i :: 0 <= i < |fields| ==> l.offs[i] == FieldOff(fields, i)
    requires l.align == MaxAlign(fields, |fields|) && l.size == AlignUp(EndAt(fields, |fields|), l.align)
    ensures AggOk(fields, l)
  {
    hide CRule, FieldOk, SeparateEightbytes, FieldOff, EndAt, MaxAlign;
    LaidByRule(fields, l);
    LaidFields(fields, l);
  }

  /** Walks the fields with a running offset and alignment. */
  method LayFields(fields: seq<Ty>) returns (ok: bool, offs: seq<nat>, offset: nat, align: nat)
    ensures ok <==> AllScalar(fields)
    ensures ok ==> |offs| == |fields| && offset == EndAt(fields, |fields|) && align == MaxAlign(fields, |fields|)
    ensures ok ==> forall j :: 0 <= j < |fields| ==> offs[j] == FieldOff(fields, j)
  {
    ok, offs, offset, align := true, [], 0, 1;
    for i := 0 to |fields|
      invariant ok && AllScalar(fields[..i]) && |offs| == i
      invariant offset == EndAt(fields[..i], i) && align == MaxAlign(fields[..i], i)
      invariant forall j :: 0 <= j < i ==> offs[j] == FieldOff(fields[..i], j)
    {
      if !IsScalar(fields[i]) {
        ok := false;
        return;
      }
      assert fields[..i + 1] == fields[..i] + [fields[i]];
      OffsetsExtend(fields[..i], fields[i], i);
      offset := AlignUp(offset, Size(fields[i]));
      offs := offs + [offset];
      offset := offset + Size(fields[i]);
      if Size(fields[i]) > align { align := Size(fields[i]); }
    }
    assert fields[..|fields|] == fields;
  }

  /** Whether no two offsets share an eightbyte. */
  method OnePerEightbyte(offs: seq<nat>) returns (ok: bool)
    ensures ok <==> forall j, k :: 0 <= j < k < |offs| ==> offs[j] / 8 != offs[k] / 8
  {
    var seen: set<nat> := {};
    for i := 0 to |offs|
      invariant forall j :: 0 <= j < i ==> offs[j] / 8 in seen
      invariant forall e :: e in seen ==> exists j :: 0 <= j < i && offs[j] / 8 == e
      invariant forall j, k :: 0 <= j < k < i ==> offs[j] / 8 != offs[k] / 8
    {
      if offs[i] / 8 in seen { return false; }
      seen := seen + {offs[i] / 8};
    }
    return true;
  }

  /** Accepted exactly for the layable structs. */
  method AggregateLayout(fields: seq<Ty>, returnLimit: bool) returns (r: Result<AggLay, Reason>)
    ensures r.Ok? <==> Layable(fields, returnLimit)
    ensures r.Ok? ==> AggOk(fields, r.value) && (returnLimit ==> r.value.size <= 16)
  {
    if |fields| == 0 { return Err(EmptyAggregate); }
    var ok, offs, offset, align := LayFields(fields);
    if !ok { return Err(FieldOutsideSubset); }
    var size := AlignUp(offset, align);
    if returnLimit && size > 16 { return Err(ReturnTooLarge); }
    ok := OnePerEightbyte(offs);
    assert ok <==> SeparateEightbytes(fields);
    if !ok { return Err(SharedEightbyte); }
    LaidIsOk(fields, AggLay(offs, size, align));
    return Ok(AggLay(offs, size, align));
  }

  /** Offsets only look at the fields before. */
  lemma {:induction false} OffsetsExtend(fields: seq<Ty>, ty: Ty, i: nat)
    requires AllScalar(fields) && IsScalar(ty) && i <= |fields|
    ensures AllScalar(fields + [ty]) && EndAt(fields + [ty], i) == EndAt(fields, i)
      && MaxAlign(fields + [ty], i) == MaxAlign(fields, i)
    ensures forall j :: 0 <= j < i ==> FieldOff(fields + [ty], j) == FieldOff(fields, j)
  {
    if i > 0 {
      OffsetsExtend(fields, ty, i - 1);
    }
  }
}
