/** Assigning the arguments of a signature to registers and stack slots, on the
    Go side and on the C side at once. */
module AbiAssign {
  import opened Options
  import opened Counting
  import opened AbiLayout

  datatype Loc = InReg(reg: nat) | OnStack(off: nat)

  /** The register tables of one architecture. */
  datatype Abi = Abi(goInt: seq<nat>, goFloat: seq<nat>, cInt: seq<nat>, cFloat: seq<nat>, scratchInt: nat,
    scratchFloat: nat, saved: nat, wholeInts: bool, cIntResult: seq<nat>, cFloatResult: seq<nat>)

  ghost predicate AbiOk(a: Abi) {
    && Distinct(a.goInt) && Distinct(a.goFloat) && Distinct(a.cInt) && Distinct(a.cFloat)
    && a.scratchInt !in a.goInt && a.scratchInt !in a.cInt && a.scratchFloat !in a.goFloat
      && a.scratchFloat !in a.cFloat
    && a.saved in {8, 32} && |a.goInt| >= 2 && |a.goFloat| >= 2 && |a.cIntResult| == 2 && |a.cFloatResult| == 2
    && a.cIntResult[0] == a.goInt[0] && a.cFloatResult[0] == a.goFloat[0] && a.cFloatResult[1] == a.goFloat[1]
  }

  function FirstRegs(n: nat): seq<nat> { seq(n, (i: nat) => i) }

  // Hardware numbers: rax 0, rcx 1, rdx 2, rbx 3, rsi 6, rdi 7, r8..r12.
  const Amd64 := Abi([0, 3, 1, 7, 6, 8, 9, 10, 11], FirstRegs(15), [7, 6, 2, 1, 8, 9], FirstRegs(8), 12, 15, 8, true,
    [0, 2], [0, 1])

  const Arm64 := Abi(FirstRegs(16), FirstRegs(16), FirstRegs(8), FirstRegs(8), 16, 16, 32, false, [0, 1], [0, 1])

  lemma TablesAreOk()
    ensures AbiOk(Amd64) && AbiOk(Arm64)
  {
    FirstAreDistinct(15);
    FirstAreDistinct(16);
    FirstAreDistinct(8);
    hide FirstRegs;
    assert Distinct(Amd64.goInt);
    assert Distinct(Amd64.cInt);
  }

  lemma FirstAreDistinct(n: nat)
    ensures Distinct(FirstRegs(n)) && forall k :: k >= n ==> k !in FirstRegs(n)
  {
  }

  /** Registers and stack bytes handed out so far on one side. */
  datatype Cursor = Cursor(ints: nat, floats: nat, stack: nat)

  function Init<T>(s: seq<T>): seq<T>
    requires s != []
  {
    s[..|s| - 1]
  }

  function RegIn(ty: Ty, l: Loc, b: Bank): seq<nat> { if l.InReg? && BankOf(ty) == b then [l.reg] else [] }

  /** The registers of one bank in argument order. */
  function RegsOf(tys: seq<Ty>, locs: seq<Loc>, b: Bank): seq<nat>
    requires |tys| == |locs|
  {
    if tys == [] then []
    else RegsOf(Init(tys), Init(locs), b) + RegIn(tys[|tys| - 1], locs[|locs| - 1], b)
  }

  ghost predicate SlotOk(ty: Ty, l: Loc, stack: nat) {
    l.OnStack? && IsScalar(ty) ==> l.off % Size(ty) == 0 && l.off + Size(ty) <= stack
  }

  ghost predicate Before(tys: seq<Ty>, locs: seq<Loc>, i: nat, j: nat)
    requires |tys| == |locs| && i < |tys| && j < |tys|
  {
    locs[i].OnStack? && locs[j].OnStack? ==> locs[i].off + Size(tys[i]) <= locs[j].off
  }

  /** One side so far: registers straight from the tables, in order, and stack
      slots aligned, in order, apart and inside the area. */
  ghost predicate Side(tys: seq<Ty>, locs: seq<Loc>, ti: seq<nat>, tf: seq<nat>, cur: Cursor) {
    && |tys| == |locs| && cur.ints <= |ti| && cur.floats <= |tf| && AllScalar(tys)
    && RegsOf(tys, locs, IntBank) == ti[..cur.ints] && RegsOf(tys, locs, FloatBank) == tf[..cur.floats]
    && (forall i :: 0 <= i < |tys| ==> SlotOk(tys[i], locs[i], cur.stack))
    && (forall i, j :: 0 <= i < j < |tys| ==> Before(tys, locs, i, j))
  }

  function NextReg(ty: Ty, ti: seq<nat>, tf: seq<nat>, cur: Cursor): Option<nat> {
    if BankOf(ty) == IntBank then (if cur.ints < |ti| then Some(ti[cur.ints]) else None)
    else (if cur.floats < |tf| then Some(tf[cur.floats]) else None)
  }

  function Take(ty: Ty, cur: Cursor): Cursor {
    if BankOf(ty) == IntBank then cur.(ints := cur.ints + 1) else cur.(floats := cur.floats + 1)
  }

  lemma TakeReg(tys: seq<Ty>, locs: seq<Loc>, ti: seq<nat>, tf: seq<nat>, cur: Cursor, ty: Ty)
    requires Side(tys, locs, ti, tf, cur) && IsScalar(ty) && NextReg(ty, ti, tf, cur).Some?
    ensures Side(tys + [ty], locs + [InReg(NextReg(ty, ti, tf, cur).value)], ti, tf, Take(ty, cur))
  {
    var t, l := tys + [ty], locs + [InReg(NextReg(ty, ti, tf, cur).value)];
    assert Init(t) == tys && Init(l) == locs;
    if BankOf(ty) == IntBank {
      assert ti[..cur.ints + 1] == ti[..cur.ints] + [ti[cur.ints]];
    } else {
      assert tf[..cur.floats + 1] == tf[..cur.floats] + [tf[cur.floats]];
    }
    forall i, j | 0 <= i < j < |t|
      ensures Before(t, l, i, j)
    {
      if j < |tys| { assert Before(tys, locs, i, j); }
    }
  }

  lemma TakeSlot(tys: seq<Ty>, locs: seq<Loc>, ti: seq<nat>, tf: seq<nat>, cur: Cursor, ty: Ty, off: nat, stack: nat)
    requires Side(tys, locs, ti, tf, cur) && IsScalar(ty) && cur.stack <= off && off % Size(ty) == 0
      && off + Size(ty) <= stack
    ensures Side(tys + [ty], locs + [OnStack(off)], ti, tf, cur.(stack := stack))
  {
    var t, l := tys + [ty], locs + [OnStack(off)];
    assert Init(t) == tys && Init(l) == locs;
    forall i | 0 <= i < |t|
      ensures SlotOk(t[i], l[i], stack)
    {
      if i < |tys| { assert SlotOk(tys[i], locs[i], cur.stack); }
    }
    forall i, j | 0 <= i < j < |t|
      ensures Before(t, l, i, j)
    {
      assert SlotOk(tys[i], locs[i], cur.stack);
      if j < |tys| { assert Before(tys, locs, i, j); }
    }
  }

  lemma GrowStack(tys: seq<Ty>, locs: seq<Loc>, ti: seq<nat>, tf: seq<nat>, cur: Cursor, stack: nat)
    requires Side(tys, locs, ti, tf, cur) && cur.stack <= stack
    ensures Side(tys, locs, ti, tf, cur.(stack := stack))
  {
    forall i | 0 <= i < |tys|
      ensures SlotOk(tys[i], locs[i], stack)
    {
      assert SlotOk(tys[i], locs[i], cur.stack);
    }
  }

  lemma AlignedSum(base: nat, align: nat, off: nat, size: nat)
    requires size in {1, 2, 4, 8} && align in {1, 2, 4, 8} && size <= align && base % align == 0 && off % size == 0
    ensures (base + off) % size == 0
  {
    var q := Quotient(base, align);
    var p := Quotient(align, size);
    var j := Quotient(off, size);
    Regrouped(size, p, q, j);
    MultipleOf(size, p * q + j);
  }

  lemma Regrouped(size: nat, p: nat, q: nat, j: nat)
    ensures (size * p) * q + size * j == size * (p * q + j)
  {
    assert (size * p) * q == size * (p * q);
  }

  lemma Quotient(x: nat, a: nat) returns (q: nat)
    requires a in {1, 2, 4, 8} && x % a == 0
    ensures x == a * q
  {
    q := x / a;
    if a == 1 { assert x == 1 * q; }
    else if a == 2 { assert x == 2 * q; }
    else if a == 4 { assert x == 4 * q; }
    else { assert x == 8 * q; }
  }

  lemma MultipleOf(a: nat, k: nat)
    requires a in {1, 2, 4, 8}
    ensures (a * k) % a == 0
  {
    if a == 1 { assert (1 * k) % 1 == 0; }
    else if a == 2 { assert (2 * k) % 2 == 0; }
    else if a == 4 { assert (4 * k) % 4 == 0; }
    else { assert (8 * k) % 8 == 0; }
  }

  function Needs(fields: seq<Ty>, b: Bank): nat {
    if fields == [] then 0 else Needs(Init(fields), b) + (if BankOf(fields[|fields| - 1]) == b then 1 else 0)
  }

  lemma NeedsNone()
    ensures Needs([], IntBank) == 0 && Needs([], FloatBank) == 0
  {
  }

  lemma {:induction false} NeedsPrefix(fields: seq<Ty>, i: nat, b: Bank)
    requires i < |fields|
    ensures Needs(fields[..i + 1], b) == Needs(fields[..i], b) + (if BankOf(fields[i]) == b then 1 else 0)
    ensures Needs(fields[..i + 1], b) <= Needs(fields, b)
  {
    assert Init(fields[..i + 1]) == fields[..i];
    if i + 1 < |fields| {
      NeedsPrefix(Init(fields), i, b);
      assert Init(fields)[..i + 1] == fields[..i + 1] && Init(fields)[..i] == fields[..i];
    } else {
      assert fields[..i + 1] == fields;
    }
  }

  predicate FitsRegs(fields: seq<Ty>, ti: seq<nat>, tf: seq<nat>, cur: Cursor) {
    cur.ints + Needs(fields, IntBank) <= |ti| && cur.floats + Needs(fields, FloatBank) <= |tf|
  }

  /** Field j is in the register after those used and those of the fields before it. */
  ghost predicate FieldInTable(fields: seq<Ty>, l: Loc, j: nat, ti: seq<nat>, tf: seq<nat>, ints: nat, floats: nat)
    requires j < |fields|
  {
    if BankOf(fields[j]) == IntBank then
      ints + Needs(fields[..j], IntBank) < |ti| && l == InReg(ti[ints + Needs(fields[..j], IntBank)])
    else floats + Needs(fields[..j], FloatBank) < |tf| && l == InReg(tf[floats + Needs(fields[..j], FloatBank)])
  }

  ghost predicate InTable(fields: seq<Ty>, ls: seq<Loc>, ti: seq<nat>, tf: seq<nat>, ints: nat, floats: nat) {
    |ls| == |fields| && forall j :: 0 <= j < |ls| ==> FieldInTable(fields, ls[j], j, ti, tf, ints, floats)
  }

  /** A struct whose fields all go to registers. */
  method FieldsInRegs(fields: seq<Ty>, ti: seq<nat>, tf: seq<nat>, cur: Cursor, ghost tys: seq<Ty>,
      ghost was: seq<Loc>) returns (locs: seq<Loc>, next: Cursor)
    requires Side(tys, was, ti, tf, cur) && AllScalar(fields) && FitsRegs(fields, ti, tf, cur)
    ensures |locs| == |fields| && Side(tys + fields, was + locs, ti, tf, next) && next.stack == cur.stack
    ensures InTable(fields, locs, ti, tf, cur.ints, cur.floats)
    ensures next.ints == cur.ints + Needs(fields, IntBank) && next.floats == cur.floats + Needs(fields, FloatBank)
  {
    hide Side, Needs;
    locs, next := [], cur;
    assert Needs(fields[..0], IntBank) == 0 && Needs(fields[..0], FloatBank) == 0
      by { NeedsNone(); assert fields[..0] == []; }
    assert tys + fields[..0] == tys && was + locs == was;
    for i := 0 to |fields|
      invariant |locs| == i && Side(tys + fields[..i], was + locs, ti, tf, next) && next.stack == cur.stack
      invariant forall j :: 0 <= j < i ==> FieldInTable(fields, locs[j], j, ti, tf, cur.ints, cur.floats)
      invariant next.ints == cur.ints + Needs(fields[..i], IntBank)
        && next.floats == cur.floats + Needs(fields[..i], FloatBank)
    {
      NeedsPrefix(fields, i, IntBank);
      NeedsPrefix(fields, i, FloatBank);
      var reg := NextReg(fields[i], ti, tf, next).value;
      TakeReg(tys + fields[..i], was + locs, ti, tf, next, fields[i]);
      assert (tys + fields[..i]) + [fields[i]] == tys + fields[..i + 1];
      assert (was + locs) + [InReg(reg)] == was + (locs + [InReg(reg)]);
      locs, next := locs + [InReg(reg)], Take(fields[i], next);
    }
    assert fields[..|fields|] == fields;
  }

  lemma AggField(fields: seq<Ty>, lay: AggLay, i: nat)
    requires AllScalar(fields) && AggOk(fields, lay) && i < |fields|
    ensures |lay.offs| == |fields| && lay.align in {1, 2, 4, 8} && Size(fields[i]) <= lay.align
    ensures lay.offs[i] % Size(fields[i]) == 0 && lay.offs[i] + Size(fields[i]) <= lay.size
    ensures i + 1 < |fields| ==> lay.offs[i] + Size(fields[i]) <= lay.offs[i + 1]
  {
    assert FieldOk(fields, lay, i);
  }

  /** A struct at `base` on the stack. */
  method FieldsOnStack(fields: seq<Ty>, lay: AggLay, base: nat, size: nat, ghost ti: seq<nat>, ghost tf: seq<nat>,
      cur: Cursor, ghost tys: seq<Ty>, ghost was: seq<Loc>)
    returns (locs: seq<Loc>, next: Cursor)
    requires Side(tys, was, ti, tf, cur) && AllScalar(fields) && AggOk(fields, lay) && cur.stack <= base
      && base % lay.align == 0 && lay.size <= size
    ensures |locs| == |fields| && Side(tys + fields, was + locs, ti, tf, next) && next == cur.(stack := base + size)
    ensures forall i :: 0 <= i < |locs| ==> locs[i] == OnStack(base + lay.offs[i])
  {
    hide Side, AggOk;
    locs := [];
    ghost var c := cur;
    if fields != [] { AggField(fields, lay, 0); }
    assert tys + fields[..0] == tys && was + locs == was;
    for i := 0 to |fields|
      invariant |locs| == i && Side(tys + fields[..i], was + locs, ti, tf, c)
      invariant c.ints == cur.ints && c.floats == cur.floats && c.stack <= base + size
        && (i < |fields| ==> c.stack <= base + lay.offs[i])
      invariant forall j :: 0 <= j < i ==> locs[j] == OnStack(base + lay.offs[j])
    {
      AggField(fields, lay, i);
      AlignedSum(base, lay.align, lay.offs[i], Size(fields[i]));
      ghost var end := base + lay.offs[i] + Size(fields[i]);
      TakeSlot(tys + fields[..i], was + locs, ti, tf, c, fields[i], base + lay.offs[i], end);
      assert (tys + fields[..i]) + [fields[i]] == tys + fields[..i + 1];
      assert (was + locs) + [OnStack(base + lay.offs[i])] == was + (locs + [OnStack(base + lay.offs[i])]);
      locs := locs + [OnStack(base + lay.offs[i])];
      c := c.(stack := end);
    }
    assert fields[..|fields|] == fields;
    next := cur.(stack := base + size);
    GrowStack(tys + fields, was + locs, ti, tf, c, base + size);
  }

  // ----- the rules of both ABIs -----

  /** One side: its register tables, and whether it is C. */
  datatype Rules = Rules(ints: seq<nat>, floats: seq<nat>, c: bool) {
    function Table(b: Bank): seq<nat> { if b == IntBank then ints else floats }

    /** Alignment and length of a scalar's slot. */
    function Slot(ty: Ty): nat { if c then 8 else Size(ty) }
  }

  /** A struct goes to registers if all its fields fit, for C also only up to 16 bytes. */
  ghost predicate Fit(q: Rules, fields: seq<Ty>, size: nat, ints: nat, floats: nat) {
    && (q.c ==> size <= 16)
    && ints + Needs(fields, IntBank) <= |q.ints| && floats + Needs(fields, FloatBank) <= |q.floats|
  }

  /** Fields on the stack: the struct begins right after `end`, aligned as itself
      or, for C, to 8, and its size is rounded up to 8 for C. */
  ghost predicate InArea(q: Rules, lay: AggLay, ls: seq<Loc>, base: nat, end: nat, next: nat) {
    && |ls| == |lay.offs| && Least(base, end, if q.c then 8 else lay.align)
    && (forall j :: 0 <= j < |ls| ==> ls[j] == OnStack(base + lay.offs[j]))
    && if q.c then Least(next, base + lay.size, 8) else next == base + lay.size
  }

  ghost predicate StructPlaced(q: Rules, fields: seq<Ty>, lay: AggLay, ls: seq<Loc>, ints: nat, floats: nat, end: nat,
      next: nat)
  {
    if Fit(q, fields, lay.size, ints, floats) then InTable(fields, ls, q.ints, q.floats, ints, floats) && next == end
    else exists base: nat :: InArea(q, lay, ls, base, end, next)
  }

  /** A scalar is in a register exactly if its table is not used up, and then in
      the next one; else right after `end`. */
  ghost predicate ScalarPlaced(q: Rules, ty: Ty, l: Loc, used: nat, end: nat, next: nat) {
    var table := q.Table(BankOf(ty));
    if used < |table| then l == InReg(table[used]) && next == end
    else l.OnStack? && Least(l.off, end, q.Slot(ty)) && next == l.off + q.Slot(ty)
  }

  ghost predicate ParamPlaced(q: Rules, p: Param, ls: seq<Loc>, ints: nat, floats: nat, end: nat, next: nat) {
    match p
    case Scalar(ty) =>
      |ls| == 1 && ScalarPlaced(q, ty, ls[0], if BankOf(ty) == IntBank then ints else floats, end, next)
    case Aggregate(fields) =>
      AllScalar(fields)
      && exists lay :: CRule(fields, lay) && StructPlaced(q, fields, lay, ls, ints, floats, end, next)
    case _ => false
  }

  /** All arguments on one side: registers used so far are counted from the
      locations themselves, and `end` is where the last stack argument ends. */
  ghost predicate AllPlaced(q: Rules, params: seq<Param>, locs: seq<Loc>, end: nat)
    decreases |params|
  {
    if params == [] then locs == [] && end == 0
    else
      var before := Flat(Init(params));
      && |before| <= |locs|
      && exists mid: nat :: AllPlaced(q, Init(params), locs[..|before|], mid) && LastPlaced(q, params, locs, mid, end)
  }

  /** The last argument, given where the stack arguments before it end. */
  ghost predicate LastPlaced(q: Rules, params: seq<Param>, locs: seq<Loc>, mid: nat, end: nat)
    requires params != [] && |Flat(Init(params))| <= |locs|
  {
    var before := Flat(Init(params));
    var k := |before|;
    ParamPlaced(q, params[|params| - 1], locs[k..], |RegsOf(before, locs[..k], IntBank)|,
      |RegsOf(before, locs[..k], FloatBank)|, mid, end)
  }

  /** What both ABIs ask of an assignment. */
  ghost predicate AsAsked(a: Abi, params: seq<Param>, r: Assigned) {
    && (exists end: nat :: AllPlaced(Rules(a.goInt, a.goFloat, false), params, r.go, end) && Least(r.goStack, end, 8))
    && AllPlaced(Rules(a.cInt, a.cFloat, true), params, r.c, r.cStack)
  }

  // ----- the rules leave no choice -----

  lemma StructOnce(q: Rules, fields: seq<Ty>, lay: AggLay, ls: seq<Loc>, ks: seq<Loc>, ints: nat, floats: nat, end: nat,
      u: nat, v: nat)
    requires StructPlaced(q, fields, lay, ls, ints, floats, end, u)
      && StructPlaced(q, fields, lay, ks, ints, floats, end, v)
    requires lay.align in {1, 2, 4, 8}
    ensures ls == ks && u == v
  {
    if Fit(q, fields, lay.size, ints, floats) {
      assert forall j :: 0 <= j < |ls| ==>
        FieldInTable(fields, ls[j], j, q.ints, q.floats, ints, floats)
          && FieldInTable(fields, ks[j], j, q.ints, q.floats, ints, floats);
    } else {
      var b: nat :| InArea(q, lay, ls, b, end, u);
      var c: nat :| InArea(q, lay, ks, c, end, v);
      LeastOnce(b, c, end, if q.c then 8 else lay.align);
      if q.c { LeastOnce(u, v, b + lay.size, 8); }
    }
  }

  lemma ParamOnce(q: Rules, p: Param, ls: seq<Loc>, ks: seq<Loc>, ints: nat, floats: nat, end: nat, u: nat, v: nat)
    requires Supported(p) && ParamPlaced(q, p, ls, ints, floats, end, u) && ParamPlaced(q, p, ks, ints, floats, end, v)
    ensures ls == ks && u == v
  {
    match p {
      case Scalar(ty) =>
        if ls[0].OnStack? { LeastOnce(ls[0].off, ks[0].off, end, q.Slot(ty)); }
      case Aggregate(fields) =>
        var lay :| CRule(fields, lay) && StructPlaced(q, fields, lay, ls, ints, floats, end, u);
        var k :| CRule(fields, k) && StructPlaced(q, fields, k, ks, ints, floats, end, v);
        CRuleOnce(fields, lay, k);
        hide StructPlaced, Layable;
        StructOnce(q, fields, lay, ls, ks, ints, floats, end, u, v);
    }
  }

  /** A supported signature has one assignment on each side. */
  lemma {:induction false} PlacedOnce(q: Rules, params: seq<Param>, ls: seq<Loc>, ks: seq<Loc>, u: nat, v: nat)
    requires AllPlaced(q, params, ls, u) && AllPlaced(q, params, ks, v)
    requires forall i :: 0 <= i < |params| ==> Supported(params[i])
    ensures ls == ks && u == v
    decreases |params|
  {
    hide ParamPlaced, RegsOf, Flat, Supported;
    if params != [] {
      var k := |Flat(Init(params))|;
      var m: nat :| AllPlaced(q, Init(params), ls[..k], m) && LastPlaced(q, params, ls, m, u);
      var n: nat :| AllPlaced(q, Init(params), ks[..k], n) && LastPlaced(q, params, ks, n, v);
      PlacedOnce(q, Init(params), ls[..k], ks[..k], m, n);
      var before := Flat(Init(params));
      ParamOnce(q, params[|params| - 1], ls[k..], ks[k..], |RegsOf(before, ls[..k], IntBank)|,
        |RegsOf(before, ls[..k], FloatBank)|, m, u, v);
      assert ls == ls[..k] + ls[k..] && ks == ks[..k] + ks[k..];
    }
  }

  lemma AllPlacedMore(q: Rules, params: seq<Param>, n: nat, tys: seq<Ty>, locs: seq<Loc>, ls: seq<Loc>, cur: Cursor,
      next: nat)
    requires n < |params| && AllPlaced(q, params[..n], locs, cur.stack) && tys == Flat(params[..n])
    requires Side(tys, locs, q.ints, q.floats, cur)
    requires ParamPlaced(q, params[n], ls, cur.ints, cur.floats, cur.stack, next)
    ensures AllPlaced(q, params[..n + 1], locs + ls, next)
  {
    hide ParamPlaced, RegsOf, Flat;
    var more := locs + ls;
    assert Init(params[..n + 1]) == params[..n] && params[..n + 1][n] == params[n];
    assert more[..|tys|] == locs && more[|tys|..] == ls;
  }

  // ----- the two sides -----

  /** Go: all fields in registers or all in memory, at the struct's alignment. */
  method PlaceGoStruct(fields: seq<Ty>, lay: AggLay, ti: seq<nat>, tf: seq<nat>, cur: Cursor, ghost tys: seq<Ty>,
      ghost was: seq<Loc>) returns (locs: seq<Loc>, next: Cursor)
    requires Side(tys, was, ti, tf, cur) && AllScalar(fields) && AggOk(fields, lay)
    ensures |locs| == |fields| && Side(tys + fields, was + locs, ti, tf, next)
    ensures StructPlaced(Rules(ti, tf, false), fields, lay, locs, cur.ints, cur.floats, cur.stack, next.stack)
  {
    if FitsRegs(fields, ti, tf, cur) {
      locs, next := FieldsInRegs(fields, ti, tf, cur, tys, was);
    } else {
      var base := AlignUp(cur.stack, lay.align);
      locs, next := FieldsOnStack(fields, lay, base, lay.size, ti, tf, cur, tys, was);
      assert InArea(Rules(ti, tf, false), lay, locs, base, cur.stack, next.stack);
    }
  }

  lemma RoundedUp(base: nat, size: nat)
    requires base % 8 == 0
    ensures Least(base + AlignUp(size, 8), base + size, 8)
  {
    AlignedSum(base, 8, AlignUp(size, 8), 8);
  }

  lemma StructFits(fields: seq<Ty>, lay: AggLay, base: nat)
    requires AllScalar(fields) && AggOk(fields, lay) && base % 8 == 0
    ensures lay.align in {1, 2, 4, 8} && base % lay.align == 0 && |lay.offs| == |fields|
  {
    AlignedSum(base, 8, 0, lay.align);
  }

  /** C: in registers when it is at most two eightbytes and they all fit. */
  method PlaceCStruct(fields: seq<Ty>, lay: AggLay, ti: seq<nat>, tf: seq<nat>, cur: Cursor, ghost tys: seq<Ty>,
      ghost was: seq<Loc>) returns (locs: seq<Loc>, next: Cursor)
    requires Side(tys, was, ti, tf, cur) && AllScalar(fields) && AggOk(fields, lay) && cur.stack % 8 == 0
    ensures |locs| == |fields| && Side(tys + fields, was + locs, ti, tf, next) && next.stack % 8 == 0
    ensures StructPlaced(Rules(ti, tf, true), fields, lay, locs, cur.ints, cur.floats, cur.stack, next.stack)
  {
    hide Side, AggOk, InTable, Needs, AllScalar;
    if lay.size <= 16 && FitsRegs(fields, ti, tf, cur) {
      locs, next := FieldsInRegs(fields, ti, tf, cur, tys, was);
    } else {
      var base := AlignUp(cur.stack, 8);
      StructFits(fields, lay, base);
      locs, next := FieldsOnStack(fields, lay, base, AlignUp(lay.size, 8), ti, tf, cur, tys, was);
      RoundedUp(base, lay.size);
      assert InArea(Rules(ti, tf, true), lay, locs, base, cur.stack, next.stack);
    }
  }

  /** A scalar: the next register of its bank, or a slot `step` bytes long at
      the next multiple of `align`. */
  method PlaceScalar(ty: Ty, ti: seq<nat>, tf: seq<nat>, cur: Cursor, align: nat, step: nat, ghost tys: seq<Ty>,
      ghost was: seq<Loc>) returns (loc: Loc, next: Cursor)
    requires Side(tys, was, ti, tf, cur) && IsScalar(ty) && align in {1, 2, 4, 8} && Size(ty) <= align
      && Size(ty) <= step
    ensures Side(tys + [ty], was + [loc], ti, tf, next)
    ensures var table, used := if BankOf(ty) == IntBank then ti else tf, if BankOf(ty) == IntBank then cur.ints
      else cur.floats;
      if used < |table| then loc == InReg(table[used]) && next.stack == cur.stack
      else loc.OnStack? && Least(loc.off, cur.stack, align) && next.stack == loc.off + step
  {
    var reg := NextReg(ty, ti, tf, cur);
    if reg.Some? {
      loc, next := InReg(reg.value), Take(ty, cur);
      TakeReg(tys, was, ti, tf, cur, ty);
    } else {
      var off := AlignUp(cur.stack, align);
      loc, next := OnStack(off), cur.(stack := off + step);
      AlignedSum(off, align, 0, Size(ty));
      TakeSlot(tys, was, ti, tf, cur, ty, off, off + step);
    }
  }

  // ----- the signature -----

  function FieldsOf(p: Param): seq<Ty> { if p.Scalar? then [p.ty] else if p.Aggregate? then p.fields else [] }

  /** The scalars a signature passes. */
  function Flat(params: seq<Param>): seq<Ty> {
    if params == [] then [] else Flat(Init(params)) + FieldsOf(params[|params| - 1])
  }

  predicate Supported(p: Param) { (p.Scalar? && IsScalar(p.ty)) || (p.Aggregate? && Layable(p.fields, false)) }

  datatype Assigned = Assigned(tys: seq<Ty>, go: seq<Loc>, c: seq<Loc>, goStack: nat, cStack: nat)

  /** Both sides place the same scalars; each within its area. */
  ghost predicate AssignedOk(a: Abi, r: Assigned) {
    && r.goStack % 8 == 0 && r.cStack % 8 == 0
    && (exists cur: Cursor :: cur.stack == r.goStack && Side(r.tys, r.go, a.goInt, a.goFloat, cur))
    && (exists cur: Cursor :: cur.stack == r.cStack && Side(r.tys, r.c, a.cInt, a.cFloat, cur))
  }

  lemma NothingPlaced(ti: seq<nat>, tf: seq<nat>)
    ensures Side([], [], ti, tf, Cursor(0, 0, 0))
  {
  }

  lemma NoneYet(q: Rules, params: seq<Param>)
    ensures AllPlaced(q, params[..0], [], 0)
  {
  }

  lemma FlatAppend(params: seq<Param>, n: nat)
    requires n < |params|
    ensures Flat(params[..n + 1]) == Flat(params[..n]) + FieldsOf(params[n])
  {
    assert Init(params[..n + 1]) == params[..n];
  }

  /** One parameter on both sides. */
  method PlaceParam(a: Abi, p: Param, go: Cursor, c: Cursor, ghost tys: seq<Ty>, ghost goWas: seq<Loc>,
      ghost cWas: seq<Loc>)
    returns (err: Option<Reason>, gs: seq<Loc>, ls: seq<Loc>, go': Cursor, c': Cursor)
    requires Side(tys, goWas, a.goInt, a.goFloat, go) && Side(tys, cWas, a.cInt, a.cFloat, c) && c.stack % 8 == 0
    ensures err.None? <==> Supported(p)
    ensures err.None? ==>
      Side(tys + FieldsOf(p), goWas + gs, a.goInt, a.goFloat, go')
      && Side(tys + FieldsOf(p), cWas + ls, a.cInt, a.cFloat, c') && c'.stack % 8 == 0
    ensures err.None? ==>
      && ParamPlaced(Rules(a.goInt, a.goFloat, false), p, gs, go.ints, go.floats, go.stack, go'.stack)
      && ParamPlaced(Rules(a.cInt, a.cFloat, true), p, ls, c.ints, c.floats, c.stack, c'.stack)
  {
    hide Side, CRule, AllScalar, SeparateEightbytes, StructPlaced;
    err, gs, ls, go', c' := None, [], [], go, c;
    if p.Scalar? {
      if !IsScalar(p.ty) {
        err := Some(OutsideSubset);
        return;
      }
      var g, l;
      g, go' := PlaceScalar(p.ty, a.goInt, a.goFloat, go, Size(p.ty), Size(p.ty), tys, goWas);
      l, c' := PlaceScalar(p.ty, a.cInt, a.cFloat, c, 8, 8, tys, cWas);
      gs, ls := [g], [l];
    } else if p.Aggregate? {
      var lay := AggregateLayout(p.fields, false);
      if lay.Err? {
        err := Some(lay.error);
        return;
      }
      gs, go' := PlaceGoStruct(p.fields, lay.value, a.goInt, a.goFloat, go, tys, goWas);
      ls, c' := PlaceCStruct(p.fields, lay.value, a.cInt, a.cFloat, c, tys, cWas);
    } else {
      err := Some(if p.Packed? then PackedAggregate else OutsideSubset);
    }
  }

  method AssignParams(a: Abi, params: seq<Param>) returns (r: Result<Assigned, Reason>)
    ensures r.Ok? <==> forall i :: 0 <= i < |params| ==> Supported(params[i])
    ensures r.Ok? ==> AssignedOk(a, r.value) && r.value.tys == Flat(params) && AsAsked(a, params, r.value)
  {
    hide Side, Supported, FieldsOf, AllPlaced, ParamPlaced;
    var go, c := Cursor(0, 0, 0), Cursor(0, 0, 0);
    var tys, goLocs, cLocs := [], [], [];
    NothingPlaced(a.goInt, a.goFloat);
    NothingPlaced(a.cInt, a.cFloat);
    NoneYet(Rules(a.goInt, a.goFloat, false), params);
    NoneYet(Rules(a.cInt, a.cFloat, true), params);
    for n := 0 to |params|
      invariant Side(tys, goLocs, a.goInt, a.goFloat, go) && Side(tys, cLocs, a.cInt, a.cFloat, c) && c.stack % 8 == 0
      invariant tys == Flat(params[..n]) && forall i :: 0 <= i < n ==> Supported(params[i])
      invariant AllPlaced(Rules(a.goInt, a.goFloat, false), params[..n], goLocs, go.stack)
      invariant AllPlaced(Rules(a.cInt, a.cFloat, true), params[..n], cLocs, c.stack)
    {
      FlatAppend(params, n);
      var err, gs, ls, go', c' := PlaceParam(a, params[n], go, c, tys, goLocs, cLocs);
      if err.Some? { return Err(err.value); }
      AllPlacedMore(Rules(a.goInt, a.goFloat, false), params, n, tys, goLocs, gs, go, go'.stack);
      AllPlacedMore(Rules(a.cInt, a.cFloat, true), params, n, tys, cLocs, ls, c, c'.stack);
      tys, goLocs, cLocs, go, c := tys + FieldsOf(params[n]), goLocs + gs, cLocs + ls, go', c';
    }
    assert params[..|params|] == params;
    var goStack := AlignUp(go.stack, 8);
    GrowStack(tys, goLocs, a.goInt, a.goFloat, go, goStack);
    assert Side(tys, goLocs, a.goInt, a.goFloat, go.(stack := goStack)) && go.(stack := goStack).stack == goStack;
    return Ok(Assigned(tys, goLocs, cLocs, goStack, c.stack));
  }
}
