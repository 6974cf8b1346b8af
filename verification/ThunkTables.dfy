/** Results, and the tables that describe a thunk to the Go runtime: spill
    slots, pointer bitmaps and the stack-pointer displacement of every
    instruction. */
module ThunkTables {
  import opened Options
  import opened AbiLayout
  import opened AbiAssign
  import opened ParallelMove
  import opened Thunk

  // ----- results -----

  /** At most two fields fit in 16 bytes, an eightbyte each. */
  lemma TwoFieldsAtMost(fields: seq<Ty>)
    requires Layable(fields, true)
    ensures |fields| <= 2
  {
    if |fields| > 2 {
      OffsetsGrow(fields, 2, |fields|);
      FarFromStart(fields);
      hide EndAt, MaxAlign, FieldOff, AlignUp, SeparateEightbytes;
    }
  }

  lemma FarFromStart(fields: seq<Ty>)
    requires AllScalar(fields) && SeparateEightbytes(fields) && |fields| > 2
    ensures FieldOff(fields, 2) >= 16
  {
    OffsetsGrow(fields, 0, 1);
    OffsetsGrow(fields, 1, 2);
    var a, b, c := FieldOff(fields, 0), FieldOff(fields, 1), FieldOff(fields, 2);
    assert a <= b <= c && a / 8 != b / 8 && b / 8 != c / 8;
    hide FieldOff, EndAt, SeparateEightbytes;
  }

  datatype Results = Results(tys: seq<Ty>, go: seq<nat>, c: seq<nat>)

  /** Each result's C register and Go register, from the tables in order. */
  ghost predicate ResultsOk(a: Abi, r: Results) {
    && |r.tys| == |r.go| == |r.c| <= 2
    && (forall i :: 0 <= i < |r.tys| ==> ResultOk(a, r, i))
  }

  ghost predicate ResultOk(a: Abi, r: Results, i: nat)
    requires |r.tys| == |r.go| == |r.c| && i < |r.tys|
  {
    var k := Needs(r.tys[..i], BankOf(r.tys[i]));
    k < 2 && |a.goInt| >= 2 && |a.goFloat| >= 2 && |a.cIntResult| == 2 && |a.cFloatResult| == 2 &&
    if BankOf(r.tys[i]) == IntBank then r.go[i] == a.goInt[k] && r.c[i] == a.cIntResult[k]
    else r.go[i] == a.goFloat[k] && r.c[i] == a.cFloatResult[k]
  }

  lemma {:induction false} NeedsBounded(tys: seq<Ty>, b: Bank)
    ensures Needs(tys, b) <= |tys|
  {
    if tys != [] { NeedsBounded(Init(tys), b); }
  }

  /** `None` stands for void. Register indices stay in range. */
  method ReturnAssignment(a: Abi, ret: Option<Param>) returns (r: Result<Results, Reason>)
    requires AbiOk(a)
    ensures r.Ok? <==>
      ret.None? || (ret.value.Scalar? && IsScalar(ret.value.ty))
        || (ret.value.Aggregate? && Layable(ret.value.fields, true))
    ensures r.Ok? ==> ResultsOk(a, r.value) && r.value.tys == (if ret.None? then [] else FieldsOf(ret.value))
  {
    if ret.None? { return Ok(Results([], [], [])); }
    if ret.value.Scalar? {
      if !IsScalar(ret.value.ty) { return Err(OutsideSubset); }
      var reg := if BankOf(ret.value.ty) == IntBank then a.goInt[0] else a.goFloat[0];
      return Ok(Results([ret.value.ty], [reg], [reg]));
    }
    if !ret.value.Aggregate? { return Err(if ret.value.Packed? then PackedAggregate else OutsideSubset); }
    var fields := ret.value.fields;
    var lay := AggregateLayout(fields, true);
    if lay.Err? { return Err(lay.error); }
    TwoFieldsAtMost(fields);
    var go, c := FieldResults(a, fields);
    return Ok(Results(fields, go, c));
  }

  method FieldResults(a: Abi, fields: seq<Ty>) returns (go: seq<nat>, c: seq<nat>)
    requires AbiOk(a) && |fields| <= 2
    ensures |go| == |c| == |fields| && ResultsOk(a, Results(fields, go, c))
  {
    var ints, floats := 0, 0;
    go, c := [], [];
    for i := 0 to |fields|
      invariant |go| == |c| == i && ints == Needs(fields[..i], IntBank) && floats == Needs(fields[..i], FloatBank)
      invariant forall j :: 0 <= j < i ==> ResultOk(a, Results(fields[..i], go, c), j)
    {
      NeedsPrefix(fields, i, IntBank);
      NeedsPrefix(fields, i, FloatBank);
      NeedsBounded(fields[..i], IntBank);
      NeedsBounded(fields[..i], FloatBank);
      ghost var was := Results(fields[..i], go, c);
      if BankOf(fields[i]) == IntBank {
        go, c, ints := go + [a.goInt[ints]], c + [a.cIntResult[ints]], ints + 1;
      } else {
        go, c, floats := go + [a.goFloat[floats]], c + [a.cFloatResult[floats]], floats + 1;
      }
      ghost var now := Results(fields[..i + 1], go, c);
      forall j | 0 <= j < i + 1
        ensures ResultOk(a, now, j)
      {
        assert fields[..i + 1][..j] == fields[..j];
        if j < i { assert ResultOk(a, was, j) && fields[..i][..j] == fields[..j]; }
      }
    }
    assert fields[..|fields|] == fields;
  }

  /** The moves after the call, in order, skipping those that go nowhere. */
  function ResultMoves(r: Results, n: nat): seq<Instr>
    requires |r.tys| == |r.go| == |r.c| && n <= |r.tys|
  {
    if n == 0 then []
    else
      var from, to := r.c[n - 1], r.go[n - 1];
      ResultMoves(r, n - 1) + if from != to then [Copy(BankOf(r.tys[n - 1]), Move(from, to, 8))] else []
  }

  /** The first result is already in place, so there is at most one move. */
  lemma FirstStays(a: Abi, r: Results)
    requires AbiOk(a) && ResultsOk(a, r) && r.tys != []
    ensures r.c[0] == r.go[0]
    ensures |r.tys| == 2 && r.c[1] != r.go[1] ==> !(BankOf(r.tys[0]) == BankOf(r.tys[1]) && r.go[1] == r.go[0])
  {
    assert ResultOk(a, r, 0) && r.tys[..0] == [];
    NeedsNone();
    if |r.tys| == 2 {
      assert ResultOk(a, r, 1);
      NeedsPrefix(r.tys, 0, BankOf(r.tys[1]));
      assert a.goInt[0] != a.goInt[1];
    }
  }

  lemma SecondMoves(r: Results)
    requires |r.tys| == |r.go| == |r.c| && 0 < |r.tys| <= 2 && r.c[0] == r.go[0]
    ensures ResultMoves(r, |r.tys|) == if |r.tys| == 2
      && r.c[1] != r.go[1] then [Copy(BankOf(r.tys[1]), Move(r.c[1], r.go[1], 8))] else []
  {
    assert ResultMoves(r, 1) == [];
  }

  /** Done one after the other, they still deliver every result: a register
      that is overwritten is never one that holds another result. */
  lemma ResultsArrive(up: Upper, a: Abi, fr: Frame, r: Results, s: Cpu, i: nat)
    requires AbiOk(a) && ResultsOk(a, r) && i < |r.tys|
    ensures RegOf(Run(up, fr, ResultMoves(r, |r.tys|), s), BankOf(r.tys[i]), r.go[i]) ==
      RegOf(s, BankOf(r.tys[i]), r.c[i])
  {
    hide ResultMoves, ResultsOk, AbiOk, Run, RegOf, BankOf;
    ResultShape(a, r);
    FirstStays(a, r);
    SecondMoves(r);
    if |r.tys| == 2 && r.c[1] != r.go[1] {
      MoveEffect(up, fr, s, BankOf(r.tys[1]), r.c[1], r.go[1], BankOf(r.tys[i]), r.go[i]);
    } else {
      RunNone(up, fr, s);
    }
  }

  lemma ResultShape(a: Abi, r: Results)
    requires AbiOk(a) && ResultsOk(a, r)
    ensures |r.tys| == |r.go| == |r.c| && |r.tys| <= 2
  {
  }

  lemma MoveEffect(up: Upper, fr: Frame, s: Cpu, k: Bank, src: nat, dst: nat, b: Bank, n: nat)
    ensures RegOf(Run(up, fr, [Copy(k, Move(src, dst, 8))], s), b, n) ==
      if b == k && n == dst then RegOf(s, k, src) else RegOf(s, b, n)
  {
    hide Run, Merge;
    RunOne(up, fr, Copy(k, Move(src, dst, 8)), s);
    WholeMove(up, RegOf(s, k, dst), RegOf(s, k, src));
  }

  lemma WholeMove(up: Upper, was: Word, v: Word)
    ensures Merge(up, was, v, 8) == v
  {
  }

  // ----- spill slots and the argument area -----

  /** The spill slot of a register argument, at an offset from the entry SP. */
  datatype Spill = Spill(reg: nat, off: nat, size: nat, ptr: bool)

  /** of[k] is the argument that spill k belongs to: exactly the register
      arguments, in order, in aligned slots one after the other above the stack
      arguments. */
  ghost predicate SpillsOk(r: Assigned, spills: seq<Spill>, of: seq<nat>, n: nat, end: nat)
    requires Shaped(r) && n <= |r.tys|
  {
    && |of| == |spills| && r.goStack <= end
    && (forall k :: 0 <= k < |of| ==> of[k] < n && SpillOk(r, spills[k], of[k], end))
    && (forall j, k :: 0 <= j < k < |of| ==> of[j] < of[k] && spills[j].off + spills[j].size <= spills[k].off)
    && (forall i :: 0 <= i < n && r.go[i].InReg? ==> i in of)
  }

  ghost predicate SpillOk(r: Assigned, p: Spill, i: nat, end: nat)
    requires Shaped(r) && i < |r.tys|
  {
    && r.go[i] == InReg(p.reg) && p.size == Size(r.tys[i]) && p.ptr == r.tys[i].Ptr?
    && p.size > 0 && p.off >= 8 + r.goStack && (p.off - 8) % p.size == 0 && p.off + p.size <= 8 + end
  }

  ghost predicate PtrsOnStack(r: Assigned, offs: seq<nat>, n: nat)
    requires Shaped(r) && n <= |r.tys|
  {
    && (forall k :: 0 <= k < |offs| ==> PtrAt(r, offs[k], n))
    && (forall i :: 0 <= i < n && r.tys[i].Ptr? && r.go[i].OnStack? ==> r.go[i].off in offs)
  }

  ghost predicate PtrAt(r: Assigned, o: nat, n: nat)
    requires Shaped(r) && n <= |r.tys|
  {
    exists i :: 0 <= i < n && r.tys[i].Ptr? && r.go[i] == OnStack(o)
  }

  /** Where the first k slots end. */
  function SpillEnd(spills: seq<Spill>, start: nat, k: nat): int
    requires k <= |spills|
  {
    if k == 0 then start else spills[k - 1].off + spills[k - 1].size - 8
  }

  /** Each slot is right after the one before it, the first right after `start`. */
  ghost predicate Tight(spills: seq<Spill>, start: nat) {
    forall k :: 0 <= k < |spills| ==> NextTo(spills[k], SpillEnd(spills, start, k))
  }

  ghost predicate NextTo(p: Spill, end: int) { end >= 0 && p.off >= 8 && Least(p.off - 8, end, p.size) }

  lemma TightMore(spills: seq<Spill>, start: nat, p: Spill)
    requires Tight(spills, start) && NextTo(p, SpillEnd(spills, start, |spills|))
    ensures Tight(spills + [p], start) && SpillEnd(spills + [p], start, |spills| + 1) == p.off + p.size - 8
  {
    hide NextTo;
    var more := spills + [p];
    forall k | 0 <= k < |more|
      ensures NextTo(more[k], SpillEnd(more, start, k))
    {
      assert SpillEnd(more, start, k) == SpillEnd(spills, start, k);
      if k < |spills| { assert NextTo(spills[k], SpillEnd(spills, start, k)); }
    }
  }

  lemma NoSpills(r: Assigned)
    requires Shaped(r)
    ensures Tight([], r.goStack) && SpillsOk(r, [], [], 0, r.goStack) && PtrsOnStack(r, [], 0)
  {
  }

  method GoArgsLayout(r: Assigned) returns (spills: seq<Spill>, stackPtrs: seq<nat>, area: nat, ghost of: seq<nat>)
    requires Shaped(r) && AllScalar(r.tys)
    ensures SpillsOk(r, spills, of, |r.tys|, area) && PtrsOnStack(r, stackPtrs, |r.tys|) && area % 8 == 0
    ensures Tight(spills, r.goStack) && SpillEnd(spills, r.goStack, |spills|) >= 0
    ensures Least(area, SpillEnd(spills, r.goStack, |spills|), 8)
  {
    var off: nat := r.goStack;
    spills, stackPtrs, of := [], [], [];
    hide Tight, SpillsOk, PtrsOnStack;
    NoSpills(r);
    for n := 0 to |r.tys|
      invariant SpillsOk(r, spills, of, n, off) && PtrsOnStack(r, stackPtrs, n)
      invariant Tight(spills, r.goStack) && SpillEnd(spills, r.goStack, |spills|) == off >= r.goStack
    {
      if r.go[n].OnStack? {
        PtrsGrow(r, stackPtrs, n);
        if r.tys[n].Ptr? { stackPtrs := stackPtrs + [r.go[n].off]; }
        SpillsSkip(r, spills, of, n, off);
      } else {
        var size := Size(r.tys[n]);
        var at := AlignUp(off, size);
        var p := Spill(r.go[n].reg, 8 + at, size, r.tys[n].Ptr?);
        SpillsGrow(r, spills, of, n, off, p);
        TightMore(spills, r.goStack, p);
        PtrsSkip(r, stackPtrs, n);
        spills, of := spills + [p], of + [n];
        off := at + size;
      }
    }
    area := AlignUp(off, 8);
    SpillsRaise(r, spills, of, |r.tys|, off, area);
  }

  lemma PtrsGrow(r: Assigned, offs: seq<nat>, n: nat)
    requires Shaped(r) && n < |r.tys| && PtrsOnStack(r, offs, n) && r.go[n].OnStack?
    ensures PtrsOnStack(r, if r.tys[n].Ptr? then offs + [r.go[n].off] else offs, n + 1)
  {
    forall o | PtrAt(r, o, n)
      ensures PtrAt(r, o, n + 1)
    {
    }
    assert r.tys[n].Ptr? ==> PtrAt(r, r.go[n].off, n + 1) && r.go[n].off in offs + [r.go[n].off];
  }

  lemma PtrsSkip(r: Assigned, offs: seq<nat>, n: nat)
    requires Shaped(r) && n < |r.tys| && PtrsOnStack(r, offs, n) && r.go[n].InReg?
    ensures PtrsOnStack(r, offs, n + 1)
  {
    forall o | PtrAt(r, o, n)
      ensures PtrAt(r, o, n + 1)
    {
    }
  }

  lemma SpillsRaise(r: Assigned, spills: seq<Spill>, of: seq<nat>, n: nat, end: nat, higher: nat)
    requires Shaped(r) && n <= |r.tys| && SpillsOk(r, spills, of, n, end) && end <= higher
    ensures SpillsOk(r, spills, of, n, higher)
  {
    forall k | 0 <= k < |of|
      ensures of[k] < n && SpillOk(r, spills[k], of[k], higher)
    {
      assert SpillOk(r, spills[k], of[k], end);
    }
  }

  lemma SpillsSkip(r: Assigned, spills: seq<Spill>, of: seq<nat>, n: nat, end: nat)
    requires Shaped(r) && n < |r.tys| && SpillsOk(r, spills, of, n, end) && r.go[n].OnStack?
    ensures SpillsOk(r, spills, of, n + 1, end)
  {
  }

  lemma SpillsGrow(r: Assigned, spills: seq<Spill>, of: seq<nat>, n: nat, end: nat, p: Spill)
    requires Shaped(r) && n < |r.tys| && SpillsOk(r, spills, of, n, end) && p.off >= 8 + end
      && SpillOk(r, p, n, p.off - 8 + p.size)
    ensures SpillsOk(r, spills + [p], of + [n], n + 1, p.off - 8 + p.size)
  {
    SpillsRaise(r, spills, of, n, end, p.off - 8 + p.size);
    var ps, os := spills + [p], of + [n];
    forall j, k | 0 <= j < k < |os|
      ensures os[j] < os[k] && ps[j].off + ps[j].size <= ps[k].off
    {
      assert SpillOk(r, spills[j], of[j], end);
    }
    forall i | 0 <= i < n + 1 && r.go[i].InReg?
      ensures i in os
    {
      if i < n {
        var k :| 0 <= k < |of| && of[k] == i;
        assert os[k] == i;
      } else {
        assert os[|of|] == n;
      }
    }
  }

  // ----- pointer bitmaps -----

  function RoundBits(n: nat): nat { (n + 7) / 8 * 8 }

  /** Sets one bit per offset in words; refuses offsets outside the area. */
  method SetBits(words: seq<nat>, n: nat) returns (ok: bool, bits: seq<bool>)
    ensures ok <==> forall k :: 0 <= k < |words| ==> words[k] < n
    ensures ok ==> |bits| == RoundBits(n) && forall b :: 0 <= b < |bits| ==> (bits[b] <==> b in words)
  {
    ok, bits := true, seq(RoundBits(n), _ => false);
    for i := 0 to |words|
      invariant ok && |bits| == RoundBits(n) && forall k :: 0 <= k < i ==> words[k] < n
      invariant forall b :: 0 <= b < |bits| ==> (bits[b] <==> b in words[..i])
    {
      assert words[..i + 1] == words[..i] + [words[i]];
      if words[i] >= n {
        ok := false;
        return;
      }
      bits := bits[words[i] := true];
    }
    assert words[..|words|] == words;
  }

  /** The argument bitmap has a bit exactly for each word of the Go argument
      area that holds a pointer argument; the refusals never happen. */
  method ArgsBitmap(a: Abi, r: Assigned, stackPtrs: seq<nat>, area: nat) returns (ok: bool, bits: seq<bool>)
    requires AssignedOk(a, r) && Shaped(r) && PtrsOnStack(r, stackPtrs, |r.tys|) && area % 8 == 0 && r.goStack <= area
    ensures ok && |bits| == RoundBits(area / 8)
    ensures forall b: nat :: b < |bits| ==> (bits[b] <==> PtrAt(r, 8 * b, |r.tys|))
  {
    var words: seq<nat> := [];
    for i := 0 to |stackPtrs|
      invariant |words| == i && forall k :: 0 <= k < i ==> 8 * words[k] == stackPtrs[k] && words[k] < area / 8
    {
      PtrSlot(a, r, stackPtrs[i]);
      words := words + [stackPtrs[i] / 8];
    }
    ok, bits := SetBits(words, area / 8);
    forall b: nat | b < |bits|
      ensures bits[b] <==> PtrAt(r, 8 * b, |r.tys|)
    {
      if b in words {
        var k :| 0 <= k < |words| && words[k] == b;
        assert PtrAt(r, stackPtrs[k], |r.tys|);
      }
      if PtrAt(r, 8 * b, |r.tys|) {
        var i :| 0 <= i < |r.tys| && r.tys[i].Ptr? && r.go[i] == OnStack(8 * b);
        var k :| 0 <= k < |stackPtrs| && stackPtrs[k] == 8 * b;
        assert words[k] == b;
      }
    }
  }

  lemma PtrSlot(a: Abi, r: Assigned, o: nat)
    requires AssignedOk(a, r) && Shaped(r) && PtrAt(r, o, |r.tys|)
    ensures o % 8 == 0 && o + 8 <= r.goStack
  {
    var g: Cursor :| g.stack == r.goStack && Side(r.tys, r.go, a.goInt, a.goFloat, g);
    var i :| 0 <= i < |r.tys| && r.tys[i].Ptr? && r.go[i] == OnStack(o);
    assert SlotOk(r.tys[i], r.go[i], g.stack);
  }

  // ----- outgoing pointers -----

  /** The outgoing area: the C stack arguments rounded to 16 bytes. */
  method OutgoingBytes(stack: nat) returns (r: Option<nat>)
    ensures r.Some? <==> stack % 8 == 0
    ensures r.Some? ==> stack <= r.value < stack + 16 && r.value % 16 == 0
  {
    if stack % 8 != 0 { return None; }
    return Some((stack + 15) / 16 * 16);
  }

  function OutArea(a: Abi, outgoing: nat): nat { if a.saved == 32 && outgoing > 0 then outgoing + 16 else outgoing }

  /** Words between the outgoing area's low end and varp, the entry SP less 8. */
  function LocalWords(a: Abi, outgoing: nat): nat {
    if a.saved == 32 then (OutArea(a, outgoing) + 24) / 8 else outgoing / 8
  }

  /** A word of the thunk's frame that holds a pointer at the call. */
  ghost predicate FramePtr(a: Abi, fr: Frame, r: Assigned, at: int)
    requires Shaped(r)
  {
    || (exists i :: 0 <= i < |r.tys| && r.tys[i].Ptr? && r.c[i].OnStack? && at == OutBase(fr) + r.c[i].off)
    || (a.saved == 32 && at == fr.entry - 16)
  }

  lemma OutSlot(a: Abi, r: Assigned, i: nat)
    requires AssignedOk(a, r) && Shaped(r) && i < |r.tys| && r.tys[i].Ptr? && r.c[i].OnStack?
    ensures r.c[i].off % 8 == 0 && r.c[i].off + 8 <= r.cStack
  {
    var c: Cursor :| c.stack == r.cStack && Side(r.tys, r.c, a.cInt, a.cFloat, c);
    assert SlotOk(r.tys[i], r.c[i], c.stack);
  }

  /** The same, counted in bytes below varp. */
  ghost predicate SlotPtr(a: Abi, r: Assigned, outgoing: nat, n: nat, o: int)
    requires Shaped(r) && n <= |r.tys|
  {
    exists i :: 0 <= i < n && r.tys[i].Ptr? && r.c[i].OnStack? && o == outgoing - r.c[i].off + a.saved - 8
  }

  lemma SlotRange(a: Abi, r: Assigned, outgoing: nat, o: int)
    requires AbiOk(a) && AssignedOk(a, r) && Shaped(r) && r.cStack <= outgoing && outgoing % 8 == 0
      && SlotPtr(a, r, outgoing, |r.tys|, o)
    ensures o % 8 == 0 && 8 <= o <= 8 * LocalWords(a, outgoing)
  {
    var i :| 0 <= i < |r.tys| && r.tys[i].Ptr? && r.c[i].OnStack? && o == outgoing - r.c[i].off + a.saved - 8;
    OutSlot(a, r, i);
    SlotMath(a, r.c[i].off, outgoing, o);
    hide AbiOk, AssignedOk, Shaped, SlotPtr, LocalWords;
  }

  lemma SlotMath(a: Abi, off: nat, outgoing: nat, o: int)
    requires AbiOk(a) && off % 8 == 0 && off + 8 <= outgoing && outgoing % 8 == 0 && o == outgoing - off + a.saved - 8
    ensures o % 8 == 0 && 8 <= o <= 8 * LocalWords(a, outgoing)
  {
    assert a.saved % 8 == 0;
    hide AbiOk;
  }

  /** Offsets below varp of the outgoing pointer arguments (and of the saved
      frame pointer on arm64). */
  method PointerSlots(a: Abi, r: Assigned, outgoing: nat) returns (slots: seq<int>)
    requires Shaped(r)
    ensures forall o :: o in slots <==> SlotPtr(a, r, outgoing, |r.tys|, o) || (a.saved == 32 && o == 8)
  {
    slots := [];
    for n := 0 to |r.tys|
      invariant forall o :: o in slots <==> SlotPtr(a, r, outgoing, n, o)
    {
      ghost var was := slots;
      if r.c[n].OnStack? && r.tys[n].Ptr? {
        slots := slots + [outgoing - r.c[n].off + a.saved - 8];
      }
      forall o
        ensures o in slots <==> SlotPtr(a, r, outgoing, n + 1, o)
      {
        assert o in slots <==>
          o in was || (r.c[n].OnStack? && r.tys[n].Ptr? && o == outgoing - r.c[n].off + a.saved - 8);
        if SlotPtr(a, r, outgoing, n + 1, o) {
          var i :| 0 <= i < n + 1 && r.tys[i].Ptr? && r.c[i].OnStack? && o == outgoing - r.c[i].off + a.saved - 8;
          assert i < n ==> SlotPtr(a, r, outgoing, n, o);
        }
      }
    }
    if a.saved == 32 { slots := slots + [8]; }
  }

  lemma SlotIsFrameWord(a: Abi, r: Assigned, outgoing: nat, entry: int, o: int)
    requires Shaped(r)
    ensures FramePtr(a, Frame(entry, a.saved, outgoing), r, entry - 8 - o) <==>
      SlotPtr(a, r, outgoing, |r.tys|, o) || (a.saved == 32 && o == 8)
  {
  }

  /** Bit b stands for the word at varp - 8 * LocalWords + 8 * b: it is set
      exactly when that word holds a pointer at the call. */
  method LocalsBitmap(a: Abi, r: Assigned, outgoing: nat) returns (ok: bool, bits: seq<bool>)
    requires AbiOk(a) && AssignedOk(a, r) && Shaped(r) && r.cStack <= outgoing && outgoing % 8 == 0
    ensures ok && |bits| == RoundBits(LocalWords(a, outgoing))
    ensures forall b: nat, entry: int :: b < LocalWords(a, outgoing) ==>
      (bits[b] <==> FramePtr(a, Frame(entry, a.saved, outgoing), r, entry - 8 - 8 * LocalWords(a, outgoing) + 8 * b))
  {
    var slots := PointerSlots(a, r, outgoing);
    var n := LocalWords(a, outgoing);
    var words: seq<nat> := [];
    for i := 0 to |slots|
      invariant |words| == i && forall k :: 0 <= k < i ==> words[k] < n && 8 * (n - words[k]) == slots[k]
    {
      assert slots[i] in slots;
      if SlotPtr(a, r, outgoing, |r.tys|, slots[i]) { SlotRange(a, r, outgoing, slots[i]); }
      words := words + [n - slots[i] / 8];
    }
    ok, bits := SetBits(words, n);
    forall b: nat, entry: int | b < n
      ensures bits[b] <==> FramePtr(a, Frame(entry, a.saved, outgoing), r, entry - 8 - 8 * n + 8 * b)
    {
      var o := 8 * n - 8 * b;
      SlotIsFrameWord(a, r, outgoing, entry, o);
      assert entry - 8 - o == entry - 8 - 8 * n + 8 * b;
      if b in words {
        var k :| 0 <= k < |words| && words[k] == b;
        assert slots[k] == o;
      }
      if o in slots {
        var k :| 0 <= k < |slots| && slots[k] == o;
        assert words[k] == b;
      }
    }
  }

  // ----- the stack pointer at every instruction -----

  /** What an instruction of a thunk does to SP and to the frame pointer. */
  datatype SpOp = Lower(k: nat) | Raise(k: nat) | SetFp(k: nat) | SpFromFp | Neutral

  datatype Sp = Sp(sp: int, fp: int)

  function SpStep(op: SpOp, s: Sp): Sp {
    match op
    case Lower(k) => s.(sp := s.sp - k)
    case Raise(k) => s.(sp := s.sp + k)
    case SetFp(k) => s.(fp := s.sp + k)
    case SpFromFp => s.(sp := s.fp)
    case Neutral => s
  }

  /** The state before instruction i, with SP at 0 on entry. */
  function SpAt(ops: seq<SpOp>, i: nat): Sp
    requires i <= |ops|
  {
    if i == 0 then Sp(0, 0) else SpStep(ops[i - 1], SpAt(ops, i - 1))
  }

  function Neutrals(n: nat): seq<SpOp> { seq(n, _ => Neutral) }

  function Prologue(a: Abi, outgoing: nat): seq<SpOp> {
    if a.saved == 32
    then [Lower(32), Neutral, SetFp(16), Neutral] +
      (if outgoing > 0 then [Lower(OutArea(a, outgoing)), Neutral] else [])
    else [Lower(8), SetFp(0)] + (if outgoing > 0 then [Lower(outgoing)] else [])
  }

  /** SP when only the frame record is left: after the epilogue's SP := FP. */
  function Restored(a: Abi): nat { if a.saved == 32 then 16 else 8 }

  /** The thunk, with n instructions between prologue and epilogue (argument
      code, the call, which gives SP and FP back, and the result moves). */
  function ThunkOps(a: Abi, outgoing: nat, n: nat): seq<SpOp> {
    Prologue(a, outgoing) + Neutrals(n) + [SpFromFp, Raise(Restored(a)), Neutral]
  }

  datatype Row = Row(pc: nat, value: int)

  /** Where the row for the lowered SP goes: right after the instruction. */
  function LoweredAt(a: Abi): nat { if a.saved == 32 then 5 else 3 }

  function SpDeltaRows(a: Abi, outgoing: nat, n: nat): seq<Row> {
    var p := |Prologue(a, outgoing)|;
    [Row(0, 0), Row(1, a.saved)] + (if outgoing > 0 then [Row(LoweredAt(a), a.saved + OutArea(a, outgoing))] else [])
    + [Row(p + n + 1, Restored(a)), Row(p + n + 2, 0)]
  }

  /** The value of the last row at or before pc. */
  function Lookup(rows: seq<Row>, pc: nat): int {
    if rows == [] then -1 else if rows[|rows| - 1].pc <= pc then rows[|rows| - 1].value else Lookup(Init(rows), pc)
  }

  lemma {:induction false} NeutralsKeep(a: Abi, outgoing: nat, n: nat, i: nat)
    requires i <= n
    ensures SpAt(ThunkOps(a, outgoing, n), |Prologue(a, outgoing)| + i) ==
      SpAt(ThunkOps(a, outgoing, n), |Prologue(a, outgoing)|)
  {
    if i > 0 {
      NeutralsKeep(a, outgoing, n, i - 1);
      assert ThunkOps(a, outgoing, n)[|Prologue(a, outgoing)| + i - 1] == Neutral;
    }
  }

  /** SP and FP before each instruction of the prologue. */
  function EarlySp(a: Abi, outgoing: nat, i: nat): Sp {
    if a.saved == 32
    then Sp(if i == 0 then 0 else if i <= 4 then -32 else -32 - OutArea(a, outgoing), if i < 3 then 0 else -16)
    else Sp(if i == 0 then 0 else if i <= 2 then -8 else -8 - outgoing, if i < 2 then 0 else -8)
  }

  lemma {:induction false} PrologueSp(a: Abi, outgoing: nat, n: nat, i: nat)
    requires a.saved in {8, 32} && i <= |Prologue(a, outgoing)|
    ensures SpAt(ThunkOps(a, outgoing, n), i) == EarlySp(a, outgoing, i)
  {
    if i > 0 {
      PrologueSp(a, outgoing, n, i - 1);
      assert ThunkOps(a, outgoing, n)[i - 1] == Prologue(a, outgoing)[i - 1];
    }
  }

  lemma RowsLookup(a: Abi, outgoing: nat, n: nat, i: nat)
    requires a.saved in {8, 32}
    ensures var p := |Prologue(a, outgoing)|;
      Lookup(SpDeltaRows(a, outgoing, n), i) ==
      if p + n + 2 <= i then 0 else if p + n + 1 <= i then Restored(a)
      else if outgoing > 0 && LoweredAt(a) <= i then a.saved + OutArea(a, outgoing) else if 1 <= i then a.saved else 0
  {
    var p, none: seq<Row> := |Prologue(a, outgoing)|, [];
    var r1 := (none + [Row(0, 0)]) + [Row(1, a.saved)];
    var low := Row(LoweredAt(a), a.saved + OutArea(a, outgoing));
    var r2 := if outgoing > 0 then r1 + [low] else r1;
    var r3 := r2 + [Row(p + n + 1, Restored(a))];
    assert SpDeltaRows(a, outgoing, n) == r3 + [Row(p + n + 2, 0)];
    LookupLast(none, Row(0, 0), i);
    LookupLast(none + [Row(0, 0)], Row(1, a.saved), i);
    LookupLast(r1, low, i);
    LookupLast(r2, Row(p + n + 1, Restored(a)), i);
    LookupLast(r3, Row(p + n + 2, 0), i);
  }

  lemma LookupLast(rows: seq<Row>, row: Row, pc: nat)
    ensures Lookup(rows + [row], pc) == if row.pc <= pc then row.value else Lookup(rows, pc)
  {
    assert Init(rows + [row]) == rows;
  }

  /** The recorded displacement is the true one at every instruction. */
  lemma SpDeltaIsTrue(a: Abi, outgoing: nat, n: nat, i: nat)
    requires a.saved in {8, 32} && i < |ThunkOps(a, outgoing, n)|
    ensures Lookup(SpDeltaRows(a, outgoing, n), i) == -SpAt(ThunkOps(a, outgoing, n), i).sp
  {
    var ops, p := ThunkOps(a, outgoing, n), |Prologue(a, outgoing)|;
    RowsLookup(a, outgoing, n, i);
    PrologueSp(a, outgoing, n, if i <= p then i else p);
    if i > p {
      NeutralsKeep(a, outgoing, n, if i - p <= n then i - p else n);
      if i > p + n { assert ops[p + n] == SpFromFp; }
      if i > p + n + 1 { assert ops[p + n + 1] == Raise(Restored(a)); }
    }
  }
}
