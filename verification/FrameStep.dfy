/** One instruction keeps the analysis sound: every rule of the transfer
    function, and the little it must know of the words that come from outside. */
module FrameStep {
  import opened FrameLattice
  import opened FrameTransfer
  import opened FrameMachine
  import opened FrameSound
  import opened FrameGroups

  // ----- the premises of one step -----

  /** A subtraction classed as a difference of stack addresses is one: both
      operands count this frame equally often, or move alike. Two operands known
      to shift always do. */
  ghost predicate TrueDifference(s: AState, m: Ideal, i: Instr, ch: Choice)
    requires s.Valid(|m.slots|) && m.Valid(|m.slots|) && ValidInstr(i, |m.slots|) && |ch.syms| > 0
  {
    i.Sub? && Read(s, i.a).Repairable() && (SubSource(s, i.b).Repairable() || i.root) ==>
      var x, y := IdealRead(m, i.a), IdealSource(m, i.b, ch);
      x.Lin? && y.Lin? ==> x.own == y.own || Coef(x) == Coef(y)
  }

  /** A store of a word that belongs to a copy group stores a defined word. */
  ghost predicate DefinedStore(s: AState, m: Ideal, i: Instr)
    requires s.Valid(|m.slots|) && m.Valid(|m.slots|) && ValidInstr(i, |m.slots|)
  {
    i.Store? && Read(s, i.src).copyId != NO_COPY ==> IdealRead(m, i.src).Lin?
  }

  /** What one step other than a call owes to the program and its surroundings. */
  ghost predicate Premises(s: AState, m: Ideal, i: Instr, ch: Choice)
    requires s.Valid(|m.slots|) && m.Valid(|m.slots|) && ValidInstr(i, |m.slots|) && !i.Call? && |ch.syms| > |Defs(i)|
  {
    Provenance(m, i, ch) && TrueDifference(InvalidateAll(s, Defs(i)), m, i, ch) && DefinedStore(s, m, i)
  }

  // ----- the result of each rule -----

  lemma OutsideRead(s: AState, m: Ideal, r: Reg)
    requires Sound(s, m) && ValidReg(r) && !Read(s, r).Frameish()
    ensures Foreign(IdealRead(m, r))
  {
    ReadHolds(s, m, r);
  }

  lemma LeaFits(s: AState, m: Ideal, i: Instr, ch: Choice)
    requires Sound(s, m) && i.Lea? && ValidInstr(i, |m.slots|) && |ch.syms| > 1 && Provenance(m, i, ch) && i.dst.Gpr?
    ensures KindHolds(Value(s, i).kind, IdealResult(m, i, ch), m)
  {
    if i.base.Some? { ReadHolds(s, m, i.base.value); }
    if i.index.Some? { ReadHolds(s, m, i.index.value); }
    if i.plain {
      LeaLinear(IdealOpt(m, i.base), IdealOpt(m, i.index), i.scale);
    } else if Value(s, i) == Of(Plain) {
      forall k | 0 <= k < |Inputs(i)|
        ensures Foreign(IdealRead(m, Inputs(i)[k]))
      {
        OutsideRead(s, m, Inputs(i)[k]);
      }
      assert ForeignInputs(m, i);
      assert Defs(i)[0] == i.dst;
    }
  }

  lemma LeaLinear(x: Sym, y: Sym, scale: int)
    ensures y.Lin? && y.own == 0 ==> scale * y.own == 0
    ensures scale == 1 && y.Lin? ==> scale * y.own == y.own
  {
  }

  lemma MemoryOutside(m: Ideal, i: Instr, ch: Choice)
    requires |m.regs| == GPRS && ValidInstr(i, |m.slots|) && |ch.syms| > 1
    requires (i.Add? || i.Sub? || i.Cmov?) && i.b.FromMemory? && i.dst.Gpr? && Provenance(m, i, ch)
    ensures Foreign(IdealSource(m, i.b, ch))
  {
    assert Defs(i)[0] == i.dst;
  }

  lemma AddFits(s: AState, m: Ideal, i: Instr, ch: Choice)
    requires Sound(s, m) && i.Add? && ValidInstr(i, |m.slots|) && |ch.syms| > 1 && Provenance(m, i, ch) && i.dst.Gpr?
    ensures KindHolds(Value(s, i).kind, IdealResult(m, i, ch), m)
  {
    ReadHolds(s, m, i.a);
    match i.b
    case FromReg(r) => ReadHolds(s, m, r);
    case FromSlot(k) => assert Holds(ValAt(s, S(k)), SymAt(m, S(k)), m);
    case FromMemory => MemoryOutside(m, i, ch);
  }

  lemma SubFits(s: AState, m: Ideal, i: Instr, ch: Choice)
    requires Sound(s, m) && i.Sub? && ValidInstr(i, |m.slots|) && |ch.syms| > 1 && Provenance(m, i, ch) && i.dst.Gpr?
    requires TrueDifference(s, m, i, ch)
    ensures KindHolds(Value(s, i).kind, IdealResult(m, i, ch), m)
  {
    ReadHolds(s, m, i.a);
    match i.b
    case FromReg(r) => ReadHolds(s, m, r);
    case FromSlot(k) => assert Holds(ValAt(s, S(k)), SymAt(m, S(k)), m);
    case FromMemory => MemoryOutside(m, i, ch);
  }

  /** A conditional move keeps a claim only when both operands make it. */
  lemma CmovFits(s: AState, m: Ideal, i: Instr, ch: Choice, n: nat)
    requires Sound(s, m) && i.Cmov? && ValidInstr(i, |m.slots|) && |ch.syms| > 1 && n < GPRS
    requires Provenance(m, i, ch) && i.dst.Gpr?
    ensures Fits(s, m, n, Value(s, i), IdealResult(m, i, ch))
  {
    ReadHolds(s, m, i.a);
    var b, y := CmovSource(s, i.b), IdealSource(m, i.b, ch);
    assert Holds(b, y, m) by {
      if i.b.FromReg? { ReadHolds(s, m, i.b.reg); }
      if i.b.FromSlot? { assert Holds(ValAt(s, S(i.b.slot)), SymAt(m, S(i.b.slot)), m); }
      if i.b.FromMemory? { MemoryOutside(m, i, ch); }
    }
    forall l | InRange(l, |m.slots|)
      ensures SameGroup(b, y, ValAt(s, l), SymAt(m, l))
    {
      if i.b.FromReg? { ReadHolds(s, m, i.b.reg); }
      if i.b.FromSlot? { assert SameGroup(ValAt(s, S(i.b.slot)), SymAt(m, S(i.b.slot)), ValAt(s, l), SymAt(m, l)); }
    }
  }

  lemma AddImmFits(s: AState, m: Ideal, i: Instr, ch: Choice, n: nat)
    requires Sound(s, m) && i.AddImm? && ValidInstr(i, |m.slots|) && |ch.syms| > 0 && n < GPRS
    ensures Fits(s, m, n, Value(s, i), IdealResult(m, i, ch))
  {
    ReadHolds(s, m, i.src);
  }

  /** The transfer function's result describes the computed word. */
  lemma ValueFits(s: AState, m: Ideal, i: Instr, ch: Choice, n: nat)
    requires Sound(s, m) && ValidInstr(i, |m.slots|) && |ch.syms| > |Defs(i)| && n < GPRS
    requires !i.Store? && !i.Other? && !i.Call? && !i.Mov? && !i.Load? && i.dst.Gpr?
    requires Provenance(m, i, ch) && TrueDifference(s, m, i, ch)
    ensures Fits(s, m, n, Value(s, i), IdealResult(m, i, ch))
  {
    hide Provenance, TrueDifference;
    if i.Lea? { LeaFits(s, m, i, ch); }
    else if i.Add? { AddFits(s, m, i, ch); }
    else if i.Sub? { SubFits(s, m, i, ch); }
    else if i.Cmov? { CmovFits(s, m, i, ch, n); }
    else if i.AddImm? { AddImmFits(s, m, i, ch, n); }
  }

  // ----- instructions without a rule of their own -----

  /** Operands not classed as frame-derived come from outside the frame. */
  lemma OperandsOutside(s: AState, m: Ideal, i: Instr)
    requires Sound(s, m) && i.Other? && ValidInstr(i, |m.slots|) && Value(s, i) == Of(Plain)
    ensures ForeignInputs(m, i)
  {
    forall k | 0 <= k < |i.vals|
      ensures Foreign(IdealRead(m, i.vals[k]))
    {
      OutsideRead(s, m, i.vals[k]);
    }
    if i.load.Some? { assert Holds(ValAt(s, S(i.load.value)), SymAt(m, S(i.load.value)), m); }
  }

  /** The stored word, when neither it nor the rest of the slot is frame-derived. */
  lemma StoredOutside(s: AState, m: Ideal, i: Instr, ch: Choice)
    requires Sound(s, m) && i.Other? && ValidInstr(i, |m.slots|) && |ch.syms| > |i.defs| && Provenance(m, i, ch)
    requires i.store.Some? && StorePart(s, i.store.value, i.vals).slots[i.store.value] == Of(Plain)
    ensures Foreign(ch.syms[|i.defs|])
  {
    var sl := i.store.value;
    forall k | 0 <= k < |i.vals|
      ensures !Read(s, i.vals[k]).Frameish()
    {
      assert Read(Forget(s, sl), i.vals[k]).kind == Read(s, i.vals[k]).kind;
    }
    assert Holds(ValAt(s, S(sl)), SymAt(m, S(sl)), m);
    OperandsOutside(s, m, i);
  }

  lemma OtherSound(s: AState, m: Ideal, i: Instr, ch: Choice)
    requires Sound(s, m) && i.Other? && ValidInstr(i, |m.slots|) && |ch.syms| > |i.defs| && Provenance(m, i, ch)
    ensures Sound(Step(s, i), IdealStep(m, i, ch))
  {
    hide AnyFrame, Provenance, Foreign;
    var s0 := InvalidateAll(s, i.defs);
    InvalidateAllSound(s, m, i.defs);
    var v := Value(s0, i);
    if v == Of(Plain) { DefsOutside(s0, m, i, ch); }
    if i.store.Some? {
      var sl, x := i.store.value, ch.syms[|i.defs|];
      if StorePart(s0, sl, i.vals).slots[sl] == Of(Plain) { StoredOutside(s0, m, i, ch); }
      KindOutside(x, m);
      StorePartSound(s0, m, sl, i.vals, x);
      var m1 := m.(slots := m.slots[sl := x]);
      WritesSound(StorePart(s0, sl, i.vals), m1, i.defs, v, ch.syms);
      WritesCommute(m, i.defs, ch.syms, m1.slots);
    } else {
      WritesSound(s0, m, i.defs, v, ch.syms);
    }
  }

  lemma KindOutside(x: Sym, m: Ideal)
    ensures Foreign(x) ==> KindHolds(Plain, x, m)
  {
  }

  lemma DefsOutside(s: AState, m: Ideal, i: Instr, ch: Choice)
    requires Sound(s, m) && i.Other? && ValidInstr(i, |m.slots|) && |ch.syms| > |i.defs| && Provenance(m, i, ch)
    requires Value(s, i) == Of(Plain)
    ensures forall k :: 0 <= k < |i.defs| && i.defs[k].Gpr? ==> Foreign(ch.syms[k])
  {
    OperandsOutside(s, m, i);
  }

  lemma {:induction false} WritesCommute(m: Ideal, rs: seq<Reg>, xs: seq<Sym>, slots: seq<Sym>)
    requires |m.regs| == GPRS && ValidRegs(rs) && |xs| >= |rs| && |slots| == |m.slots|
    ensures IdealWrites(m.(slots := slots), rs, xs) == IdealWrites(m, rs, xs).(slots := slots)
  {
    if rs != [] { WritesCommute(m, rs[..|rs| - 1], xs, slots); }
  }

  // ----- one instruction -----

  /** One instruction other than a call. */
  lemma StepSound(s: AState, m: Ideal, i: Instr, ch: Choice)
    requires Sound(s, m) && ValidInstr(i, |m.slots|) && !i.Call? && |ch.syms| > |Defs(i)|
    requires FreshGroup(s, i) && Premises(s, m, i, ch)
    ensures Sound(Step(s, i), IdealStep(m, i, ch))
  {
    hide FreshGroup, InvalidateAll, Provenance, TrueDifference;
    if i.Mov? { MovSound(s, m, i, ch); }
    else if i.Load? { LoadSound(s, m, i, ch); }
    else if i.Other? { OtherSound(s, m, i, ch); }
    else if i.Store? {
      StoreWholeSound(s, m, i.slot, i.src);
      NoDefs(s);
    } else {
      var s0 := InvalidateAll(s, Defs(i));
      InvalidateAllSound(s, m, Defs(i));
      assert Defs(i)[..0] == [];
      if i.dst.Gpr? {
        ValueFits(s0, m, i, ch, i.dst.n);
        WriteSound(s0, m, i.dst.n, Value(s0, i), IdealResult(m, i, ch));
        assert Step(s, i) == Write(s0, i.dst, Value(s0, i));
      } else {
        MoveBaseSound(s0, m, i.dst.base, IdealResult(m, i, ch));
        assert Step(s, i) == s0;
      }
    }
  }

  lemma NoDefs(s: AState)
    ensures InvalidateAll(s, []) == s
  {
  }

  lemma CallSound(s: AState, m: Ideal, i: Instr, ch: Choice)
    requires Sound(s, m) && i.Call? && ValidInstr(i, |m.slots|) && |ch.syms| > |i.results| && Provenance(m, i, ch)
    ensures Sound(Step(s, i), IdealCall(m, i, ch))
  {
    var rs := seq(|i.results|, k requires 0 <= k < |i.results| => Gpr(i.results[k]));
    var m1 := m.(regs := seq(GPRS, n requires 0 <= n < GPRS => if n in i.clobbers then Undef else m.regs[n]));
    var s1 := StepCall(s, i.clobbers, []);
    forall l | InRange(l, |m.slots|)
      ensures Holds(ValAt(s1, l), SymAt(m1, l), m1)
    {
      assert Holds(ValAt(s, l), SymAt(m, l), m);
    }
    forall l, k | InRange(l, |m.slots|) && InRange(k, |m.slots|)
      ensures SameGroup(ValAt(s1, l), SymAt(m1, l), ValAt(s1, k), SymAt(m1, k))
    {
      assert SameGroup(ValAt(s, l), SymAt(m, l), ValAt(s, k), SymAt(m, k));
    }
    WritesSound(s1, m1, rs, Of(Plain), ch.syms);
    forall n | 0 <= n < GPRS
      ensures Gpr(n) in rs <==> n in i.results
    {
      if n in i.results {
        var k :| 0 <= k < |i.results| && i.results[k] == n;
        assert rs[k] == Gpr(n);
      }
    }
    assert WriteAll(s1, rs, Of(Plain)) == Step(s, i);
  }
}
