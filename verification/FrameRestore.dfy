/** After every call, every live word is again the word the program meant --
    and exactly when that holds for the words the analysis is unsure of. */
module FrameRestore {
  import opened Options
  import opened FrameLattice
  import opened FrameTransfer
  import opened FrameMachine
  import opened FrameSound
  import opened FrameRepair
  import opened FrameCall

  // ----- one word -----

  lemma AtMoved(x: Sym, base: int, delta: int)
    requires x.Lin?
    ensures At(x, base + delta) == W(At(x, base) + Coef(x) * delta)
  {
    WrapAdd(Coef(x) * base + x.off, Coef(x) * delta);
    assert Coef(x) * (base + delta) + x.off == Coef(x) * base + x.off + Coef(x) * delta;
  }

  /** A stale word `w` of this kind is turned into the intended one. An exact
      word always is; a shifting word exactly when it moves by delta; a "maybe"
      word exactly when it does so if it lies in the frame and stays otherwise;
      any other word exactly when it does not move. */
  ghost predicate Restorable(k: Kind, x: Sym, w: int, b: Bits, delta: int, top: int) {
    x.Lin? ==>
      match k
      case Exact(_, _) => true
      case Shifts => W(Coef(x) * delta) == W(delta)
      case Maybe => W(Coef(x) * delta) == if InFrame(w, b, top) then W(delta) else 0
      case _ => W(Coef(x) * delta) == 0
  }

  /** RBP and RSP come back moved by delta. */
  ghost predicate BasesMoved(b: Bits, r: Bits, delta: int) { r.rbp == W(b.rbp + delta) && r.rsp == W(b.rsp + delta) }

  lemma ExactRestored(off: int, bs: int, base: int, delta: int, c: int)
    ensures W(W(W(base + bs) + delta) + c) == W(1 * (base + delta) + (bs + c))
  {
    WrapAdd(base + bs, delta);
    WrapAdd(base + bs + delta, c);
  }

  lemma DeltaMeasured(b: Bits, r: Bits, delta: int)
    requires BasesMoved(b, r, delta) && r.oldfp == b.rbp
    ensures W(r.rbp - r.oldfp) == W(delta)
  {
    WrapAdd(b.rbp + delta, -b.rbp);
  }

  /** The emitted range check asks whether the old word lay in the old frame. */
  lemma RangeCheck(w: int, b: Bits, r: Bits, delta: int, top: int)
    requires BasesMoved(b, r, delta)
    ensures (W(W(w + W(delta)) - r.rsp) < W(W(r.rbp + top) - r.rsp)) == InFrame(w, b, top)
  {
    WrapAdd(w, delta);
    assert W(W(w + delta) - r.rsp) == W(w - b.rsp) by {
      WrapAdd(w + delta, r.rsp);
      WrapAdd(w + delta, b.rsp + delta);
    }
    assert W(W(r.rbp + top) - r.rsp) == W(b.rbp + top - b.rsp) by {
      WrapAdd(b.rbp + delta, top);
      WrapAdd(b.rbp + delta + top, r.rsp);
      WrapAdd(b.rbp + delta + top, b.rsp + delta);
    }
  }

  lemma MaybeRestoredIff(x: Sym, b: Bits, r: Bits, base: int, delta: int, top: int, w: int)
    requires x.Lin? && w == At(x, base) && BasesMoved(b, r, delta) && r.oldfp == b.rbp
    ensures Repaired(w, Maybe, r.rbp, r.rsp, W(r.rbp - r.oldfp), W(W(r.rbp + top) - r.rsp)) == At(x, base + delta)
      <==> Restorable(Maybe, x, w, b, delta, top)
  {
    hide W, At, InFrame;
    AtMoved(x, base, delta);
    DeltaMeasured(b, r, delta);
    RangeCheck(w, b, r, delta, top);
    AtWrapped(x, base);
    MaybeArithmetic(w, Coef(x) * delta, delta);
  }

  lemma AtWrapped(x: Sym, base: int)
    requires x.Lin?
    ensures At(x, base) == W(At(x, base))
  {
  }

  lemma MaybeArithmetic(w: int, moved: int, delta: int)
    requires w == W(w)
    ensures W(w + W(delta)) == W(w + moved) <==> W(moved) == W(delta)
    ensures w == W(w + moved) <==> W(moved) == 0
  {
    WrapAdd(w, delta);
    WrapCancel(w, delta, moved);
    WrapCancel(w, 0, moved);
  }

  lemma ShiftsRestoredIff(x: Sym, b: Bits, r: Bits, base: int, delta: int, w: int)
    requires x.Lin? && w == At(x, base) && BasesMoved(b, r, delta) && r.oldfp == b.rbp
    ensures W(w + W(r.rbp - r.oldfp)) == At(x, base + delta) <==> W(Coef(x) * delta) == W(delta)
  {
    hide W, At;
    AtMoved(x, base, delta);
    DeltaMeasured(b, r, delta);
    AtWrapped(x, base);
    MaybeArithmetic(w, Coef(x) * delta, delta);
  }

  /** One repaired word: `f` is the fixed word if the repair ran, else the old one. */
  lemma WordRestoredIff(k: Kind, x: Sym, m: Ideal, b: Bits, r: Bits, base: int, delta: int, top: int, w: int,
      ran: bool, f: int)
    requires x.Lin? && KindHolds(k, x, m) && BasesCorrect(m, b, base) && w == At(x, base)
    requires BasesMoved(b, r, delta) && (!k.Exact? ==> r.oldfp == b.rbp) && (!ran ==> W(delta) == 0)
    requires k.Exact? || k.Shifts? || k.Maybe?
    requires f == if ran then Repaired(w, k, r.rbp, r.rsp, W(r.rbp - r.oldfp), W(W(r.rbp + top) - r.rsp)) else w
    ensures f == At(x, base + delta) <==> Restorable(k, x, w, b, delta, top)
  {
    hide W, InFrame;
    if !ran {
      Unmoved(k, x, b, base, delta, top, w);
    } else {
      match k
      case Exact(bs, c) => ExactRestored(x.off, m.BaseOff(bs), base, delta, c);
      case Shifts => ShiftsRestoredIff(x, b, r, base, delta, w);
      case Maybe => MaybeRestoredIff(x, b, r, base, delta, top, w);
    }
  }

  /** A stack that came back to the same place (modulo 2^64) needs no repair. */
  lemma Unmoved(k: Kind, x: Sym, b: Bits, base: int, delta: int, top: int, w: int)
    requires x.Lin? && w == At(x, base) && W(delta) == 0
    ensures w == At(x, base + delta) && Restorable(k, x, w, b, delta, top)
  {
    AtMoved(x, base, delta);
    WrapZero(Coef(x), delta);
    MaybeArithmetic(w, Coef(x) * delta, delta);
  }

  lemma UntouchedIff(k: Kind, x: Sym, b: Bits, base: int, delta: int, top: int, w: int)
    requires x.Lin? && w == At(x, base) && !k.Exact? && !k.Shifts? && !k.Maybe?
    ensures w == At(x, base + delta) <==> Restorable(k, x, w, b, delta, top)
  {
    AtMoved(x, base, delta);
    MaybeArithmetic(w, Coef(x) * delta, delta);
  }

  lemma StillWord(x: Sym, base: int, delta: int)
    requires x.Lin? && Coef(x) == 0
    ensures At(x, base + delta) == At(x, base)
  {
  }

  // ----- one call -----

  /** What the runtime promises about the stack-map roots: a root is adjusted
      exactly when it holds a stack address. */
  ghost predicate RootsAdjusted(m: Ideal, b: Bits, roots: seq<bool>, ch: Choice)
    requires |m.slots| == |b.slots| == |roots|
  {
    forall k :: 0 <= k < |roots| && roots[k] && m.slots[k].Lin? ==>
      Coef(m.slots[k]) == if ch.lo <= b.slots[k] < ch.hi then 1 else 0
  }

  /** One call site in one run: the abstract state after the call's transfer,
      both machines before it, and what is live after it. */
  datatype CallSite = CallSite(s: AState, m: Ideal, b: Bits, base: int, live: set<Loc>, fi: FrameInfo, i: Instr,
    ch: Choice) {
    ghost predicate Shaped() {
      && i.Call? && m.Valid(|fi.roots|) && b.Valid(|fi.roots|) && s.Valid(|fi.roots|) && ValidInstr(i, |fi.roots|)
      && |ch.syms| > |i.results| && |ch.junk| == GPRS
      && (forall n :: 0 <= n < GPRS ==> s.units[n].alias < |fi.roots|)
    }

    ghost function After(): (t: Ideal)
      requires Shaped()
      ensures t.Valid(|fi.roots|)
    {
      IdealCall(m, i, ch)
    }

    ghost predicate Sane()
      requires Shaped()
    {
      && Sound(s, After()) && Correct(m, b, base, LiveBefore(i, live), fi.roots)
      && RootsAdjusted(m, b, fi.roots, ch)
      && (forall n :: 0 <= n < GPRS && n in i.results ==> s.units[n] == Of(Plain))
      && (forall n :: 0 <= n < GPRS && n !in CSRS ==> n in i.clobbers || n in i.results)
    }
  }

  /** The state before the guarded part of the repair: RBP and RSP moved, roots
      adjusted, exact copies reloaded, everything else as before the call. */
  ghost predicate Landed(c: CallSite, save: bool, r: Bits)
    requires c.Shaped() && r.Valid(|c.fi.roots|)
  {
    && BasesMoved(c.b, r, c.ch.delta) && (save ==> r.oldfp == c.b.rbp)
    && (forall k :: 0 <= k < |c.fi.roots| ==>
      r.slots[k] == if c.fi.roots[k] then AdjustPointer(c.b.slots[k], c.ch) else c.b.slots[k])
    && forall n :: 0 <= n < GPRS ==>
      if n in CSRS && NeedsReload(c.s, c.live, c.fi, n) then r.regs[n] == r.slots[Read(c.s, Gpr(n)).alias]
      else if n in c.i.results then Agrees(c.After().regs[n], r.regs[n], c.base + c.ch.delta)
      else n in c.i.clobbers || r.regs[n] == c.b.regs[n]
  }

  /** The state after the whole repair; `ran` is whether the guarded part ran. */
  ghost predicate Finished(c: CallSite, save: bool, r: Bits, f: Bits, ran: bool)
    requires c.Shaped() && r.Valid(|c.fi.roots|) && f.Valid(|c.fi.roots|)
  {
    && (!ran ==> save && r.oldfp == r.rbp)
    && f.rbp == r.rbp && f.rsp == r.rsp && OthersKept(c.i, c.live, r, f)
    && (forall n :: 0 <= n < GPRS && n in CSRS ==>
      (save || !NeedsFix(c.s, c.live, c.fi, n) || c.s.units[n].kind.Exact?)
      && f.regs[n] == if ran then FixedReg(c.s, c.live, c.fi, r, n) else r.regs[n])
    && forall k :: 0 <= k < |c.fi.roots| ==>
      (save || !SlotNeedsFix(c.s, c.live, c.fi, k) || c.s.slots[k].kind.Exact?)
      && f.slots[k] == if ran then FixedSlot(c.s, c.live, c.fi, r, k) else r.slots[k]
  }

  ghost predicate Repairs(c: CallSite, save: bool, r: Bits, f: Bits, ran: bool)
    requires c.Shaped() && r.Valid(|c.fi.roots|) && f.Valid(|c.fi.roots|)
  {
    Landed(c, save, r) && Finished(c, save, r, f, ran)
  }

  lemma SkippedMeansUnmoved(c: CallSite, save: bool, r: Bits)
    requires c.Shaped() && r.Valid(|c.fi.roots|) && Landed(c, save, r) && save && r.oldfp == r.rbp
      && 0 <= c.b.rbp < WORDS
    ensures W(c.ch.delta) == 0
  {
    WrapCancel(c.b.rbp, c.ch.delta, 0);
  }

  lemma SurvivorKept(c: CallSite, n: nat)
    requires c.Shaped() && c.Sane() && n < GPRS && n !in c.i.results && n !in c.i.clobbers
    ensures c.After().regs[n] == c.m.regs[n] && Holds(c.s.units[n], c.m.regs[n], c.After())
    ensures R(n) in c.live && c.m.regs[n].Lin? ==> c.b.regs[n] == At(c.m.regs[n], c.base)
    ensures c.m.regs[n].Lin? && Coef(c.m.regs[n]) == 0 ==> c.b.regs[n] == At(c.m.regs[n], c.base)
    ensures c.After().slots == c.m.slots && BasesCorrect(c.m, c.b, c.base)
    ensures c.After().rbp == c.m.rbp && c.After().rsp == c.m.rsp
  {
    CallEffect(c.m, c.b, c.fi.roots, c.i, c.ch, c.base + c.ch.delta);
    assert Holds(ValAt(c.s, R(n)), SymAt(c.After(), R(n)), c.After());
    if R(n) in c.live || (c.m.regs[n].Lin? && Coef(c.m.regs[n]) == 0) {
      assert Matters(c.m, R(n), LiveBefore(c.i, c.live), c.fi.roots) && CorrectAt(c.m, c.b, c.base, R(n));
    }
  }

  /** The runtime's adjustment puts a root where it belongs. */
  lemma RootAdjusted(x: Sym, w: int, base: int, ch: Choice)
    requires x.Lin? && w == At(x, base) && Coef(x) == if ch.lo <= w < ch.hi then 1 else 0
    ensures AdjustPointer(w, ch) == At(x, base + ch.delta)
  {
    hide W, At;
    AtMoved(x, base, ch.delta);
    AtWrapped(x, base);
  }

  lemma SlotKept(c: CallSite, k: nat)
    requires c.Shaped() && c.Sane() && k < |c.fi.roots|
    ensures c.After().slots == c.m.slots && Holds(c.s.slots[k], c.m.slots[k], c.After())
      && BasesCorrect(c.m, c.b, c.base)
    ensures c.After().rbp == c.m.rbp && c.After().rsp == c.m.rsp
    ensures (S(k) in c.live || c.fi.roots[k] || (c.m.slots[k].Lin? && Coef(c.m.slots[k]) == 0)) && c.m.slots[k].Lin? ==>
      c.b.slots[k] == At(c.m.slots[k], c.base)
    ensures c.fi.roots[k] && c.m.slots[k].Lin? ==>
      AdjustPointer(c.b.slots[k], c.ch) == At(c.m.slots[k], c.base + c.ch.delta)
  {
    hide W, At, AdjustPointer, BasesCorrect;
    CallEffect(c.m, c.b, c.fi.roots, c.i, c.ch, c.base + c.ch.delta);
    assert Holds(ValAt(c.s, S(k)), SymAt(c.After(), S(k)), c.After());
    if Matters(c.m, S(k), LiveBefore(c.i, c.live), c.fi.roots) { assert CorrectAt(c.m, c.b, c.base, S(k)); }
    if c.fi.roots[k] && c.m.slots[k].Lin? { RootAdjusted(c.m.slots[k], c.b.slots[k], c.base, c.ch); }
  }

  /** A register that survives the call live, is not reserved and is not read
      back from a plain spill slot. */
  ghost predicate Survives(c: CallSite, n: nat)
    requires c.Shaped() && n < GPRS
  {
    n in CSRS && R(n) in c.live && n !in c.i.results && n !in c.i.clobbers && n !in c.fi.reserved && c.m.regs[n].Lin?
  }

  ghost predicate RegisterOwed(c: CallSite, n: nat)
    requires c.Shaped() && n < GPRS
  {
    || AliasesRoot(c.s.units[n], c.fi.roots)
    || Restorable(c.s.units[n].kind, c.m.regs[n], c.b.regs[n], c.b, c.ch.delta, c.fi.top)
  }

  predicate FromSpill(v: Val, roots: seq<bool>) { v.alias >= 0 && !AliasesRoot(v, roots) && !v.Repairable() }

  /** An exact copy of a root always comes back right, any other surviving
      register exactly when `Restorable` says so. */
  lemma RegisterRestoredIff(c: CallSite, save: bool, r: Bits, f: Bits, ran: bool, n: nat)
    requires c.Shaped() && c.Sane() && r.Valid(|c.fi.roots|) && f.Valid(|c.fi.roots|) && Repairs(c, save, r, f, ran)
    requires n < GPRS && Survives(c, n) && !FromSpill(c.s.units[n], c.fi.roots)
    ensures f.regs[n] == At(c.m.regs[n], c.base + c.ch.delta) <==> RegisterOwed(c, n)
  {
    hide Sound, Correct, W, At, CallSite.After, Restorable, RootsAdjusted, AdjustPointer, Repaired;
    var x, v, w := c.m.regs[n], c.s.units[n], c.b.regs[n];
    SurvivorKept(c, n);
    if AliasesRoot(v, c.fi.roots) {
      SlotKept(c, v.alias);
    } else if v.Repairable() {
      if !ran { SkippedMeansUnmoved(c, save, r); }
      WordRestoredIff(v.kind, x, c.m, c.b, r, c.base, c.ch.delta, c.fi.top, w, ran, f.regs[n]);
    } else {
      UntouchedIff(v.kind, x, c.b, c.base, c.ch.delta, c.fi.top, w);
    }
  }

  /** A word the repair cannot rebase, read back from the spill slot it copies. */
  lemma SpillReadBack(c: CallSite, save: bool, r: Bits, f: Bits, ran: bool, n: nat)
    requires c.Shaped() && c.Sane() && r.Valid(|c.fi.roots|) && f.Valid(|c.fi.roots|) && Repairs(c, save, r, f, ran)
    requires n < GPRS && Survives(c, n) && FromSpill(c.s.units[n], c.fi.roots) && Coef(c.m.regs[n]) == 0
    ensures f.regs[n] == At(c.m.regs[n], c.base + c.ch.delta)
  {
    SurvivorKept(c, n);
    SlotKept(c, c.s.units[n].alias);
    StillWord(c.m.regs[n], c.base, c.ch.delta);
  }

  /** A live spill slot the runtime does not adjust. */
  lemma SlotRestoredIff(c: CallSite, save: bool, r: Bits, f: Bits, ran: bool, k: nat)
    requires c.Shaped() && c.Sane() && r.Valid(|c.fi.roots|) && f.Valid(|c.fi.roots|) && Repairs(c, save, r, f, ran)
    requires k < |c.fi.roots| && !c.fi.roots[k] && S(k) in c.live && c.m.slots[k].Lin?
    ensures f.slots[k] == At(c.m.slots[k], c.base + c.ch.delta)
      <==> Restorable(c.s.slots[k].kind, c.m.slots[k], c.b.slots[k], c.b, c.ch.delta, c.fi.top)
  {
    hide Sound, Correct, W, At, CallSite.After, Restorable, RootsAdjusted, AdjustPointer, Repaired;
    var x, v, w := c.m.slots[k], c.s.slots[k], c.b.slots[k];
    SlotKept(c, k);
    if v.Repairable() {
      if !ran { SkippedMeansUnmoved(c, save, r); }
      WordRestoredIff(v.kind, x, c.m, c.b, r, c.base, c.ch.delta, c.fi.top, w, ran, f.slots[k]);
    } else {
      UntouchedIff(v.kind, x, c.b, c.base, c.ch.delta, c.fi.top, w);
    }
  }

  /** What the rest of the compiler owes the pass about one word that is neither
      a root nor a copy of one: no stack address from outside this frame is in
      it, and a word that is an address of this frame on some paths only lies in
      the frame exactly when it is one. */
  ghost predicate WordOwed(k: Kind, x: Sym, w: int, b: Bits, top: int) {
    x.Lin? ==> x.foreign == 0 && (k.Maybe? ==> (x.own == 1 <==> InFrame(w, b, top)))
  }

  /** The same for one call: every surviving live register and spill slot, and
      the reserved registers, which hold no stack address at all. */
  ghost predicate Owed(c: CallSite)
    requires c.Shaped()
  {
    && (forall n :: 0 <= n < GPRS && Survives(c, n) && !AliasesRoot(c.s.units[n], c.fi.roots) ==>
      WordOwed(c.s.units[n].kind, c.m.regs[n], c.b.regs[n], c.b, c.fi.top))
    && (forall n :: 0 <= n < GPRS && n in CSRS && n in c.fi.reserved && R(n) in c.live && n !in c.i.clobbers ==>
      c.m.regs[n].Lin? ==> Coef(c.m.regs[n]) == 0)
    && (forall k :: 0 <= k < |c.fi.roots| && !c.fi.roots[k] && S(k) in c.live ==>
      WordOwed(c.s.slots[k].kind, c.m.slots[k], c.b.slots[k], c.b, c.fi.top))
  }

  /** What the analysis claims of a word and what is owed about it make it one
      the repair restores. */
  lemma OwedIsRestorable(k: Kind, x: Sym, m: Ideal, w: int, b: Bits, delta: int, top: int)
    requires KindHolds(k, x, m) && !k.Tainted? && WordOwed(k, x, w, b, top)
    ensures Restorable(k, x, w, b, delta, top)
    ensures (k.Plain? || k.Unset?) && x.Lin? ==> Coef(x) == 0
  {
    hide InFrame;
  }

  lemma SlotCorrect(c: CallSite, save: bool, r: Bits, f: Bits, ran: bool, k: nat)
    requires c.Shaped() && c.Sane() && r.Valid(|c.fi.roots|) && f.Valid(|c.fi.roots|) && Repairs(c, save, r, f, ran)
    requires Owed(c) && !Reported(c.s, c.live, c.fi) && k < |c.fi.roots| && c.m.slots[k].Lin?
    requires S(k) in c.live || c.fi.roots[k] || Coef(c.m.slots[k]) == 0
    ensures f.slots[k] == At(c.m.slots[k], c.base + c.ch.delta)
  {
    SlotKept(c, k);
    if !c.fi.roots[k] && S(k) in c.live {
      assert !ReportedSlot(c.s, c.live, c.fi, k);
      OwedIsRestorable(c.s.slots[k].kind, c.m.slots[k], c.After(), c.b.slots[k], c.b, c.ch.delta, c.fi.top);
      SlotRestoredIff(c, save, r, f, ran, k);
    } else if !c.fi.roots[k] {
      StillWord(c.m.slots[k], c.base, c.ch.delta);
    }
  }

  lemma RegisterCorrect(c: CallSite, save: bool, r: Bits, f: Bits, ran: bool, n: nat)
    requires c.Shaped() && c.Sane() && r.Valid(|c.fi.roots|) && f.Valid(|c.fi.roots|) && Repairs(c, save, r, f, ran)
    requires Owed(c) && !Reported(c.s, c.live, c.fi) && n < GPRS && c.After().regs[n].Lin?
    requires R(n) in c.live || Coef(c.After().regs[n]) == 0
    ensures f.regs[n] == At(c.After().regs[n], c.base + c.ch.delta)
  {
    hide Sound, Correct, W, Restorable, IdealCall, Repairs, Owed, RootsAdjusted;
    if n in c.i.results {
      ResultCorrect(c, save, r, f, ran, n);
    } else if n in CSRS {
      CalleeSavedCorrect(c, save, r, f, ran, n);
    } else {
      ClobberedIsUndef(c, n);
    }
  }

  lemma ClobberedIsUndef(c: CallSite, n: nat)
    requires c.Shaped() && n < GPRS && n in c.i.clobbers && n !in c.i.results
    ensures c.After().regs[n] == Undef
  {
    CallEffect(c.m, c.b, c.fi.roots, c.i, c.ch, c.base + c.ch.delta);
  }

  lemma ResultCorrect(c: CallSite, save: bool, r: Bits, f: Bits, ran: bool, n: nat)
    requires c.Shaped() && c.Sane() && r.Valid(|c.fi.roots|) && f.Valid(|c.fi.roots|) && Repairs(c, save, r, f, ran)
    requires n < GPRS && c.After().regs[n].Lin? && n in c.i.results && (R(n) in c.live || Coef(c.After().regs[n]) == 0)
    ensures f.regs[n] == At(c.After().regs[n], c.base + c.ch.delta)
  {
    hide Sound, Correct, W, IdealCall, RootsAdjusted;
  }

  lemma CalleeSavedCorrect(c: CallSite, save: bool, r: Bits, f: Bits, ran: bool, n: nat)
    requires c.Shaped() && c.Sane() && r.Valid(|c.fi.roots|) && f.Valid(|c.fi.roots|) && Repairs(c, save, r, f, ran)
    requires Owed(c) && !Reported(c.s, c.live, c.fi) && n < GPRS && c.After().regs[n].Lin? && n !in c.i.results
      && n in CSRS
    requires R(n) in c.live || Coef(c.After().regs[n]) == 0
    ensures f.regs[n] == At(c.After().regs[n], c.base + c.ch.delta)
  {
    hide Sound, Correct, W, Restorable;
    CallEffect(c.m, c.b, c.fi.roots, c.i, c.ch, c.base + c.ch.delta);
    if n !in c.fi.reserved && R(n) in c.live {
      SurvivorKept(c, n);
      if !AliasesRoot(c.s.units[n], c.fi.roots) {
        assert !ReportedReg(c.s, c.live, c.fi, n);
        OwedIsRestorable(c.s.units[n].kind, c.m.regs[n], c.After(), c.b.regs[n], c.b, c.ch.delta, c.fi.top);
      }
      if FromSpill(c.s.units[n], c.fi.roots) { SpillReadBack(c, save, r, f, ran, n); }
      else { RegisterRestoredIff(c, save, r, f, ran, n); }
    } else {
      SurvivorKept(c, n);
      StillWord(c.m.regs[n], c.base, c.ch.delta);
    }
  }

  lemma LocationCorrect(c: CallSite, save: bool, r: Bits, f: Bits, ran: bool, l: Loc)
    requires c.Shaped() && c.Sane() && r.Valid(|c.fi.roots|) && f.Valid(|c.fi.roots|) && Repairs(c, save, r, f, ran)
    requires Owed(c) && !Reported(c.s, c.live, c.fi) && InRange(l, |c.fi.roots|)
      && Matters(c.After(), l, c.live, c.fi.roots)
    ensures CorrectAt(c.After(), f, c.base + c.ch.delta, l)
  {
    if SymAt(c.After(), l).Lin? {
      match l
      case R(n) => RegisterCorrect(c, save, r, f, ran, n);
      case S(k) =>
        SlotKept(c, k);
        SlotCorrect(c, save, r, f, ran, k);
    }
  }

  lemma AfterBases(c: CallSite)
    requires c.Shaped()
    ensures c.After().rbp == c.m.rbp && c.After().rsp == c.m.rsp
  {
    CallEffect(c.m, c.b, c.fi.roots, c.i, c.ch, c.base + c.ch.delta);
  }

  lemma BasesLand(c: CallSite, save: bool, r: Bits, f: Bits, ran: bool)
    requires c.Shaped() && c.Sane() && r.Valid(|c.fi.roots|) && f.Valid(|c.fi.roots|) && Repairs(c, save, r, f, ran)
    ensures BasesCorrect(c.After(), f, c.base + c.ch.delta)
  {
    hide Sound, W, CallSite.After, RootsAdjusted, OthersKept, FixedReg, FixedSlot, NeedsReload, NeedsFix, SlotNeedsFix;
    AfterBases(c);
    WrapAdd(c.base + c.m.rbp, c.ch.delta);
    WrapAdd(c.base + c.m.rsp, c.ch.delta);
  }

  /** The repair restores agreement on everything that matters after the call. */
  lemma RepairKeepsCorrect(c: CallSite, save: bool, r: Bits, f: Bits, ran: bool)
    requires c.Shaped() && c.Sane() && r.Valid(|c.fi.roots|) && f.Valid(|c.fi.roots|) && Repairs(c, save, r, f, ran)
    requires Owed(c) && !Reported(c.s, c.live, c.fi)
    ensures Correct(c.After(), f, c.base + c.ch.delta, c.live, c.fi.roots)
  {
    BasesLand(c, save, r, f, ran);
    forall l | InRange(l, |c.fi.roots|) && Matters(c.After(), l, c.live, c.fi.roots)
      ensures CorrectAt(c.After(), f, c.base + c.ch.delta, l)
    {
      LocationCorrect(c, save, r, f, ran, l);
    }
  }

  // ----- the emitted repair is such a repair -----

  lemma PlanShape(s: AState, i: Instr, live: set<Loc>, fi: FrameInfo, p: Plan)
    requires |s.units| == GPRS && |s.slots| == |fi.roots| && i.Call? && PlanFor(s, i, live, fi) == Ok(p)
    ensures p.reloads == Reloads(s, live, fi, CSRS)
    ensures !p.save ==> forall n :: 0 <= n < GPRS && n in CSRS && NeedsFix(s, live, fi, n) ==> s.units[n].kind.Exact?
    ensures !p.save ==> forall k :: 0 <= k < |fi.roots| && SlotNeedsFix(s, live, fi, k) ==> s.slots[k].kind.Exact?
  {
    var regs, slots := RegFixes(s, live, fi, CSRS), SlotFixes(s, live, fi, |s.slots|);
    RegFixesListed(s, live, fi, CSRS);
    SlotFixesListed(s, live, fi, |s.slots|);
    if regs == [] && slots == [] {
      NothingListed(s, live, fi, CSRS, regs, slots);
    } else {
      forall n | 0 <= n < GPRS && n in CSRS && NeedsFix(s, live, fi, n)
        ensures p.save || s.units[n].kind.Exact?
      {
        KindsNeed(regs, n);
      }
      forall k | 0 <= k < |fi.roots| && SlotNeedsFix(s, live, fi, k)
        ensures p.save || s.slots[k].kind.Exact?
      {
        KindsNeed(slots, k);
      }
    }
  }

  lemma ReloadsLand(c: CallSite, save: bool, b: Bits, r: Bits)
    requires c.Shaped() && b.Valid(|c.fi.roots|)
    requires Called(c.m, c.After(), if save then c.b.(oldfp := c.b.rbp)
      else c.b, b, c.fi.roots, c.i, c.ch, c.base + c.ch.delta)
    requires r == b.(regs := r.regs) && |r.regs| == GPRS
    requires forall n :: 0 <= n < GPRS ==>
      r.regs[n] == if n in CSRS && NeedsReload(c.s, c.live, c.fi, n) then b.slots[Read(c.s, Gpr(n)).alias]
        else b.regs[n]
    ensures Landed(c, save, r)
  {
  }

  lemma Assemble(c: CallSite, p: Plan, b: Bits, r: Bits)
    requires c.Shaped() && b.Valid(|c.fi.roots|) && r.Valid(|c.fi.roots|)
    requires ValidFixes(p.reloads, |c.fi.roots|) && ValidFixes(p.body, |c.fi.roots|)
    requires b == BitCall(if p.save then c.b.(oldfp := c.b.rbp) else c.b, c.fi.roots, c.i, c.ch, c.base + c.ch.delta)
    requires r == Run(b, false, p.reloads).0 && Landed(c, p.save, r)
    requires var f := Run(r, false, p.body).0; BodyDone(c.s, c.live, c.fi, r, f) && OthersKept(c.i, c.live, r, f)
    requires !p.save ==> forall n :: 0 <= n < GPRS && n in CSRS && NeedsFix(c.s, c.live, c.fi, n) ==>
      c.s.units[n].kind.Exact?
    requires !p.save ==> forall k :: 0 <= k < |c.fi.roots| && SlotNeedsFix(c.s, c.live, c.fi, k) ==>
      c.s.slots[k].kind.Exact?
    ensures Repairs(c, p.save, r, AfterCall(c.b, c.fi, c.i, c.ch, c.base + c.ch.delta, p),
      !(p.save && r.oldfp == r.rbp))
  {
  }

  /** Running the emitted code after the call is a repair in the above sense. */
  lemma PlanRepairs(c: CallSite, p: Plan) returns (r: Bits, ran: bool)
    requires c.Shaped() && PlanFor(c.s, c.i, c.live, c.fi) == Ok(p)
    ensures ValidFixes(p.reloads, |c.fi.roots|) && ValidFixes(p.body, |c.fi.roots|) && r.Valid(|c.fi.roots|)
    ensures Repairs(c, p.save, r, AfterCall(c.b, c.fi, c.i, c.ch, c.base + c.ch.delta, p), ran)
  {
    PlanShape(c.s, c.i, c.live, c.fi, p);
    var b;
    b, r := PlanLands(c, p.save);
    BodyEffect(c.s, c.i, c.live, c.fi, r, p);
    Assemble(c, p, b, r);
    ran := !(p.save && r.oldfp == r.rbp);
  }

  lemma PlanLands(c: CallSite, save: bool) returns (b: Bits, r: Bits)
    requires c.Shaped()
    ensures b.Valid(|c.fi.roots|) && r.Valid(|c.fi.roots|) && ValidFixes(Reloads(c.s, c.live, c.fi, CSRS), |c.fi.roots|)
    ensures b == BitCall(if save then c.b.(oldfp := c.b.rbp) else c.b, c.fi.roots, c.i, c.ch, c.base + c.ch.delta)
    ensures r == Run(b, false, Reloads(c.s, c.live, c.fi, CSRS)).0 && Landed(c, save, r)
  {
    hide W, IdealCall, BitCall, NeedsReload, Run;
    var b1 := if save then c.b.(oldfp := c.b.rbp) else c.b;
    b := BitCall(b1, c.fi.roots, c.i, c.ch, c.base + c.ch.delta);
    CallEffect(c.m, b1, c.fi.roots, c.i, c.ch, c.base + c.ch.delta);
    ReloadsEffect(c.s, c.live, c.fi, CSRS, b, false);
    r := Run(b, false, Reloads(c.s, c.live, c.fi, CSRS)).0;
    ReloadsLand(c, save, b, r);
  }
}
