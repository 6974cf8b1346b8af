/** A call, the stack copy inside it and the repair after it: exactly which
    surviving words come back as the words the program meant. */
module FrameCall {
  import opened Options
  import opened FrameLattice
  import opened FrameTransfer
  import opened FrameMachine
  import opened FrameRepair

  // ----- 64-bit arithmetic -----

  lemma WrapAdd(x: int, y: int)
    ensures W(W(x) + y) == W(x + y) && W(x + W(y)) == W(x + y) && W(W(x) - y) == W(x - y) && W(x - W(y)) == W(x - y)
  {
    WrapLinear(x, 1, y, 0);
    WrapLinear(x, -1, y, 0);
    WrapLinear(y, 1, x, 0);
    WrapLinear(-y, 1, x, 0);
  }

  lemma WrapCancel(w: int, a: int, b: int)
    ensures W(w + a) == W(w + b) <==> W(a) == W(b)
  {
    WrapAdd(w, a);
    WrapAdd(w, b);
    if W(w + a) == W(w + b) {
      var k := (w + a) / WORDS - (w + b) / WORDS;
      assert a == b + k * WORDS;
      WrapShift(b, k);
    }
  }

  lemma WrapZero(c: int, d: int)
    requires W(d) == 0
    ensures W(c * d) == 0
  {
    var k := d / WORDS;
    assert c * (k * WORDS) == (c * k) * WORDS;
    WrapShift(0, c * k);
  }

  /** A word of the frame: [RSP, RBP + top), as the emitted range check tests it. */
  predicate InFrame(w: int, b: Bits, top: int) { W(w - b.rsp) < W(b.rbp + top - b.rsp) }

  // ----- the call and its repair in the bit machine -----

  function AfterCall(b: Bits, fi: FrameInfo, i: Instr, ch: Choice, base: int, p: Plan): (t: Bits)
    requires |b.regs| == GPRS && i.Call? && ValidInstr(i, |b.slots|) && |fi.roots| == |b.slots|
    requires |ch.syms| > |i.results| && |ch.junk| == GPRS
    requires ValidFixes(p.reloads, |b.slots|) && ValidFixes(p.body, |b.slots|)
    ensures t.Valid(|b.slots|)
  {
    var b1 := if p.save then b.(oldfp := b.rbp) else b;
    var b2 := Run(BitCall(b1, fi.roots, i, ch, base), false, p.reloads).0;
    if p.save && b2.oldfp == b2.rbp then b2 else Run(b2, false, p.body).0
  }

  lemma {:induction false} WritesPointwise(m: Ideal, b: Bits, rs: seq<Reg>, xs: seq<Sym>, f: nat -> int, base: int)
    requires |m.regs| == GPRS == |b.regs| && ValidRegs(rs) && |xs| >= |rs|
    requires forall k :: 0 <= k < |rs| ==> rs[k].Gpr? && Agrees(xs[k], f(k), base)
    ensures var m', b' := IdealWrites(m, rs, xs), BitWrites(b, rs, f);
      m' == m.(regs := m'.regs) && b' == b.(regs := b'.regs)
      && forall n :: 0 <= n < GPRS ==>
        if Gpr(n) in rs then Agrees(m'.regs[n], b'.regs[n], base)
          else m'.regs[n] == m.regs[n] && b'.regs[n] == b.regs[n]
  {
    if rs != [] {
      var k := |rs| - 1;
      WritesPointwise(m, b, rs[..k], xs, f, base);
      assert forall r :: r in rs <==> r in rs[..k] || r == rs[k];
    }
  }

  /** What a call does to each word before any repair. */
  ghost predicate Called(m: Ideal, m': Ideal, b: Bits, b': Bits, roots: seq<bool>, i: Instr, ch: Choice, base: int)
    requires |m.regs| == |m'.regs| == |b.regs| == |b'.regs| == GPRS && i.Call?
    requires |m.slots| == |m'.slots| == |b.slots| == |b'.slots| == |roots|
  {
    && m'.slots == m.slots && m'.rbp == m.rbp && m'.rsp == m.rsp && b'.oldfp == b.oldfp
    && b'.rbp == W(b.rbp + ch.delta) && b'.rsp == W(b.rsp + ch.delta)
    && (forall n :: 0 <= n < GPRS ==>
      if n in i.results then Agrees(m'.regs[n], b'.regs[n], base)
      else if n in i.clobbers then m'.regs[n] == Undef
      else m'.regs[n] == m.regs[n] && b'.regs[n] == b.regs[n])
    && forall k :: 0 <= k < |roots| ==> b'.slots[k] == if roots[k] then AdjustPointer(b.slots[k], ch) else b.slots[k]
  }

  lemma CallEffect(m: Ideal, b: Bits, roots: seq<bool>, i: Instr, ch: Choice, base: int)
    requires m.Valid(|roots|) && b.Valid(|roots|) && i.Call? && ValidInstr(i, |roots|)
    requires |ch.syms| > |i.results| && |ch.junk| == GPRS
    ensures Called(m, IdealCall(m, i, ch), b, BitCall(b, roots, i, ch, base), roots, i, ch, base)
  {
    var rs := seq(|i.results|, k requires 0 <= k < |i.results| => Gpr(i.results[k]));
    var f := (k: nat) => if 0 <= k < |ch.syms| && ch.syms[k].Lin? then At(ch.syms[k], base) else 0;
    var m1 := m.(regs := seq(GPRS, n requires 0 <= n < GPRS => if n in i.clobbers then Undef else m.regs[n]));
    var b1 := Bits(
      seq(GPRS, n requires 0 <= n < GPRS => if n in i.clobbers then ch.junk[n] else b.regs[n]),
      seq(|b.slots|, k requires 0 <= k < |b.slots| => if roots[k] then AdjustPointer(b.slots[k], ch) else b.slots[k]),
      W(b.rbp + ch.delta), W(b.rsp + ch.delta), b.oldfp);
    assert forall k :: 0 <= k < |rs| ==> Agrees(ch.syms[k], f(k), base);
    WritesPointwise(m1, b1, rs, ch.syms, f, base);
    forall n | 0 <= n < GPRS
      ensures Gpr(n) in rs <==> n in i.results
    {
      if n in i.results {
        var k :| 0 <= k < |i.results| && i.results[k] == n;
        assert rs[k] == Gpr(n);
      }
    }
    assert BitCall(b, roots, i, ch, base) == BitWrites(b1, rs, f) by {
      BitWritesExt(b1, rs, f, k => if 0 <= k < |ch.syms| && ch.syms[k].Lin? then At(ch.syms[k], base) else 0);
    }
  }

  lemma {:induction false} BitWritesExt(b: Bits, rs: seq<Reg>, f: nat -> int, g: nat -> int)
    requires |b.regs| == GPRS && ValidRegs(rs) && forall k :: 0 <= k < |rs| ==> f(k) == g(k)
    ensures BitWrites(b, rs, f) == BitWrites(b, rs, g)
  {
    if rs != [] { BitWritesExt(b, rs[..|rs| - 1], f, g); }
  }

  // ----- the lists the repair is built from -----

  ghost predicate RegsListed(s: AState, live: set<Loc>, fi: FrameInfo, rs: seq<nat>, fs: seq<(nat, Kind)>)
    requires |s.units| == GPRS
  {
    && (forall k :: 0 <= k < |fs| ==> fs[k].0 in rs)
    && forall n :: 0 <= n < GPRS ==>
      KindOf(fs, n) == if n in rs && NeedsFix(s, live, fi, n) then Some(s.units[n].kind) else None
  }

  ghost predicate SlotsListed(s: AState, live: set<Loc>, fi: FrameInfo, n: nat, fs: seq<(nat, Kind)>)
    requires |s.slots| == |fi.roots|
  {
    && (forall k :: 0 <= k < |fs| ==> fs[k].0 < n)
    && forall sl :: 0 <= sl < |s.slots| ==>
      KindOf(fs, sl) == if sl < n && SlotNeedsFix(s, live, fi, sl) then Some(s.slots[sl].kind) else None
  }

  lemma {:induction false} RegFixesListed(s: AState, live: set<Loc>, fi: FrameInfo, rs: seq<nat>)
    requires |s.units| == GPRS && (forall k :: 0 <= k < |rs| ==> rs[k] < GPRS)
    requires forall i, j :: 0 <= i < j < |rs| ==> rs[i] != rs[j]
    ensures FixedOnce(RegFixes(s, live, fi, rs)) && RegsListed(s, live, fi, rs, RegFixes(s, live, fi, rs))
  {
    if rs != [] {
      hide NeedsFix, FixedOnce, RegsListed;
      var k := |rs| - 1;
      RegFixesListed(s, live, fi, rs[..k]);
      assert rs == rs[..k] + [rs[k]] && rs[k] !in rs[..k];
      RegListedStep(s, live, fi, rs[..k], rs[k], RegFixes(s, live, fi, rs[..k]));
    }
  }

  lemma RegListedStep(s: AState, live: set<Loc>, fi: FrameInfo, rs: seq<nat>, r: nat, fs: seq<(nat, Kind)>)
    requires |s.units| == GPRS && r < GPRS && r !in rs && FixedOnce(fs) && RegsListed(s, live, fi, rs, fs)
    ensures var gs := fs + if NeedsFix(s, live, fi, r) then [(r, s.units[r].kind)] else [];
      FixedOnce(gs) && RegsListed(s, live, fi, rs + [r], gs)
  {
    hide NeedsFix, FixedOnce, KindOf;
    assert forall n :: n in rs + [r] <==> n in rs || n == r;
    if NeedsFix(s, live, fi, r) {
      ListedAppend(fs, (r, s.units[r].kind));
    } else {
      assert fs + [] == fs;
    }
  }

  lemma ListedAppend(fs: seq<(nat, Kind)>, f: (nat, Kind))
    requires FixedOnce(fs) && KindOf(fs, f.0).None?
    ensures FixedOnce(fs + [f])
    ensures forall n :: KindOf(fs + [f], n) == if n == f.0 then Some(f.1) else KindOf(fs, n)
  {
    var gs := fs + [f];
    assert gs[..|fs|] == fs;
  }

  lemma {:induction false} SlotFixesListed(s: AState, live: set<Loc>, fi: FrameInfo, n: nat)
    requires n <= |s.slots| == |fi.roots|
    ensures FixedOnce(SlotFixes(s, live, fi, n)) && SlotsListed(s, live, fi, n, SlotFixes(s, live, fi, n))
  {
    hide SlotNeedsFix, FixedOnce, KindOf, SlotFixes, SlotsListed;
    if n == 0 {
      NoSlotFixes(s, live, fi);
    } else {
      SlotFixesListed(s, live, fi, n - 1);
      SlotFixesStep(s, live, fi, n);
      SlotListedStep(s, live, fi, n - 1, SlotFixes(s, live, fi, n - 1));
    }
  }

  lemma NoSlotFixes(s: AState, live: set<Loc>, fi: FrameInfo)
    requires |s.slots| == |fi.roots|
    ensures FixedOnce(SlotFixes(s, live, fi, 0)) && SlotsListed(s, live, fi, 0, SlotFixes(s, live, fi, 0))
  {
  }

  lemma SlotListedStep(s: AState, live: set<Loc>, fi: FrameInfo, n: nat, fs: seq<(nat, Kind)>)
    requires n < |s.slots| == |fi.roots| && FixedOnce(fs) && SlotsListed(s, live, fi, n, fs)
    ensures var gs := if SlotNeedsFix(s, live, fi, n) then fs + [(n, s.slots[n].kind)] else fs;
      FixedOnce(gs) && SlotsListed(s, live, fi, n + 1, gs)
  {
    hide SlotNeedsFix, FixedOnce, KindOf;
    if SlotNeedsFix(s, live, fi, n) { ListedAppend(fs, (n, s.slots[n].kind)); }
  }

  lemma SlotFixesStep(s: AState, live: set<Loc>, fi: FrameInfo, n: nat)
    requires 0 < n <= |s.slots| == |fi.roots|
    ensures var fs := SlotFixes(s, live, fi, n - 1);
      SlotFixes(s, live, fi, n) == if SlotNeedsFix(s, live, fi, n - 1) then fs + [(n - 1, s.slots[n - 1].kind)] else fs
  {
    hide SlotNeedsFix;
  }

  lemma {:induction false} KindsNeed(fs: seq<(nat, Kind)>, n: nat)
    ensures KindOf(fs, n).Some? && !KindOf(fs, n).value.Exact? ==> AnyInexact(fs)
    ensures KindOf(fs, n).Some? && KindOf(fs, n).value.Maybe? ==> AnyMaybe(fs)
  {
    if fs != [] {
      var k := |fs| - 1;
      KindsNeed(fs[..k], n);
      assert fs == fs[..k] + [fs[k]];
      AnyAppend(fs[..k], fs[k]);
    }
  }

  ghost predicate Usable(i: Instr, live: set<Loc>, rs: seq<nat>, fs: seq<nat>)
    requires i.Call?
  {
    && (forall k :: 0 <= k < |fs| ==> fs[k] in rs && fs[k] in i.clobbers && fs[k] !in i.results && R(fs[k]) !in live)
    && forall a, b :: 0 <= a < b < |fs| ==> fs[a] != fs[b]
  }

  lemma {:induction false} FreeRegsUsable(i: Instr, live: set<Loc>, rs: seq<nat>)
    requires i.Call? && forall a, b :: 0 <= a < b < |rs| ==> rs[a] != rs[b]
    ensures Usable(i, live, rs, FreeRegs(i, live, rs))
  {
    if rs != [] {
      var k := |rs| - 1;
      FreeRegsUsable(i, live, rs[..k]);
      var fs := FreeRegs(i, live, rs[..k]);
      assert forall n :: n in rs[..k] ==> n in rs;
      assert rs[k] !in rs[..k];
      var gs := FreeRegs(i, live, rs);
      assert gs == fs || gs == fs + [rs[k]];
    }
  }

  /** The five temporaries are dead registers the call clobbered. */
  lemma TempsUsable(i: Instr, live: set<Loc>)
    requires i.Call? && |FreeRegs(i, live, SCRATCH)| >= 5
    ensures var f := FreeRegs(i, live, SCRATCH); var t := Temps(f[0], f[1], f[2], f[3], f[4]);
      GoodTemps(t)
      && forall n :: IsTemp(t, n) ==> n !in CSRS && n in i.clobbers && n !in i.results && R(n) !in live
  {
    FreeRegsUsable(i, live, SCRATCH);
    var f := FreeRegs(i, live, SCRATCH);
    forall k | 0 <= k < |f|
      ensures f[k] < GPRS && f[k] !in CSRS
    {
      assert f[k] in SCRATCH;
    }
  }

  // ----- the word each location ends up with -----

  ghost predicate OthersKept(i: Instr, live: set<Loc>, b: Bits, c: Bits)
    requires |b.regs| == GPRS == |c.regs| && i.Call?
  {
    forall n :: 0 <= n < GPRS && n !in CSRS ==>
      c.regs[n] == b.regs[n] || (n in i.clobbers && n !in i.results && R(n) !in live)
  }

  /** The guarded part of the repair, location by location. */
  ghost predicate BodyDone(s: AState, live: set<Loc>, fi: FrameInfo, b: Bits, c: Bits)
    requires |s.units| == GPRS == |b.regs| == |c.regs| && |s.slots| == |fi.roots| == |b.slots| == |c.slots|
  {
    && c.rbp == b.rbp && c.rsp == b.rsp
    && (forall n :: 0 <= n < GPRS && n in CSRS ==> c.regs[n] == FixedReg(s, live, fi, b, n))
    && forall k :: 0 <= k < |b.slots| ==> c.slots[k] == FixedSlot(s, live, fi, b, k)
  }

  lemma BodyEffect(s: AState, i: Instr, live: set<Loc>, fi: FrameInfo, b: Bits, p: Plan)
    requires |s.units| == GPRS == |b.regs| && |s.slots| == |fi.roots| == |b.slots| && i.Call?
    requires PlanFor(s, i, live, fi) == Ok(p)
    ensures ValidFixes(p.body, |b.slots|)
    ensures BodyDone(s, live, fi, b, Run(b, false, p.body).0) && OthersKept(i, live, b, Run(b, false, p.body).0)
  {
    hide FreeRegs, Usable, Outside, FixedOnce, FixRegs, FixSlots, Preamble, RegsListed, SlotsListed, RegFixes,
      SlotFixes,
      BodyDone, OthersKept, Run;
    var regs, slots := RegFixes(s, live, fi, CSRS), SlotFixes(s, live, fi, |s.slots|);
    RegFixesListed(s, live, fi, CSRS);
    SlotFixesListed(s, live, fi, |s.slots|);
    if regs == [] && slots == [] {
      NothingDone(s, i, live, fi, b, regs, slots);
    } else {
      SlotsInRange(s, live, fi, slots);
      TempsUsable(i, live);
      var f := FreeRegs(i, live, SCRATCH);
      var t := Temps(f[0], f[1], f[2], f[3], f[4]);
      RegsOutside(s, live, fi, regs, t);
      var b1, b2, c := BodyStates(b, regs, slots, t, fi.top);
      BodyWords(s, i, live, fi, b, b1, b2, c, regs, slots, t);
      assert p.body == BodyCode(regs, slots, t, fi.top);
    }
  }

  lemma NothingDone(s: AState, i: Instr, live: set<Loc>, fi: FrameInfo, b: Bits, regs: seq<(nat, Kind)>,
      slots: seq<(nat, Kind)>)
    requires |s.units| == GPRS == |b.regs| && |s.slots| == |fi.roots| == |b.slots| && i.Call? && regs == []
      && slots == []
    requires RegsListed(s, live, fi, CSRS, regs) && SlotsListed(s, live, fi, |s.slots|, slots)
    ensures Run(b, false, []).0 == b && BodyDone(s, live, fi, b, b) && OthersKept(i, live, b, b)
  {
    NothingListed(s, live, fi, CSRS, regs, slots);
  }

  lemma SlotsInRange(s: AState, live: set<Loc>, fi: FrameInfo, slots: seq<(nat, Kind)>)
    requires |s.slots| == |fi.roots| && SlotsListed(s, live, fi, |s.slots|, slots)
    ensures forall k :: 0 <= k < |slots| ==> slots[k].0 < |s.slots|
  {
  }

  lemma RunThree(b: Bits, pre: seq<Fix>, mid: seq<Fix>, post: seq<Fix>) returns (b1: Bits, g1: bool, b2: Bits, g2: bool)
    requires |b.regs| == GPRS
    requires ValidFixes(pre, |b.slots|) && ValidFixes(mid, |b.slots|) && ValidFixes(post, |b.slots|)
    ensures b1.Valid(|b.slots|) && b2.Valid(|b.slots|) && ValidFixes(pre + mid + post, |b.slots|)
    ensures (b1, g1) == Run(b, false, pre) && (b2, g2) == Run(b1, g1, mid)
    ensures Run(b, false, pre + mid + post) == Run(b2, g2, post)
  {
    b1, g1 := Run(b, false, pre).0, Run(b, false, pre).1;
    b2, g2 := Run(b1, g1, mid).0, Run(b1, g1, mid).1;
    RunAppend(b, false, pre, mid);
    RunAppend(b, false, pre + mid, post);
  }

  function BodyCode(regs: seq<(nat, Kind)>, slots: seq<(nat, Kind)>, t: Temps, top: int): seq<Fix> {
    Preamble(AnyInexact(regs) || AnyInexact(slots), AnyMaybe(regs) || AnyMaybe(slots), t, top)
    + FixRegs(regs, t) + FixSlots(slots, t)
  }

  lemma BodyStates(b: Bits, regs: seq<(nat, Kind)>, slots: seq<(nat, Kind)>, t: Temps, top: int)
    returns (b1: Bits, b2: Bits, c: Bits)
    requires |b.regs| == GPRS && GoodTemps(t) && FixedOnce(regs) && FixedOnce(slots) && Outside(regs, t)
    requires forall k :: 0 <= k < |slots| ==> slots[k].0 < |b.slots|
    ensures b1.Valid(|b.slots|) && b2.Valid(|b.slots|) && c.Valid(|b.slots|)
    ensures ValidFixes(BodyCode(regs, slots, t, top), |b.slots|) && Run(b, false, BodyCode(regs, slots, t, top)).0 == c
    ensures Prepared(b, b1, regs, slots, t, top) && RegsDone(b1, b2, regs, t) && SlotsDone(b2, c, slots, t)
  {
    var delta, range := AnyInexact(regs) || AnyInexact(slots), AnyMaybe(regs) || AnyMaybe(slots);
    PreambleEffect(b, false, delta, range, t, top);
    FixRegsEffect(b, false, regs, t);
    FixSlotsEffect(b, false, slots, t);
    var g1, g2;
    b1, g1, b2, g2 := RunThree(b, Preamble(delta, range, t, top), FixRegs(regs, t), FixSlots(slots, t));
    FixRegsEffect(b1, g1, regs, t);
    FixSlotsEffect(b2, g2, slots, t);
    c := Run(b2, g2, FixSlots(slots, t)).0;
  }

  lemma BodyWords(s: AState, i: Instr, live: set<Loc>, fi: FrameInfo, b: Bits, b1: Bits, b2: Bits, c: Bits,
      regs: seq<(nat, Kind)>, slots: seq<(nat, Kind)>, t: Temps)
    requires |s.units| == |b.regs| == |b1.regs| == |b2.regs| == |c.regs| == GPRS && GoodTemps(t) && i.Call?
    requires |s.slots| == |fi.roots| == |b.slots| == |b2.slots| == |c.slots|
    requires forall n :: IsTemp(t, n) ==> n !in CSRS && n in i.clobbers && n !in i.results && R(n) !in live
    requires RegsListed(s, live, fi, CSRS, regs) && SlotsListed(s, live, fi, |s.slots|, slots)
    requires Prepared(b, b1, regs, slots, t, fi.top) && RegsDone(b1, b2, regs, t) && SlotsDone(b2, c, slots, t)
    ensures BodyDone(s, live, fi, b, c) && OthersKept(i, live, b, c)
  {
    forall n | 0 <= n < GPRS && !IsTemp(t, n)
      ensures c.regs[n] == if n in CSRS then FixedReg(s, live, fi, b, n) else b.regs[n]
    {
      BodyReg(s, live, fi, b, b1, b2, CSRS, regs, slots, t, n);
    }
    forall k | 0 <= k < |b.slots|
      ensures c.slots[k] == FixedSlot(s, live, fi, b, k)
    {
      BodySlot(s, live, fi, b, b1, b2, c, regs, slots, t, k);
    }
  }

  lemma RegsOutside(s: AState, live: set<Loc>, fi: FrameInfo, regs: seq<(nat, Kind)>, t: Temps)
    requires |s.units| == GPRS && RegsListed(s, live, fi, CSRS, regs) && forall n :: IsTemp(t, n) ==> n !in CSRS
    ensures Outside(regs, t)
  {
    forall k | 0 <= k < |regs|
      ensures regs[k].0 < GPRS && !IsTemp(t, regs[k].0)
    {
      assert regs[k].0 in CSRS;
    }
  }

  lemma NothingListed(s: AState, live: set<Loc>, fi: FrameInfo, rs: seq<nat>, regs: seq<(nat, Kind)>, slots: seq<(nat,
      Kind)>)
    requires |s.units| == GPRS && |s.slots| == |fi.roots| && regs == [] && slots == []
    requires RegsListed(s, live, fi, rs, regs) && SlotsListed(s, live, fi, |s.slots|, slots)
    ensures forall n :: 0 <= n < GPRS && n in rs ==> !NeedsFix(s, live, fi, n)
    ensures forall k :: 0 <= k < |s.slots| ==> !SlotNeedsFix(s, live, fi, k)
  {
    forall n | 0 <= n < GPRS && n in rs
      ensures !NeedsFix(s, live, fi, n)
    {
      assert KindOf(regs, n) == None;
    }
    forall k | 0 <= k < |s.slots|
      ensures !SlotNeedsFix(s, live, fi, k)
    {
      assert KindOf(slots, k) == None;
    }
  }

  ghost predicate Prepared(b: Bits, c: Bits, regs: seq<(nat, Kind)>, slots: seq<(nat, Kind)>, t: Temps, top: int)
    requires |b.regs| == GPRS == |c.regs| && GoodTemps(t)
  {
    && c.rbp == b.rbp && c.rsp == b.rsp && c.oldfp == b.oldfp && c.slots == b.slots
    && (AnyInexact(regs) || AnyInexact(slots) ==> c.regs[t.d] == W(b.rbp - b.oldfp))
    && (AnyMaybe(regs) || AnyMaybe(slots) ==> c.regs[t.sz] == W(W(b.rbp + top) - b.rsp))
    && forall n :: 0 <= n < GPRS && !IsTemp(t, n) ==> c.regs[n] == b.regs[n]
  }

  lemma RepairedSame(w: int, k: Kind, rbp: int, rsp: int, d: int, e: int, sz: int, tz: int)
    requires k.Exact? || k.Shifts? || k.Maybe?
    requires (!k.Exact? ==> d == e) && (k.Maybe? ==> sz == tz)
    ensures Repaired(w, k, rbp, rsp, d, sz) == Repaired(w, k, rbp, rsp, e, tz)
  {
  }

  function FixedReg(s: AState, live: set<Loc>, fi: FrameInfo, b: Bits, n: nat): int
    requires |s.units| == GPRS == |b.regs| && n < GPRS
  {
    if NeedsFix(s, live, fi, n)
    then Repaired(b.regs[n], s.units[n].kind, b.rbp, b.rsp, W(b.rbp - b.oldfp), W(W(b.rbp + fi.top) - b.rsp))
    else b.regs[n]
  }

  function FixedSlot(s: AState, live: set<Loc>, fi: FrameInfo, b: Bits, k: nat): int
    requires k < |s.slots| == |fi.roots| == |b.slots|
  {
    if SlotNeedsFix(s, live, fi, k)
    then Repaired(b.slots[k], s.slots[k].kind, b.rbp, b.rsp, W(b.rbp - b.oldfp), W(W(b.rbp + fi.top) - b.rsp))
    else b.slots[k]
  }

  lemma BodyReg(s: AState, live: set<Loc>, fi: FrameInfo, b: Bits, b1: Bits, b2: Bits,
      rs: seq<nat>, regs: seq<(nat, Kind)>, slots: seq<(nat, Kind)>, t: Temps, n: nat)
    requires |s.units| == |b.regs| == |b1.regs| == |b2.regs| == GPRS && GoodTemps(t) && n < GPRS && !IsTemp(t, n)
    requires RegsListed(s, live, fi, rs, regs) && Prepared(b, b1, regs, slots, t, fi.top) && RegsDone(b1, b2, regs, t)
    ensures b2.regs[n] == if n in rs then FixedReg(s, live, fi, b, n) else b.regs[n]
  {
    assert b2.regs[n] == RepairedAs(b1.regs[n], KindOf(regs, n), b1, b1.regs[t.d], b1.regs[t.sz]);
    if KindOf(regs, n).Some? {
      KindsNeed(regs, n);
      RepairedSame(b.regs[n], s.units[n].kind, b.rbp, b.rsp, W(b.rbp - b.oldfp), b1.regs[t.d],
        W(W(b.rbp + fi.top) - b.rsp), b1.regs[t.sz]);
    }
  }

  lemma BodySlot(s: AState, live: set<Loc>, fi: FrameInfo, b: Bits, b1: Bits, b2: Bits, c: Bits,
      regs: seq<(nat, Kind)>, slots: seq<(nat, Kind)>, t: Temps, k: nat)
    requires |b.regs| == |b1.regs| == |b2.regs| == |c.regs| == GPRS && GoodTemps(t)
    requires k < |s.slots| == |fi.roots| == |b.slots| == |b2.slots| == |c.slots|
    requires SlotsListed(s, live, fi, |s.slots|, slots)
    requires Prepared(b, b1, regs, slots, t, fi.top) && RegsDone(b1, b2, regs, t) && SlotsDone(b2, c, slots, t)
    ensures c.slots[k] == FixedSlot(s, live, fi, b, k)
  {
    assert c.slots[k] == RepairedAs(b2.slots[k], KindOf(slots, k), b2, b2.regs[t.d], b2.regs[t.sz]);
    if KindOf(slots, k).Some? {
      KindsNeed(slots, k);
      RepairedSame(b.slots[k], s.slots[k].kind, b.rbp, b.rsp, W(b.rbp - b.oldfp), b2.regs[t.d],
        W(W(b.rbp + fi.top) - b.rsp), b2.regs[t.sz]);
    }
  }
}
