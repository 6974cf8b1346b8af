/** The repair emitted after a call: which locations it rebuilds, the
    instructions it is made of, and what running them leaves in each word. */
module FrameRepair {
  import opened Options
  import opened FrameLattice
  import opened FrameTransfer
  import opened FrameMachine

  const RBX := 3
  /** RBX R12 R13 R14 R15, the registers a call preserves. */
  const CSRS: seq<nat> := [3, 10, 11, 12, 13]
  /** R11 R10 R9 R8 RCX RSI RDI, in the order the repair prefers them. */
  const SCRATCH: seq<nat> := [9, 8, 7, 6, 1, 4, 5]

  const INT32_MIN := -0x8000_0000
  const INT32_MAX := 0x7fff_ffff

  /** `top` is the end of the frame's addressable area relative to RBP. */
  datatype FrameInfo = FrameInfo(roots: seq<bool>, reserved: set<nat>, top: int, hasOldFP: bool)

  datatype Fix =
    | LoadSlot(dst: nat, slot: nat)
    | StoreSlot(slot: nat, src: nat)
    | LeaTo(dst: nat, base: Reg, index: Option<nat>, off: int)
    | Copy(dst: nat, from: Reg)
    | AddTo(dst: nat, src: nat)
    | SubFrom(dst: nat, from: Reg)
    | SubOldFP(dst: nat)
    | Compare(a: nat, b: nat)
    | CmovBelow(dst: nat, src: nat)

  /** With `save`, RBP is stored to goc.oldfp before the call, and `body` runs
      only if RBP differs from it afterwards. */
  datatype Plan = Plan(save: bool, reloads: seq<Fix>, body: seq<Fix>)

  datatype Temps = Temps(d: nat, sz: nat, t1: nat, t2: nat, t3: nat)

  predicate AliasesRoot(v: Val, roots: seq<bool>) { 0 <= v.alias < |roots| && roots[v.alias] }

  predicate NeedsFix(s: AState, live: set<Loc>, fi: FrameInfo, r: nat)
    requires |s.units| == GPRS && r < GPRS
  {
    && r !in fi.reserved && R(r) in live && s.units[r].Frameish()
    && !AliasesRoot(s.units[r], fi.roots) && s.units[r].Repairable()
  }

  predicate NeedsReload(s: AState, live: set<Loc>, fi: FrameInfo, r: nat)
    requires |s.units| == GPRS && r < GPRS
  {
    var v := Read(s, Gpr(r));
    r !in fi.reserved && R(r) in live && (AliasesRoot(v, fi.roots) || (v.alias >= 0 && !v.Repairable()))
  }

  predicate SlotNeedsFix(s: AState, live: set<Loc>, fi: FrameInfo, sl: nat)
    requires sl < |s.slots| == |fi.roots|
  {
    !fi.roots[sl] && S(sl) in live && s.slots[sl].Repairable()
  }

  /** What the pass reports, and in its fatal mode refuses: a live word that is
      frame-derived in a way it cannot repair. */
  ghost predicate Reported(s: AState, live: set<Loc>, fi: FrameInfo)
    requires |s.units| == GPRS && |s.slots| == |fi.roots|
  {
    || (exists n :: 0 <= n < GPRS && ReportedReg(s, live, fi, n))
    || (exists k :: 0 <= k < |fi.roots| && ReportedSlot(s, live, fi, k))
  }

  predicate ReportedReg(s: AState, live: set<Loc>, fi: FrameInfo, n: nat)
    requires |s.units| == GPRS && n < GPRS
  {
    && n in CSRS && n !in fi.reserved && R(n) in live && s.units[n].Frameish()
    && !AliasesRoot(s.units[n], fi.roots) && !s.units[n].Repairable()
  }

  predicate ReportedSlot(s: AState, live: set<Loc>, fi: FrameInfo, k: nat)
    requires k < |s.slots| == |fi.roots|
  {
    !fi.roots[k] && S(k) in live && s.slots[k].Frameish() && !s.slots[k].Repairable()
  }

  function RegFixes(s: AState, live: set<Loc>, fi: FrameInfo, rs: seq<nat>): seq<(nat, Kind)>
    requires |s.units| == GPRS && forall k :: 0 <= k < |rs| ==> rs[k] < GPRS
  {
    if rs == [] then []
    else
      var r := rs[|rs| - 1];
      RegFixes(s, live, fi, rs[..|rs| - 1]) + if NeedsFix(s, live, fi, r) then [(r, s.units[r].kind)] else []
  }

  function Reloads(s: AState, live: set<Loc>, fi: FrameInfo, rs: seq<nat>): seq<Fix>
    requires |s.units| == GPRS && forall k :: 0 <= k < |rs| ==> rs[k] < GPRS
  {
    if rs == [] then []
    else
      var r := rs[|rs| - 1];
      Reloads(s, live, fi, rs[..|rs| - 1])
      + if NeedsReload(s, live, fi, r) then [LoadSlot(r, Read(s, Gpr(r)).alias)] else []
  }

  function SlotFixes(s: AState, live: set<Loc>, fi: FrameInfo, n: nat): seq<(nat, Kind)>
    requires n <= |s.slots| == |fi.roots|
  {
    if n == 0 then []
    else SlotFixes(s, live, fi, n - 1) + if SlotNeedsFix(s, live, fi, n - 1) then [(n - 1, s.slots[n - 1].kind)] else []
  }

  /** Scratch registers: clobbered by the call, not a result, dead after it. */
  function FreeRegs(i: Instr, live: set<Loc>, rs: seq<nat>): seq<nat>
    requires i.Call?
  {
    if rs == [] then []
    else
      var r := rs[|rs| - 1];
      FreeRegs(i, live, rs[..|rs| - 1]) + if r in i.clobbers && r !in i.results && R(r) !in live then [r] else []
  }

  predicate AnyInexact(fs: seq<(nat, Kind)>) { exists k :: 0 <= k < |fs| && !fs[k].1.Exact? }

  predicate AnyMaybe(fs: seq<(nat, Kind)>) { exists k :: 0 <= k < |fs| && fs[k].1.Maybe? }

  predicate Encodable(fs: seq<(nat, Kind)>) {
    forall k :: 0 <= k < |fs| && fs[k].1.Exact? ==> INT32_MIN <= fs[k].1.off <= INT32_MAX
  }

  function FixReg(v: nat, k: Kind, t: Temps): seq<Fix> {
    match k
    case Exact(b, c) => [LeaTo(v, Frame(b), None, c)]
    case Shifts => [AddTo(v, t.d)]
    case _ =>
      [LeaTo(t.t1, Gpr(v), Some(t.d), 0), Copy(t.t2, Gpr(t.t1)), SubFrom(t.t2, Frame(RSP)),
       Compare(t.t2, t.sz), CmovBelow(v, t.t1)]
  }

  function FixRegs(fs: seq<(nat, Kind)>, t: Temps): seq<Fix> {
    if fs == [] then [] else FixRegs(fs[..|fs| - 1], t) + FixReg(fs[|fs| - 1].0, fs[|fs| - 1].1, t)
  }

  function FixSlot(sl: nat, k: Kind, t: Temps): seq<Fix> {
    (if k.Exact? then [] else [LoadSlot(t.t3, sl)]) + FixReg(t.t3, k, t) + [StoreSlot(sl, t.t3)]
  }

  function FixSlots(fs: seq<(nat, Kind)>, t: Temps): seq<Fix> {
    if fs == [] then [] else FixSlots(fs[..|fs| - 1], t) + FixSlot(fs[|fs| - 1].0, fs[|fs| - 1].1, t)
  }

  function Preamble(delta: bool, range: bool, t: Temps, top: int): seq<Fix> {
    (if delta then [Copy(t.d, Frame(RBP)), SubOldFP(t.d)] else [])
    + if range then [LeaTo(t.sz, Frame(RBP), None, top), SubFrom(t.sz, Frame(RSP))] else []
  }

  /** The repair after call `i`, given the state after its transfer and what is
      live after it. */
  function PlanFor(s: AState, i: Instr, live: set<Loc>, fi: FrameInfo): Result<Plan, string>
    requires |s.units| == GPRS && |s.slots| == |fi.roots| && i.Call?
  {
    var regs := RegFixes(s, live, fi, CSRS);
    var slots := SlotFixes(s, live, fi, |s.slots|);
    var reloads := Reloads(s, live, fi, CSRS);
    if regs == [] && slots == [] then Ok(Plan(false, reloads, []))
    else
      var free := FreeRegs(i, live, SCRATCH);
      var delta := AnyInexact(regs) || AnyInexact(slots);
      var range := AnyMaybe(regs) || AnyMaybe(slots);
      if |free| < 5 then Err("not enough dead scratch registers after a call")
      else if delta && !fi.hasOldFP then Err("needs a rebase but has no goc.oldfp slot")
      else if !Encodable(regs) || !Encodable(slots) || (range && !(INT32_MIN <= fi.top <= INT32_MAX)) then
        Err("offset out of range")
      else
        var t := Temps(free[0], free[1], free[2], free[3], free[4]);
        Ok(Plan(delta, reloads, Preamble(delta, range, t, fi.top) + FixRegs(regs, t) + FixSlots(slots, t)))
  }

  method CollectRegs(s: AState, live: set<Loc>, fi: FrameInfo)
      returns (regs: seq<(nat, Kind)>, delta: bool, range: bool)
    requires |s.units| == GPRS
    ensures regs == RegFixes(s, live, fi, CSRS) && delta == AnyInexact(regs) && range == AnyMaybe(regs)
  {
    regs, delta, range := [], false, false;
    for k := 0 to |CSRS|
      invariant regs == RegFixes(s, live, fi, CSRS[..k])
      invariant delta == AnyInexact(regs) && range == AnyMaybe(regs)
    {
      assert CSRS[..k + 1][..k] == CSRS[..k];
      var r := CSRS[k];
      if NeedsFix(s, live, fi, r) {
        AnyAppend(regs, (r, s.units[r].kind));
        regs := regs + [(r, s.units[r].kind)];
        delta := delta || !s.units[r].kind.Exact?;
        range := range || s.units[r].kind.Maybe?;
      }
    }
    assert CSRS[..|CSRS|] == CSRS;
  }

  method CollectSlots(s: AState, live: set<Loc>, fi: FrameInfo)
      returns (slots: seq<(nat, Kind)>, delta: bool, range: bool)
    requires |s.slots| == |fi.roots|
    ensures slots == SlotFixes(s, live, fi, |s.slots|) && delta == AnyInexact(slots) && range == AnyMaybe(slots)
  {
    slots, delta, range := [], false, false;
    for sl := 0 to |s.slots|
      invariant slots == SlotFixes(s, live, fi, sl)
      invariant delta == AnyInexact(slots) && range == AnyMaybe(slots)
    {
      if SlotNeedsFix(s, live, fi, sl) {
        AnyAppend(slots, (sl, s.slots[sl].kind));
        slots := slots + [(sl, s.slots[sl].kind)];
        delta := delta || !s.slots[sl].kind.Exact?;
        range := range || s.slots[sl].kind.Maybe?;
      }
    }
  }

  method CollectReloads(s: AState, live: set<Loc>, fi: FrameInfo) returns (reloads: seq<Fix>)
    requires |s.units| == GPRS
    ensures reloads == Reloads(s, live, fi, CSRS)
  {
    reloads := [];
    for k := 0 to |CSRS|
      invariant reloads == Reloads(s, live, fi, CSRS[..k])
    {
      assert CSRS[..k + 1][..k] == CSRS[..k];
      if NeedsReload(s, live, fi, CSRS[k]) { reloads := reloads + [LoadSlot(CSRS[k], Read(s, Gpr(CSRS[k])).alias)]; }
    }
    assert CSRS[..|CSRS|] == CSRS;
  }

  method CollectFree(i: Instr, live: set<Loc>) returns (free: seq<nat>)
    requires i.Call?
    ensures free == FreeRegs(i, live, SCRATCH)
  {
    free := [];
    for k := 0 to |SCRATCH|
      invariant free == FreeRegs(i, live, SCRATCH[..k])
    {
      assert SCRATCH[..k + 1][..k] == SCRATCH[..k];
      var r := SCRATCH[k];
      if r in i.clobbers && r !in i.results && R(r) !in live { free := free + [r]; }
    }
    assert SCRATCH[..|SCRATCH|] == SCRATCH;
  }

  method EmitBody(regs: seq<(nat, Kind)>, slots: seq<(nat, Kind)>, delta: bool, range: bool, t: Temps, top: int)
    returns (body: seq<Fix>)
    ensures body == Preamble(delta, range, t, top) + FixRegs(regs, t) + FixSlots(slots, t)
  {
    var regCode: seq<Fix> := [];
    for k := 0 to |regs|
      invariant regCode == FixRegs(regs[..k], t)
    {
      assert regs[..k + 1][..k] == regs[..k];
      regCode := regCode + FixReg(regs[k].0, regs[k].1, t);
    }
    assert regs[..|regs|] == regs;
    var slotCode: seq<Fix> := [];
    for k := 0 to |slots|
      invariant slotCode == FixSlots(slots[..k], t)
    {
      assert slots[..k + 1][..k] == slots[..k];
      slotCode := slotCode + FixSlot(slots[k].0, slots[k].1, t);
    }
    assert slots[..|slots|] == slots;
    body := Preamble(delta, range, t, top) + regCode + slotCode;
  }

  /** The emission as the pass does it, list by list. */
  method EmitRepair(s: AState, i: Instr, live: set<Loc>, fi: FrameInfo) returns (plan: Result<Plan, string>)
    requires |s.units| == GPRS && |s.slots| == |fi.roots| && i.Call?
    ensures plan == PlanFor(s, i, live, fi)
  {
    var regs, regDelta, regRange := CollectRegs(s, live, fi);
    var slots, slotDelta, slotRange := CollectSlots(s, live, fi);
    var delta, range := regDelta || slotDelta, regRange || slotRange;
    var reloads := CollectReloads(s, live, fi);
    if regs == [] && slots == [] { return Ok(Plan(false, reloads, [])); }
    var free := CollectFree(i, live);
    if |free| < 5 { return Err("not enough dead scratch registers after a call"); }
    if delta && !fi.hasOldFP { return Err("needs a rebase but has no goc.oldfp slot"); }
    if !Encodable(regs) || !Encodable(slots) || (range && !(INT32_MIN <= fi.top <= INT32_MAX)) {
      return Err("offset out of range");
    }
    var body := EmitBody(regs, slots, delta, range, Temps(free[0], free[1], free[2], free[3], free[4]), fi.top);
    plan := Ok(Plan(delta, reloads, body));
  }

  lemma AnyAppend(fs: seq<(nat, Kind)>, f: (nat, Kind))
    ensures AnyInexact(fs + [f]) == (AnyInexact(fs) || !f.1.Exact?)
    ensures AnyMaybe(fs + [f]) == (AnyMaybe(fs) || f.1.Maybe?)
  {
    var gs := fs + [f];
    assert gs[|fs|] == f;
    assert forall k :: 0 <= k < |fs| ==> gs[k] == fs[k];
  }

  // ----- running the repair -----

  predicate ValidFix(f: Fix, slots: nat) {
    match f
    case LoadSlot(d, s) => d < GPRS && s < slots
    case StoreSlot(s, r) => s < slots && r < GPRS
    case LeaTo(d, b, x, _) => d < GPRS && ValidReg(b) && (x.Some? ==> x.value < GPRS)
    case Copy(d, r) => d < GPRS && ValidReg(r)
    case AddTo(d, r) => d < GPRS && r < GPRS
    case SubFrom(d, r) => d < GPRS && ValidReg(r)
    case SubOldFP(d) => d < GPRS
    case Compare(a, b) => a < GPRS && b < GPRS
    case CmovBelow(d, r) => d < GPRS && r < GPRS
  }

  predicate ValidFixes(fs: seq<Fix>, slots: nat) { forall k :: 0 <= k < |fs| ==> ValidFix(fs[k], slots) }

  /** One repair instruction; the second component is the "below" flag. */
  function Exec(b: Bits, below: bool, f: Fix): (r: (Bits, bool))
    requires |b.regs| == GPRS && ValidFix(f, |b.slots|)
    ensures r.0.Valid(|b.slots|)
  {
    match f
    case LoadSlot(d, s) => (b.(regs := b.regs[d := b.slots[s]]), below)
    case StoreSlot(s, r) => (b.(slots := b.slots[s := b.regs[r]]), below)
    case LeaTo(d, bs, x, o) =>
      (b.(regs := b.regs[d := W(BitRead(b, bs) + (if x.Some? then b.regs[x.value] else 0) + o)]), below)
    case Copy(d, r) => (b.(regs := b.regs[d := BitRead(b, r)]), below)
    case AddTo(d, r) => (b.(regs := b.regs[d := W(b.regs[d] + b.regs[r])]), below)
    case SubFrom(d, r) => (b.(regs := b.regs[d := W(b.regs[d] - BitRead(b, r))]), below)
    case SubOldFP(d) => (b.(regs := b.regs[d := W(b.regs[d] - b.oldfp)]), below)
    case Compare(x, y) => (b, b.regs[x] < b.regs[y])
    case CmovBelow(d, r) => (if below then b.(regs := b.regs[d := b.regs[r]]) else b, below)
  }

  function Run(b: Bits, below: bool, fs: seq<Fix>): (r: (Bits, bool))
    requires |b.regs| == GPRS && ValidFixes(fs, |b.slots|)
    ensures r.0.Valid(|b.slots|)
    decreases |fs|
  {
    if fs == [] then (b, below)
    else
      var (c, g) := Exec(b, below, fs[0]);
      Run(c, g, fs[1..])
  }

  lemma {:induction false} RunAppend(b: Bits, below: bool, fs: seq<Fix>, gs: seq<Fix>)
    requires |b.regs| == GPRS && ValidFixes(fs, |b.slots|) && ValidFixes(gs, |b.slots|)
    ensures ValidFixes(fs + gs, |b.slots|)
    ensures Run(b, below, fs + gs) == Run(Run(b, below, fs).0, Run(b, below, fs).1, gs)
    decreases |fs|
  {
    if fs == [] {
      assert fs + gs == gs;
    } else {
      var (c, g) := Exec(b, below, fs[0]);
      RunAppend(c, g, fs[1..], gs);
      assert (fs + gs)[1..] == fs[1..] + gs;
    }
  }

  /** What a repaired location must hold, from its stale word `w`. */
  function Repaired(w: int, k: Kind, rbp: int, rsp: int, d: int, sz: int): int {
    match k
    case Exact(bs, c) => W((if bs.RBP? then rbp else rsp) + c)
    case Shifts => W(w + d)
    case _ => if W(W(w + d) - rsp) < sz then W(w + d) else w
  }

  predicate GoodTemps(t: Temps) {
    && t.d < GPRS && t.sz < GPRS && t.t1 < GPRS && t.t2 < GPRS && t.t3 < GPRS
    && t.d != t.sz && t.d != t.t1 && t.d != t.t2 && t.d != t.t3
    && t.sz != t.t1 && t.sz != t.t2 && t.sz != t.t3 && t.t1 != t.t2 && t.t1 != t.t3 && t.t2 != t.t3
  }

  predicate IsTemp(t: Temps, n: nat) { n == t.d || n == t.sz || n == t.t1 || n == t.t2 || n == t.t3 }

  /** Two bit states that differ only in the temporaries and in what is repaired. */
  ghost predicate SameFrame(b: Bits, c: Bits, t: Temps)
    requires GoodTemps(t) && |b.regs| == GPRS == |c.regs|
  {
    && c.rbp == b.rbp && c.rsp == b.rsp && c.oldfp == b.oldfp && |c.slots| == |b.slots|
    && c.regs[t.d] == b.regs[t.d] && c.regs[t.sz] == b.regs[t.sz]
  }

  ghost predicate RegDone(b: Bits, c: Bits, v: nat, k: Kind, t: Temps)
    requires |b.regs| == GPRS == |c.regs| && GoodTemps(t) && v < GPRS
  {
    && SameFrame(b, c, t) && c.slots == b.slots
    && forall n :: 0 <= n < GPRS && n != t.t1 && n != t.t2 ==>
      c.regs[n] == if n == v then Repaired(b.regs[v], k, b.rbp, b.rsp, b.regs[t.d], b.regs[t.sz]) else b.regs[n]
  }

  lemma FixRegEffect(b: Bits, below: bool, v: nat, k: Kind, t: Temps)
    requires |b.regs| == GPRS && GoodTemps(t) && v < GPRS && (IsTemp(t, v) ==> v == t.t3)
    ensures ValidFixes(FixReg(v, k, t), |b.slots|)
    ensures RegDone(b, Run(b, below, FixReg(v, k, t)).0, v, k, t)
  {
    var fs := FixReg(v, k, t);
    if k.Exact? || k.Shifts? {
      RunOne(b, below, fs);
    } else {
      FixMaybeEffect(b, below, v, k, t);
    }
  }

  lemma FixMaybeEffect(b: Bits, below: bool, v: nat, k: Kind, t: Temps)
    requires |b.regs| == GPRS && GoodTemps(t) && v < GPRS && (IsTemp(t, v) ==> v == t.t3) && !k.Exact? && !k.Shifts?
    ensures ValidFixes(FixReg(v, k, t), |b.slots|)
    ensures RegDone(b, Run(b, below, FixReg(v, k, t)).0, v, k, t)
  {
    hide W, Run, Repaired, RegDone;
    var fs := FixReg(v, k, t);
    var x := W(b.regs[v] + b.regs[t.d] + 0);
    var y := W(x - b.rsp);
    var b1 := b.(regs := b.regs[t.t1 := x]);
    var b2 := b1.(regs := b1.regs[t.t2 := x]);
    var b3 := b2.(regs := b2.regs[t.t2 := y]);
    assert Exec(b, below, fs[0]) == (b1, below);
    assert Exec(b1, below, fs[1]) == (b2, below);
    assert Exec(b2, below, fs[2]) == (b3, below);
    assert Exec(b3, below, fs[3]) == (b3, y < b.regs[t.sz]);
    RunFive(b, below, fs);
    MaybeDone(b, if y < b.regs[t.sz] then b3.(regs := b3.regs[v := x]) else b3, v, k, t, x, y);
  }

  lemma MaybeDone(b: Bits, c: Bits, v: nat, k: Kind, t: Temps, x: int, y: int)
    requires |b.regs| == GPRS && GoodTemps(t) && v < GPRS && (IsTemp(t, v) ==> v == t.t3) && !k.Exact? && !k.Shifts?
    requires x == W(b.regs[v] + b.regs[t.d]) && y == W(x - b.rsp)
    requires c == b.(regs := var rs := b.regs[t.t1 := x][t.t2 := x][t.t2 := y]; if y < b.regs[t.sz] then rs[v := x]
      else rs)
    ensures RegDone(b, c, v, k, t)
  {
    hide W;
  }

  lemma RunFive(b: Bits, below: bool, fs: seq<Fix>)
    requires |b.regs| == GPRS && ValidFixes(fs, |b.slots|) && |fs| == 5
    ensures var (b1, g1) := Exec(b, below, fs[0]); var (b2, g2) := Exec(b1, g1, fs[1]);
      var (b3, g3) := Exec(b2, g2, fs[2]); var (b4, g4) := Exec(b3, g3, fs[3]);
      Run(b, below, fs) == Exec(b4, g4, fs[4])
  {
    hide Run, Exec;
    var f1 := fs[1..];
    var f2 := f1[1..];
    var f3 := f2[1..];
    var f4 := f3[1..];
    RunFirst(b, below, fs);
    var (b1, g1) := Exec(b, below, fs[0]);
    RunFirst(b1, g1, f1);
    var (b2, g2) := Exec(b1, g1, fs[1]);
    RunFirst(b2, g2, f2);
    var (b3, g3) := Exec(b2, g2, fs[2]);
    RunFirst(b3, g3, f3);
    var (b4, g4) := Exec(b3, g3, fs[3]);
    RunFirst(b4, g4, f4);
    var (b5, g5) := Exec(b4, g4, fs[4]);
    RunEmpty(b5, g5);
    assert f4[1..] == [];
  }

  lemma RunFirst(b: Bits, below: bool, fs: seq<Fix>)
    requires |b.regs| == GPRS && ValidFixes(fs, |b.slots|) && fs != []
    ensures var (c, g) := Exec(b, below, fs[0]);
      ValidFixes(fs[1..], |c.slots|) && Run(b, below, fs) == Run(c, g, fs[1..])
  {
    hide Exec;
  }

  lemma RunEmpty(b: Bits, below: bool)
    requires |b.regs| == GPRS
    ensures Run(b, below, []) == (b, below)
  {
  }

  /** The kind a list gives location n. */
  function KindOf(fs: seq<(nat, Kind)>, n: nat): Option<Kind> {
    if fs == [] then None
    else if fs[|fs| - 1].0 == n then Some(fs[|fs| - 1].1)
    else KindOf(fs[..|fs| - 1], n)
  }

  ghost predicate FixedOnce(fs: seq<(nat, Kind)>) {
    fs == [] || (FixedOnce(fs[..|fs| - 1]) && KindOf(fs[..|fs| - 1], fs[|fs| - 1].0).None?)
  }

  ghost predicate Outside(fs: seq<(nat, Kind)>, t: Temps) {
    forall k :: 0 <= k < |fs| ==> fs[k].0 < GPRS && !IsTemp(t, fs[k].0)
  }

  function RepairedAs(w: int, k: Option<Kind>, b: Bits, d: int, sz: int): int {
    if k.Some? then Repaired(w, k.value, b.rbp, b.rsp, d, sz) else w
  }

  ghost predicate RegsDone(b: Bits, c: Bits, fs: seq<(nat, Kind)>, t: Temps)
    requires GoodTemps(t) && |b.regs| == GPRS == |c.regs|
  {
    && SameFrame(b, c, t) && c.slots == b.slots
    && forall n :: 0 <= n < GPRS && !IsTemp(t, n) ==>
      c.regs[n] == RepairedAs(b.regs[n], KindOf(fs, n), b, b.regs[t.d], b.regs[t.sz])
  }

  lemma {:induction false} FixRegsEffect(b: Bits, below: bool, fs: seq<(nat, Kind)>, t: Temps)
    requires |b.regs| == GPRS && GoodTemps(t) && FixedOnce(fs) && Outside(fs, t)
    ensures ValidFixes(FixRegs(fs, t), |b.slots|) && RegsDone(b, Run(b, below, FixRegs(fs, t)).0, fs, t)
  {
    if fs != [] {
      var n := |fs| - 1;
      var gs, f := fs[..n], fs[n];
      FixRegsEffect(b, below, gs, t);
      var (c, g) := Run(b, below, FixRegs(gs, t));
      FixRegEffect(c, g, f.0, f.1, t);
      RunAppend(b, below, FixRegs(gs, t), FixReg(f.0, f.1, t));
      RegsDoneStep(b, c, Run(c, g, FixReg(f.0, f.1, t)).0, fs, t);
    }
  }

  lemma RegsDoneStep(b: Bits, c: Bits, e: Bits, fs: seq<(nat, Kind)>, t: Temps)
    requires |b.regs| == |c.regs| == |e.regs| == GPRS && GoodTemps(t) && FixedOnce(fs) && Outside(fs, t) && fs != []
    requires RegsDone(b, c, fs[..|fs| - 1], t) && RegDone(c, e, fs[|fs| - 1].0, fs[|fs| - 1].1, t)
    ensures RegsDone(b, e, fs, t)
  {
    hide Repaired;
    var gs := fs[..|fs| - 1];
    forall m | 0 <= m < GPRS && !IsTemp(t, m)
      ensures e.regs[m] == RepairedAs(b.regs[m], KindOf(fs, m), b, b.regs[t.d], b.regs[t.sz])
    {
      assert c.regs[m] == RepairedAs(b.regs[m], KindOf(gs, m), b, b.regs[t.d], b.regs[t.sz]);
    }
  }

  ghost predicate SlotDone(b: Bits, c: Bits, sl: nat, k: Kind, t: Temps)
    requires |b.regs| == GPRS == |c.regs| && GoodTemps(t) && sl < |b.slots|
  {
    && SameFrame(b, c, t) && c.slots == b.slots[sl := Repaired(b.slots[sl], k, b.rbp, b.rsp, b.regs[t.d], b.regs[t.sz])]
    && forall n :: 0 <= n < GPRS && !IsTemp(t, n) ==> c.regs[n] == b.regs[n]
  }

  /** Load (unless the word is recomputed), fix in the third temporary, store back. */
  lemma SlotDoneSteps(b: Bits, b1: Bits, b2: Bits, c: Bits, sl: nat, k: Kind, t: Temps)
    requires |b.regs| == |b2.regs| == |c.regs| == GPRS && GoodTemps(t) && sl < |b.slots|
    requires b1 == (if k.Exact? then b else b.(regs := b.regs[t.t3 := b.slots[sl]]))
    requires RegDone(b1, b2, t.t3, k, t) && c == b2.(slots := b2.slots[sl := b2.regs[t.t3]])
    ensures SlotDone(b, c, sl, k, t)
  {
    assert b2.regs[t.t3] == Repaired(b1.regs[t.t3], k, b.rbp, b.rsp, b.regs[t.d], b.regs[t.sz]);
  }

  lemma FixSlotEffect(b: Bits, below: bool, sl: nat, k: Kind, t: Temps)
    requires |b.regs| == GPRS && GoodTemps(t) && sl < |b.slots|
    ensures ValidFixes(FixSlot(sl, k, t), |b.slots|) && SlotDone(b, Run(b, below, FixSlot(sl, k, t)).0, sl, k, t)
  {
    var head, mid, tail := if k.Exact? then [] else [LoadSlot(t.t3, sl)], FixReg(t.t3, k, t), [StoreSlot(sl, t.t3)];
    if head != [] { RunOne(b, below, head); }
    var (b1, g1) := Run(b, below, head);
    FixRegEffect(b1, g1, t.t3, k, t);
    var (b2, g2) := Run(b1, g1, mid);
    RunOne(b2, g2, tail);
    RunAppend(b, below, head, mid);
    RunAppend(b, below, head + mid, tail);
    SlotDoneSteps(b, b1, b2, Run(b2, g2, tail).0, sl, k, t);
  }

  lemma RunOne(b: Bits, below: bool, fs: seq<Fix>)
    requires |b.regs| == GPRS && ValidFixes(fs, |b.slots|) && |fs| == 1
    ensures Run(b, below, fs) == Exec(b, below, fs[0])
  {
    assert fs[1..] == [];
  }

  ghost predicate SlotsDone(b: Bits, c: Bits, fs: seq<(nat, Kind)>, t: Temps)
    requires GoodTemps(t) && |b.regs| == GPRS == |c.regs| && |b.slots| == |c.slots|
  {
    && SameFrame(b, c, t)
    && (forall n :: 0 <= n < GPRS && !IsTemp(t, n) ==> c.regs[n] == b.regs[n])
    && forall n :: 0 <= n < |b.slots| ==>
      c.slots[n] == RepairedAs(b.slots[n], KindOf(fs, n), b, b.regs[t.d], b.regs[t.sz])
  }

  lemma {:induction false} FixSlotsEffect(b: Bits, below: bool, fs: seq<(nat, Kind)>, t: Temps)
    requires |b.regs| == GPRS && GoodTemps(t) && FixedOnce(fs) && forall k :: 0 <= k < |fs| ==> fs[k].0 < |b.slots|
    ensures ValidFixes(FixSlots(fs, t), |b.slots|) && SlotsDone(b, Run(b, below, FixSlots(fs, t)).0, fs, t)
  {
    if fs != [] {
      var n := |fs| - 1;
      var gs, f := fs[..n], fs[n];
      FixSlotsEffect(b, below, gs, t);
      var (c, g) := Run(b, below, FixSlots(gs, t));
      FixSlotEffect(c, g, f.0, f.1, t);
      RunAppend(b, below, FixSlots(gs, t), FixSlot(f.0, f.1, t));
      SlotsDoneStep(b, c, Run(c, g, FixSlot(f.0, f.1, t)).0, fs, t);
    }
  }

  lemma SlotsDoneStep(b: Bits, c: Bits, e: Bits, fs: seq<(nat, Kind)>, t: Temps)
    requires |b.regs| == |c.regs| == |e.regs| == GPRS && GoodTemps(t) && FixedOnce(fs) && fs != []
    requires |b.slots| == |c.slots| == |e.slots| && fs[|fs| - 1].0 < |b.slots|
    requires SlotsDone(b, c, fs[..|fs| - 1], t) && SlotDone(c, e, fs[|fs| - 1].0, fs[|fs| - 1].1, t)
    ensures SlotsDone(b, e, fs, t)
  {
    hide Repaired;
    var gs := fs[..|fs| - 1];
    forall m | 0 <= m < |b.slots|
      ensures e.slots[m] == RepairedAs(b.slots[m], KindOf(fs, m), b, b.regs[t.d], b.regs[t.sz])
    {
      assert c.slots[m] == RepairedAs(b.slots[m], KindOf(gs, m), b, b.regs[t.d], b.regs[t.sz]);
    }
  }

  lemma PreambleEffect(b: Bits, below: bool, delta: bool, range: bool, t: Temps, top: int)
    requires |b.regs| == GPRS && GoodTemps(t)
    ensures ValidFixes(Preamble(delta, range, t, top), |b.slots|)
    ensures var c := Run(b, below, Preamble(delta, range, t, top)).0;
      c.rbp == b.rbp && c.rsp == b.rsp && c.oldfp == b.oldfp && c.slots == b.slots
      && (delta ==> c.regs[t.d] == W(b.rbp - b.oldfp))
      && (range ==> c.regs[t.sz] == W(W(b.rbp + top) - b.rsp))
      && forall n :: 0 <= n < GPRS && !IsTemp(t, n) ==> c.regs[n] == b.regs[n]
  {
    var p := if delta then [Copy(t.d, Frame(RBP)), SubOldFP(t.d)] else [];
    var q := if range then [LeaTo(t.sz, Frame(RBP), None, top), SubFrom(t.sz, Frame(RSP))] else [];
    if delta { RunTwo(b, below, p); }
    var (c, g) := Run(b, below, p);
    if range { RunTwo(c, g, q); }
    RunAppend(b, below, p, q);
  }

  lemma RunTwo(b: Bits, below: bool, fs: seq<Fix>)
    requires |b.regs| == GPRS && ValidFixes(fs, |b.slots|) && |fs| == 2
    ensures var (c, g) := Exec(b, below, fs[0]); Run(b, below, fs) == Exec(c, g, fs[1])
  {
    var (c, g) := Exec(b, below, fs[0]);
    var (d, h) := Exec(c, g, fs[1]);
    var f1 := fs[1..];
    assert f1[1..] == [] && f1[0] == fs[1];
    assert Run(d, h, f1[1..]) == (d, h);
    assert Run(c, g, f1) == (d, h);
  }

  lemma {:induction false} ReloadsEffect(s: AState, live: set<Loc>, fi: FrameInfo, rs: seq<nat>, b: Bits, below: bool)
    requires |s.units| == GPRS == |b.regs| && |b.slots| == |fi.roots|
    requires forall k :: 0 <= k < |rs| ==> rs[k] < GPRS && Read(s, Gpr(rs[k])).alias < |b.slots|
    ensures ValidFixes(Reloads(s, live, fi, rs), |b.slots|)
    ensures var c := Run(b, below, Reloads(s, live, fi, rs)).0;
      c == b.(regs := c.regs)
      && forall n :: 0 <= n < GPRS ==>
        c.regs[n] == if n in rs && NeedsReload(s, live, fi, n) then b.slots[Read(s, Gpr(n)).alias] else b.regs[n]
  {
    if rs != [] {
      var k := |rs| - 1;
      var r := rs[k];
      ReloadsEffect(s, live, fi, rs[..k], b, below);
      var fs := Reloads(s, live, fi, rs[..k]);
      var g := if NeedsReload(s, live, fi, r) then [LoadSlot(r, Read(s, Gpr(r)).alias)] else [];
      var (c, h) := Run(b, below, fs);
      RunAppend(b, below, fs, g);
      if g != [] { assert g[1..] == [] && Run(c, h, g) == Exec(c, h, g[0]); }
      assert forall n :: n in rs <==> n in rs[..k] || n == r;
    }
  }
}
