/** Copy-group names are instruction addresses, so a second trip round a loop
    reuses them. This function keeps the previous trip's word in a spill slot:

      loop:  rax := new word
             rcx := rax          ; starts copy group 1
             rbx := slot 0       ; the previous trip's word, still in group 1
             slot 0 := rcx       ; "everything in group 1 is slot 0 now"
             call
             use rbx             ; reloaded from slot 0: this trip's word

    The analysis is stable, no stack moves, and the repair after the call
    replaces a live register by another word. `FreshGroups` is the condition
    that rules this out. */
module FrameCopies {
  import opened Options
  import opened FrameLattice
  import opened FrameTransfer
  import opened FrameMachine
  import opened FrameSound
  import opened FrameGroups
  import opened FrameStep
  import opened FrameRepair
  import opened FrameCall
  import opened FrameRestore
  import opened FrameProgram
  import opened FrameRun

  const RAX := Gpr(0)
  const RCX := Gpr(1)

  /** A call's clobber list: RAX RCX RDX RSI RDI R8-R11, everything but RBX and R12-R15. */
  ghost predicate CallerSaved(cl: seq<nat>) {
    (forall k :: 0 <= k < |cl| ==> cl[k] < GPRS) && forall n :: 0 <= n < GPRS ==> (n in cl <==> n < 10 && n != RBX)
  }

  const NEW_WORD := Other([RAX], [], [], None, None, false)
  const COPY := Mov(RCX, RAX, 1)
  const RELOAD := Load(Gpr(RBX), 0, 2)
  const SPILL := Store(0, RCX)
  const USE := Other([], [Gpr(RBX)], [], None, None, false)

  const PLAIN := Of(Plain)
  const UNSET := Of(Unset)
  const GROUPED := Val(Plain, NO_ALIAS, 1)
  const COPIED := Val(Plain, 0, 1)

  function Pick<T>(n: nat, a: T, c: T, b: T, o: T, r: T): T {
    if n == 0 then a else if n == 1 then c else if n == RBX then b else if n < 10 then o else r
  }

  /** RAX, RCX, RBX, the other clobbered registers and the slot; R12-R15 are plain. */
  function Abs(a: Val, c: Val, b: Val, o: Val, s: Val): (t: AState)
    ensures t.Valid(1)
  {
    AState(seq(GPRS, n requires n >= 0 => Pick(n, a, c, b, o, PLAIN)), [s])
  }

  lemma StepNew(a: Val)
    ensures Step(Abs(PLAIN, PLAIN, PLAIN, PLAIN, a), NEW_WORD) == Abs(PLAIN, PLAIN, PLAIN, PLAIN, a)
  {
    var s := Abs(PLAIN, PLAIN, PLAIN, PLAIN, a);
    assert [RAX][..0] == [];
    assert InvalidateAll(s, [RAX]) == s;
    assert Value(s, NEW_WORD) == PLAIN;
    assert WriteAll(s, [RAX], PLAIN).units == s.units;
  }

  /** The copy starts group 1 although slot 0 still carries that name. */
  lemma StepCopy()
    ensures Step(Abs(PLAIN, PLAIN, PLAIN, PLAIN, GROUPED), COPY) == Abs(GROUPED, GROUPED, PLAIN, PLAIN, GROUPED)
  {
    var s := Abs(PLAIN, PLAIN, PLAIN, PLAIN, GROUPED);
    assert [RCX][..0] == [];
    assert InvalidateAll(s, [RCX]) == s;
    assert GroupSource(s, COPY).units == Abs(GROUPED, PLAIN, PLAIN, PLAIN, GROUPED).units;
    assert WriteAll(Abs(GROUPED, PLAIN, PLAIN, PLAIN, GROUPED), [RCX], GROUPED).units
        == Abs(GROUPED, GROUPED, PLAIN, PLAIN, GROUPED).units;
  }

  lemma StepReload()
    ensures Step(Abs(GROUPED, GROUPED, PLAIN, PLAIN, GROUPED), RELOAD) == Abs(GROUPED, GROUPED, COPIED, PLAIN, GROUPED)
  {
    var s := Abs(GROUPED, GROUPED, PLAIN, PLAIN, GROUPED);
    assert [Gpr(RBX)][..0] == [];
    assert InvalidateAll(s, [Gpr(RBX)]) == s;
    assert WriteAll(s, [Gpr(RBX)], COPIED).units == Abs(GROUPED, GROUPED, COPIED, PLAIN, GROUPED).units;
  }

  /** The store marks RBX, which holds another word, as a copy of the slot. */
  lemma StepSpill()
    ensures Step(Abs(GROUPED, GROUPED, COPIED, PLAIN, GROUPED), SPILL) == Abs(COPIED, COPIED, COPIED, PLAIN, GROUPED)
  {
    var s := Abs(GROUPED, GROUPED, COPIED, PLAIN, GROUPED);
    var f := Forget(s, 0);
    assert f.units == Abs(GROUPED, GROUPED, GROUPED, PLAIN, GROUPED).units && f.slots == [GROUPED];
    assert MapVals(f.units, u => Marked(u, 1, 0)) == Abs(COPIED, COPIED, COPIED, PLAIN, GROUPED).units;
  }

  lemma StepTheCall(cl: seq<nat>)
    requires CallerSaved(cl)
    ensures Step(Abs(COPIED, COPIED, COPIED, PLAIN, GROUPED), Call([], cl, [])) ==
      Abs(UNSET, UNSET, COPIED, UNSET, GROUPED)
  {
    assert StepCall(Abs(COPIED, COPIED, COPIED, PLAIN, GROUPED), cl, []).units ==
      Abs(UNSET, UNSET, COPIED, UNSET, GROUPED).units;
  }

  lemma StepUse(s: AState)
    requires s.Valid(1)
    ensures Step(s, USE) == s
  {
  }

  // ----- the function and its analysis -----

  function Loop(cl: seq<nat>): (code: seq<Instr>)
    ensures |code| == 6
  {
    [NEW_WORD, COPY, RELOAD, SPILL, Call([], cl, []), USE]
  }

  function Example(cl: seq<nat>): Program {
    Program([Block(Loop(cl), [0])], INFO)
  }

  lemma ExampleValid(cl: seq<nat>)
    requires CallerSaved(cl)
    ensures Example(cl).Valid() && ValidCode(Loop(cl), 1) && Example(cl).Code(0) == Loop(cl)
  {
  }

  /** The abstract state before instruction k. */
  function Before(k: nat): (t: AState)
    ensures t.Valid(1)
  {
    if k <= 1 then Abs(PLAIN, PLAIN, PLAIN, PLAIN, GROUPED)
    else if k == 2 then Abs(GROUPED, GROUPED, PLAIN, PLAIN, GROUPED)
    else if k == 3 then Abs(GROUPED, GROUPED, COPIED, PLAIN, GROUPED)
    else if k == 4 then Abs(COPIED, COPIED, COPIED, PLAIN, GROUPED)
    else Abs(UNSET, UNSET, COPIED, UNSET, GROUPED)
  }

  lemma StepsAgree(cl: seq<nat>, k: nat)
    requires CallerSaved(cl) && k < 6
    ensures ValidInstr(Loop(cl)[k], 1) && Step(Before(k), Loop(cl)[k]) == Before(k + 1)
  {
    hide Step, Abs;
    if k == 0 { StepNew(GROUPED); }
    else if k == 1 { StepCopy(); }
    else if k == 2 { StepReload(); }
    else if k == 3 { StepSpill(); }
    else if k == 4 { StepTheCall(cl); }
    else { StepUse(Before(5)); }
  }

  lemma {:induction false} TransferAgrees(cl: seq<nat>, k: nat)
    requires CallerSaved(cl) && k <= 6
    ensures ValidCode(Loop(cl)[..k], 1) && Transfer(Before(0), Loop(cl)[..k]) == Before(k)
  {
    hide Step, Before, Loop;
    ExampleValid(cl);
    if k > 0 {
      TransferAgrees(cl, k - 1);
      assert Loop(cl)[..k][..k - 1] == Loop(cl)[..k - 1];
      StepsAgree(cl, k - 1);
    }
  }

  function Found(): Analysis { Analysis([0], [Before(0)], [Before(6)], [true], [{S(0)}]) }

  /** What is live before instruction k. */
  function LiveOf(k: nat): set<Loc> {
    if k == 0 || k >= 6 then {S(0)}
    else if k == 1 then {R(0), S(0)}
    else if k == 2 then {R(1), S(0)}
    else if k == 3 then {R(1), R(RBX)}
    else {R(RBX), S(0)}
  }

  lemma LiveStep(cl: seq<nat>, k: nat)
    requires CallerSaved(cl) && k < 6
    ensures LiveBefore(Loop(cl)[k], LiveOf(k + 1)) == LiveOf(k)
  {
    assert RegLocs([RAX]) == {R(0)} && RegLocs([RCX]) == {R(1)} && RegLocs([Gpr(RBX)]) == {R(RBX)};
    assert RegLocs([]) == {};
    if k == 4 {
      assert RBX !in cl;
      assert Kills(Call([], cl, [])) == set c | c in cl :: R(c);
    } else if k == 5 {
      assert Inputs(USE) == [Gpr(RBX)];
    } else if k == 0 {
      assert Inputs(NEW_WORD) == [];
    }
  }

  lemma {:induction false} LivenessAgrees(cl: seq<nat>, k: nat)
    requires CallerSaved(cl) && k <= 6
    ensures LiveThrough(Loop(cl)[k..], {S(0)}) == LiveOf(k)
    decreases 6 - k
  {
    hide Loop, LiveOf;
    if k == 6 {
      assert Loop(cl)[6..] == [];
      assert LiveOf(6) == {S(0)} by { LiveEnd(); }
    } else {
      LivenessAgrees(cl, k + 1);
      assert Loop(cl)[k..][1..] == Loop(cl)[k + 1..];
      LiveStep(cl, k);
    }
  }

  lemma LiveEnd()
    ensures LiveOf(6) == LiveOf(0) == {S(0)}
  {
  }

  lemma MergeAgrees()
    ensures JoinStates(InitState(1), Before(6)) == Before(0)
  {
    var j := JoinStates(InitState(1), Before(6));
    assert j.units == Before(0).units && j.slots == Before(0).slots;
  }

  lemma FoundTidy()
    ensures Tidy(Before(0)) && Tidy(Before(6))
  {
  }

  lemma ExampleLiveOut(cl: seq<nat>)
    requires CallerSaved(cl)
    ensures Example(cl).Valid() && LiveOut(Example(cl), [{S(0)}], 0) == {S(0)}
  {
    ExampleValid(cl);
    var p := Example(cl);
    var live: seq<set<Loc>> := [{S(0)}];
    var b := 0;
    assert p.blocks[b].succs[0] == 0;
    assert S(0) in live[p.blocks[b].succs[0]];
  }

  lemma ExampleAnalyzed(cl: seq<nat>)
    requires CallerSaved(cl)
    ensures Sized(Example(cl), Found()) && Analyzed(Example(cl), Found())
  {
    hide Step, Loop, Before, Join;
    var p, a := Example(cl), Found();
    ExampleValid(cl);
    FoundTidy();
    TransferAgrees(cl, 6);
    assert Loop(cl)[..6] == Loop(cl) && Loop(cl)[0..] == Loop(cl);
    LivenessAgrees(cl, 0);
    LiveEnd();
    ExampleLiveOut(cl);
    MergeAgrees();
    assert JoinFrom(p, a.outs, a.seen, 0, 0) == InitState(1);
    assert JoinFrom(p, a.outs, a.seen, 0, 1) == Before(0);
  }

  lemma ExamplePoints(cl: seq<nat>, k: nat)
    requires CallerSaved(cl) && k <= 6
    ensures Sized(Example(cl), Found()) && k <= |Example(cl).Code(0)|
    ensures StateAt(Example(cl), Found(), 0, k) == Before(k) && LiveAt(Example(cl), Found(), 0, k) == LiveOf(k)
  {
    hide Step, Loop, Before, LiveOf;
    var p, a := Example(cl), Found();
    ExampleAnalyzed(cl);
    ExampleValid(cl);
    TransferAgrees(cl, k);
    LivenessAgrees(cl, k);
    ExampleLiveOut(cl);
  }

  /** No value in this function is frame-derived. */
  lemma PlainStates(k: nat, live: set<Loc>)
    ensures !Reported(Before(k), live, INFO)
  {
  }

  lemma NothingReported(cl: seq<nat>)
    requires CallerSaved(cl)
    ensures Sized(Example(cl), Found()) && Unreported(Example(cl), Found())
  {
    hide Reported, Before, Loop;
    var p, a := Example(cl), Found();
    ExampleAnalyzed(cl);
    ExampleValid(cl);
    forall b, k | b in a.order && 0 <= b < |p.blocks| && 0 <= k < |p.Code(b)| && p.Code(b)[k].Call?
      ensures !Reported(StateAt(p, a, b, k + 1), LiveAt(p, a, b, k + 1), p.fi)
    {
      LoopSized(cl);
      ExamplePoints(cl, k + 1);
      PlainStates(k + 1, LiveAt(p, a, b, k + 1));
    }
  }

  lemma LoopSized(cl: seq<nat>)
    ensures |Loop(cl)| == 6
  {
  }

  // ----- two trips round the loop -----

  function Mem(a: Sym, c: Sym, b: Sym, s: Sym): (m: Ideal)
    ensures m.Valid(1)
  {
    Ideal(seq(GPRS, n requires n >= 0 => Pick(n, a, c, b, Undef, Undef)), [s], 0, 0)
  }

  function Words(a: int, c: int, b: int, s: int): (w: Bits)
    ensures w.Valid(1)
  {
    Bits(seq(GPRS, n requires n >= 0 => Pick(n, a, c, b, 0, 0)), [s], 0, 0, 0)
  }

  /** One trip: `v` is the new word, `prev` the previous trip's, `x` what RBX held. */
  datatype Trip = Trip(v: int, prev: Sym, prevBits: int, x: Sym, xBits: int) {
    predicate Valid() {
      0 <= v < WORDS && (prev.Lin? ==> prev == Lin(0, 0, prevBits) && 0 <= prevBits < WORDS)
    }

    function Point(k: nat): Config
      requires k <= 6
    {
      if k == 0 then Config(0, 0, Mem(Undef, Undef, x, prev), Words(0, 0, xBits, prevBits), 0)
      else if k == 1 then Config(0, 1, Mem(Lin(0, 0, v), Undef, x, prev), Words(v, 0, xBits, prevBits), 0)
      else if k == 2 then Config(0, 2, Mem(Lin(0, 0, v), Lin(0, 0, v), x, prev), Words(v, v, xBits, prevBits), 0)
      else if k == 3 then Config(0, 3, Mem(Lin(0, 0, v), Lin(0, 0, v), prev, prev), Words(v, v, prevBits, prevBits), 0)
      else if k == 4 then Config(0, 4, Mem(Lin(0, 0, v), Lin(0, 0, v), prev, Lin(0, 0, v)), Words(v, v, prevBits, v), 0)
      else Config(0, k, Mem(Undef, Undef, prev, Lin(0, 0, v)), Words(0, 0, v, v), 0)
    }
  }

  /** The outside world: the first instruction produces v, no call moves the stack. */
  function World(v: int): Choice {
    Choice(false, [Lin(0, 0, v), Undef], (k: nat, ws: seq<int>) => v, 0, 0, 0, seq(GPRS, _ => 0), 0)
  }

  function Quiet(): Choice {
    Choice(false, [Undef, Undef], (k: nat, ws: seq<int>) => 0, 0, 0, 0, seq(GPRS, _ => 0), 0)
  }

  function ChoiceOf(t: Trip, k: nat): Choice { if k == 0 then World(t.v) else Quiet() }

  ghost predicate Goes(c: Config, i: Instr, ch: Choice, d: Config)
    requires c.m.Valid(1) && c.b.Valid(1) && ValidInstr(i, 1) && !i.Call?
  {
    && |ch.syms| > |Defs(i)| && |ch.junk| == GPRS && ChoiceOk(c.m, i, ch, 0)
    && IdealStep(c.m, i, ch) == d.m && BitStep(c.b, i, ch) == d.b
  }

  lemma OneWrite(m: Ideal, b: Bits, r: Reg, xs: seq<Sym>, f: nat -> int)
    requires |m.regs| == GPRS == |b.regs| && ValidReg(r) && |xs| > 0
    ensures IdealWrites(m, [r], xs) == IdealWrite(m, r, xs[0]) && BitWrites(b, [r], f) == BitWrite(b, r, f(0))
  {
    assert [r][..0] == [];
    assert IdealWrites(m, [], xs) == m && BitWrites(b, [], f) == b;
  }

  lemma FirstStep(t: Trip)
    requires t.Valid()
    ensures Goes(t.Point(0), NEW_WORD, World(t.v), t.Point(1))
  {
    var ch, c, d, ds := World(t.v), t.Point(0), t.Point(1), [RAX];
    assert NEW_WORD.defs == ds && ds[..0] == [];
    assert W(t.v) == t.v;
    OneWrite(c.m, c.b, RAX, ch.syms, (k: nat) => W(ch.f(k, BitWords(c.b, NEW_WORD))));
    assert IdealStep(c.m, NEW_WORD, ch).regs == d.m.regs;
    BitWritesExt(c.b, ds, (k: nat) => W(ch.f(k, BitWords(c.b, NEW_WORD))), (k: nat) => t.v);
    OneWrite(c.m, c.b, RAX, ch.syms, (k: nat) => t.v);
    assert BitStep(c.b, NEW_WORD, ch).regs == d.b.regs;
  }

  lemma MiddleStep(t: Trip, i: Instr, k: nat)
    requires t.Valid() && 1 <= k <= 3 && i == (if k == 1 then COPY else if k == 2 then RELOAD else SPILL)
    ensures Goes(t.Point(k), i, Quiet(), t.Point(k + 1))
  {
    var ch, c, d := Quiet(), t.Point(k), t.Point(k + 1);
    assert IdealStep(c.m, i, ch).regs == d.m.regs && IdealStep(c.m, i, ch).slots == d.m.slots;
    assert BitStep(c.b, i, ch).regs == d.b.regs && BitStep(c.b, i, ch).slots == d.b.slots;
  }

  lemma LastStep(t: Trip)
    requires t.Valid()
    ensures Goes(t.Point(5), USE, Quiet(), t.Point(6))
  {
  }

  const INFO := FrameInfo([false], {}, 16, true)

  ghost function TheCall(cl: seq<nat>, t: Trip): CallSite {
    CallSite(Before(5), t.Point(4).m, t.Point(4).b, 0, LiveOf(5), INFO, Call([], cl, []), Quiet())
  }

  lemma NothingToFix()
    ensures RegFixes(Before(5), LiveOf(5), INFO, CSRS) == [] && SlotFixes(Before(5), LiveOf(5), INFO, 1) == []
  {
    hide RegFixes, SlotFixes, FixedOnce, KindOf;
    var s := Before(5);
    RegFixesListed(s, LiveOf(5), INFO, CSRS);
    SlotFixesListed(s, LiveOf(5), INFO, 1);
    assert forall n :: 0 <= n < GPRS ==> !NeedsFix(s, LiveOf(5), INFO, n);
    NoneListed(RegFixes(s, LiveOf(5), INFO, CSRS));
    NoneListed(SlotFixes(s, LiveOf(5), INFO, 1));
  }

  /** Nothing is rebased; RBX is read back from slot 0. */
  lemma PlanOfTheCall(i: Instr)
    requires i.Call?
    ensures PlanFor(Before(5), i, LiveOf(5), INFO) == Ok(Plan(false, Reloads(Before(5), LiveOf(5), INFO, CSRS), []))
  {
    hide RegFixes, SlotFixes, Reloads, FreeRegs, FixRegs, FixSlots, LiveOf;
    NothingToFix();
  }

  lemma NoneListed(fs: seq<(nat, Kind)>)
    requires forall k :: 0 <= k < |fs| ==> KindOf(fs, fs[k].0).None?
    ensures fs == []
  {
    var k := |fs| - 1;
    assert k >= 0 ==> KindOf(fs, fs[k].0).None?;
  }

  lemma CallSymbolic(cl: seq<nat>, t: Trip)
    requires CallerSaved(cl) && t.Valid()
    ensures TheCall(cl, t).Shaped() && IdealCall(t.Point(4).m, Call([], cl, []), Quiet()) == t.Point(5).m
  {
    var m, i := t.Point(4).m, Call([], cl, []);
    assert IdealCall(m, i, Quiet()).regs == t.Point(5).m.regs;
  }

  lemma CallWords(cl: seq<nat>, t: Trip)
    requires CallerSaved(cl) && t.Valid()
    ensures ValidFixes(Reloads(Before(5), LiveOf(5), INFO, CSRS), 1)
    ensures AfterCall(t.Point(4).b, INFO, Call([], cl, []), Quiet(), 0,
      Plan(false, Reloads(Before(5), LiveOf(5), INFO, CSRS), []))
      == t.Point(5).b
  {
    hide NeedsFix, Reloads;
    var b, i := t.Point(4).b, Call([], cl, []);
    var b2 := BitCall(b, INFO.roots, i, Quiet(), 0);
    assert b2.regs == Words(0, 0, t.prevBits, t.v).regs && b2.slots == [t.v];
    assert W(0) == 0 && b2 == Words(0, 0, t.prevBits, t.v);
    ReloadsEffect(Before(5), LiveOf(5), INFO, CSRS, b2, false);
    var c := Run(b2, false, Reloads(Before(5), LiveOf(5), INFO, CSRS)).0;
    forall n | 0 <= n < GPRS
      ensures c.regs[n] == t.Point(5).b.regs[n]
    {
      assert NeedsReload(Before(5), LiveOf(5), INFO, n) ==> n == RBX;
      assert NeedsReload(Before(5), LiveOf(5), INFO, RBX) && CSRS[0] == RBX;
    }
    assert c.regs == t.Point(5).b.regs;
  }

  lemma CallCarried(cl: seq<nat>, t: Trip)
    requires CallerSaved(cl) && t.Valid()
    ensures Carried(TheCall(cl, t), t.Point(5).b)
  {
    hide PlanFor, AfterCall, Reloads, Before, LiveOf, Trip.Point, CallSite.Shaped, Step, BitCall, Run;
    CallSymbolic(cl, t);
    PlanOfTheCall(Call([], cl, []));
    CallWords(cl, t);
    var plan := Plan(false, Reloads(Before(5), LiveOf(5), INFO, CSRS), []);
    assert Executed(TheCall(cl, t), plan, t.Point(5).b);
  }

  lemma CallOwed(cl: seq<nat>, t: Trip)
    requires CallerSaved(cl) && t.Valid()
    ensures TheCall(cl, t).Shaped() && Owed(TheCall(cl, t))
  {
    CallSymbolic(cl, t);
    var c := TheCall(cl, t);
    assert forall n :: 0 <= n < GPRS && Survives(c, n) ==> n == RBX;
    assert W(0) == 0;
  }

  ghost predicate Moves(cl: seq<nat>, c: Config, ch: Choice, d: Config) {
    && Placed(Example(cl), Found(), c) && Placed(Example(cl), Found(), d)
    && Fair(Example(cl), Found(), c, ch) && Steps(Example(cl), Found(), c, ch, d)
  }

  lemma PlacedPoint(cl: seq<nat>, t: Trip, k: nat)
    requires CallerSaved(cl) && k <= 6
    ensures Placed(Example(cl), Found(), t.Point(k)) && t.Point(k).blk == 0 && t.Point(k).idx == k
      && t.Point(k).base == 0
  {
    ExampleValid(cl);
  }

  lemma CallStep(cl: seq<nat>, t: Trip)
    requires CallerSaved(cl) && t.Valid()
    ensures Moves(cl, t.Point(4), Quiet(), t.Point(5))
  {
    hide Before, LiveOf, ChoiceOk, Owed, Carried, IdealCall, Placed, Trip.Point, CallSite.Shaped, RootsAdjusted, Sized,
      StateAt, LiveAt, Premises, Provenance;
    ExampleValid(cl);
    ExamplePoints(cl, 4);
    ExamplePoints(cl, 5);
    PlacedPoint(cl, t, 4);
    PlacedPoint(cl, t, 5);
    CallSymbolic(cl, t);
    CallCarried(cl, t);
    CallOwed(cl, t);
    CallChosen(cl, t);
    assert Site(Example(cl), Found(), t.Point(4), Quiet()) == TheCall(cl, t);
  }

  lemma TripStep(cl: seq<nat>, t: Trip, k: nat)
    requires CallerSaved(cl) && t.Valid() && k < 6
    ensures Moves(cl, t.Point(k), ChoiceOf(t, k), t.Point(k + 1))
  {
    hide Before, LiveOf, ChoiceOk, Placed, Trip.Point, IdealStep, BitStep, Premises, Provenance, Sized, StateAt, LiveAt,
      Site, Owed, Carried, RootsAdjusted, IdealCall;
    if k == 4 {
      CallStep(cl, t);
    } else {
      ExampleValid(cl);
      ExamplePoints(cl, k);
      PlacedPoint(cl, t, k);
      PlacedPoint(cl, t, k + 1);
      TripPremises(cl, t, k);
      if k == 0 { FirstStep(t); }
      else if k == 5 { LastStep(t); }
      else { MiddleStep(t, Loop(cl)[k], k); }
    }
  }

  lemma CallChosen(cl: seq<nat>, t: Trip)
    requires CallerSaved(cl) && t.Valid()
    ensures ChoiceOk(t.Point(4).m, Call([], cl, []), Quiet(), 0) && Provenance(t.Point(4).m, Call([], cl, []), Quiet())
    ensures RootsAdjusted(t.Point(4).m, t.Point(4).b, [false], Quiet())
  {
  }

  lemma TripPremises(cl: seq<nat>, t: Trip, k: nat)
    requires CallerSaved(cl) && t.Valid() && k < 6 && k != 4
    ensures ValidInstr(Loop(cl)[k], 1)
    ensures Premises(Before(k), t.Point(k).m, Loop(cl)[k], ChoiceOf(t, k))
  {
  }

  const FIRST := Trip(1, Undef, 0, Undef, 0)
  const SECOND := Trip(2, Lin(0, 0, 1), 1, Undef, 1)

  function PointOf(k: nat): Config
    requires k < 13
  {
    if k < 7 then FIRST.Point(k) else SECOND.Point(k - 7)
  }

  function RunOf(): (cs: seq<Config>)
    ensures |cs| == 13 && forall k :: 0 <= k < 13 ==> cs[k] == PointOf(k)
  {
    seq(13, k requires 0 <= k < 13 => PointOf(k))
  }

  function ChoiceAt(k: nat): Choice
    requires k < 12
  {
    if k < 6 then ChoiceOf(FIRST, k) else if k == 6 then Quiet() else ChoiceOf(SECOND, k - 7)
  }

  function ChoicesOf(): (chs: seq<Choice>)
    ensures |chs| == 12 && forall k :: 0 <= k < 12 ==> chs[k] == ChoiceAt(k)
  {
    seq(12, k requires 0 <= k < 12 => ChoiceAt(k))
  }

  lemma Turn(cl: seq<nat>)
    requires CallerSaved(cl)
    ensures Moves(cl, FIRST.Point(6), Quiet(), SECOND.Point(0))
  {
    ExampleValid(cl);
  }

  lemma ExampleStarts(cl: seq<nat>)
    requires CallerSaved(cl)
    ensures Starts(Example(cl), Found(), FIRST.Point(0))
  {
    ExampleValid(cl);
    assert W(0) == 0;
  }

  lemma ExampleRuns(cl: seq<nat>)
    requires CallerSaved(cl)
    ensures IsRun(Example(cl), Found(), RunOf(), ChoicesOf())
  {
    hide Steps, Fair, Starts, Placed, Trip.Point, ChoiceOf, RunOf, ChoicesOf;
    var cs, chs := RunOf(), ChoicesOf();
    ExampleStarts(cl);
    forall k | 0 <= k < 12
      ensures RunsAt(Example(cl), Found(), cs, chs, k)
    {
      if k < 6 { TripStep(cl, FIRST, k); }
      else if k == 6 { Turn(cl); }
      else { TripStep(cl, SECOND, k - 7); }
    }
  }

  /** A stable analysis, a fair run on which the stack never moves -- and after
      the second call RBX, which is live, holds 2 where the program meant 1. */
  lemma ReusedGroupsBreakTheRepair(cl: seq<nat>)
    requires CallerSaved(cl)
    ensures var p, a, c := Example(cl), Found(), RunOf()[12];
      && Sized(p, a) && Analyzed(p, a) && Unreported(p, a) && IsRun(p, a, RunOf(), ChoicesOf())
      && R(RBX) in LiveAt(p, a, c.blk, c.idx) && c.m.regs[RBX] == Lin(0, 0, 1) && c.b.regs[RBX] == 2
      && !Inv(p, a, c) && !FreshGroups(p, a)
  {
    hide Analyzed, IsRun, Sized, Correct, Unreported;
    var p, a, c := Example(cl), Found(), RunOf()[12];
    ExampleAnalyzed(cl);
    NothingReported(cl);
    ExampleRuns(cl);
    ExamplePoints(cl, 5);
    assert c == PointOf(12) == SECOND.Point(5);
    WrongWord(c.m, c.b, LiveOf(5));
    if FreshGroups(p, a) { EveryRunIsSafe(p, a, RunOf(), ChoicesOf(), 12); }
  }

  lemma WrongWord(m: Ideal, b: Bits, live: set<Loc>)
    requires m.Valid(1) && b.Valid(1) && R(RBX) in live && m.regs[RBX] == Lin(0, 0, 1) && b.regs[RBX] == 2
    ensures !Correct(m, b, 0, live, [false])
  {
    assert Matters(m, R(RBX), live, [false]) && !CorrectAt(m, b, 0, R(RBX));
  }
}
