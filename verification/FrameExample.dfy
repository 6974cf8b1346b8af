/** A function whose frame address outlives a call:

      rbx := lea 8(rbp, rax)      ; moves with the stack, offset unknown
      call                        ; may copy the stack anywhere
      use rbx

    Every premise of the theorem on whole runs holds of it, wherever the stack
    is and however far the call moves it, so the theorem speaks of real runs. */
module FrameExample {
  import opened Options
  import opened FrameLattice
  import opened FrameTransfer
  import opened FrameMachine
  import opened FrameGroups
  import opened FrameStep
  import opened FrameRepair
  import opened FrameCall
  import opened FrameRestore
  import opened FrameProgram
  import opened FrameRun
  import opened FrameCopies

  const ADDRESS := Lea(Gpr(RBX), Some(Frame(RBP)), 1, Some(RAX), 8, true)

  function Body(cl: seq<nat>): (code: seq<Instr>)
    ensures |code| == 3
  {
    [ADDRESS, Call([], cl, []), USE]
  }

  const SHAPE := FrameInfo([], {}, 16, true)

  function Moving(cl: seq<nat>): Program { Program([Block(Body(cl), [])], SHAPE) }

  /** RBX, the other clobbered registers; the rest is plain. */
  function Regs(b: Val, o: Val): (t: AState)
    ensures t.Valid(0)
  {
    AState(seq(GPRS, n requires n >= 0 => if n == RBX then b else if n < 10 then o else PLAIN), [])
  }

  const SHIFTED := Of(Shifts)

  /** The abstract state before instruction k. */
  function Known(k: nat): (t: AState)
    ensures t.Valid(0)
  {
    if k == 0 then Regs(PLAIN, PLAIN) else if k == 1 then Regs(SHIFTED, PLAIN) else Regs(SHIFTED, UNSET)
  }

  function Needed(k: nat): set<Loc> { if k == 0 then {R(0)} else if k < 3 then {R(RBX)} else {} }

  function Facts(): Analysis { Analysis([0], [Known(0)], [Known(3)], [true], [Needed(0)]) }

  lemma MovingValid(cl: seq<nat>)
    requires CallerSaved(cl)
    ensures Moving(cl).Valid() && Moving(cl).Code(0) == Body(cl) && Sized(Moving(cl), Facts())
  {
  }

  lemma KnownSteps(cl: seq<nat>, k: nat)
    requires CallerSaved(cl) && k < 3
    ensures ValidInstr(Body(cl)[k], 0) && Step(Known(k), Body(cl)[k]) == Known(k + 1)
  {
    var s, i := Known(k), Body(cl)[k];
    assert [Gpr(RBX)][..0] == [];
    if k == 0 {
      assert InvalidateAll(s, [Gpr(RBX)]) == s;
      assert Value(s, ADDRESS) == SHIFTED;
      assert WriteAll(s, [Gpr(RBX)], SHIFTED).units == Known(1).units;
    } else if k == 1 {
      assert StepCall(s, cl, []).units == Known(2).units;
    }
  }

  lemma {:induction false} KnownThrough(cl: seq<nat>, k: nat)
    requires CallerSaved(cl) && k <= 3
    ensures ValidCode(Body(cl)[..k], 0) && Transfer(Known(0), Body(cl)[..k]) == Known(k)
  {
    hide Step, Known, Body;
    MovingValid(cl);
    if k > 0 {
      KnownThrough(cl, k - 1);
      assert Body(cl)[..k][..k - 1] == Body(cl)[..k - 1];
      KnownSteps(cl, k - 1);
    }
  }

  lemma NeededSteps(cl: seq<nat>, k: nat)
    requires CallerSaved(cl) && k < 3
    ensures LiveBefore(Body(cl)[k], Needed(k + 1)) == Needed(k)
  {
    assert RegLocs([Gpr(RBX)]) == {R(RBX)} && RegLocs([]) == {};
    assert RegLocs([Frame(RBP), RAX]) == {R(0)};
    if k == 1 {
      assert RBX !in cl;
    } else if k == 2 {
      assert Inputs(USE) == [Gpr(RBX)];
    } else {
      assert Inputs(ADDRESS) == [Frame(RBP), RAX];
    }
  }

  lemma {:induction false} NeededThrough(cl: seq<nat>, k: nat)
    requires CallerSaved(cl) && k <= 3
    ensures LiveThrough(Body(cl)[k..], {}) == Needed(k)
    decreases 3 - k
  {
    if k == 3 {
      assert Body(cl)[3..] == [];
    } else {
      hide Body, Needed;
      NeededThrough(cl, k + 1);
      assert Body(cl)[k..][1..] == Body(cl)[k + 1..];
      NeededSteps(cl, k);
    }
  }

  lemma EntryMerge(p: Program, outs: seq<AState>, seen: seq<bool>)
    ensures Tidy(Known(0)) && Tidy(Known(3)) && InitState(0) == Known(0)
  {
    assert InitState(0).units == Known(0).units;
  }

  lemma MovingAnalyzed(cl: seq<nat>)
    requires CallerSaved(cl)
    ensures Analyzed(Moving(cl), Facts())
  {
    hide Step, Body, Known, Join;
    var p, a := Moving(cl), Facts();
    MovingValid(cl);
    EntryMerge(p, a.outs, a.seen);
    KnownThrough(cl, 3);
    assert Body(cl)[..3] == Body(cl) && Body(cl)[0..] == Body(cl);
    NeededThrough(cl, 0);
    assert LiveOut(p, a.live, 0) == {};
    assert JoinFrom(p, a.outs, a.seen, 0, 0) == InitState(0);
    assert JoinFrom(p, a.outs, a.seen, 0, 1) == Known(0);
  }

  lemma MovingPoints(cl: seq<nat>, k: nat)
    requires CallerSaved(cl) && k <= 3
    ensures Sized(Moving(cl), Facts()) && k <= |Moving(cl).Code(0)|
    ensures StateAt(Moving(cl), Facts(), 0, k) == Known(k) && LiveAt(Moving(cl), Facts(), 0, k) == Needed(k)
  {
    hide Step, Known;
    MovingValid(cl);
    KnownThrough(cl, k);
    NeededThrough(cl, k);
    assert LiveOut(Moving(cl), Facts().live, 0) == {};
  }

  lemma KnownFine(cl: seq<nat>, k: nat)
    requires CallerSaved(cl) && k < 3
    ensures ValidInstr(Body(cl)[k], 0) && FreshGroup(Known(k), Body(cl)[k])
    ensures !Reported(Known(k + 1), Needed(k + 1), SHAPE)
  {
  }

  lemma MovingUnreported(cl: seq<nat>)
    requires CallerSaved(cl)
    ensures FreshGroups(Moving(cl), Facts()) && Unreported(Moving(cl), Facts())
  {
    hide StateAt, LiveAt, Known, Needed, FreshGroup, Reported;
    var p, a := Moving(cl), Facts();
    MovingValid(cl);
    forall b, k | b in a.order && 0 <= b < |p.blocks| && 0 <= k < |p.Code(b)|
      ensures FreshGroup(StateAt(p, a, b, k), p.Code(b)[k])
      ensures p.Code(b)[k].Call? ==> !Reported(StateAt(p, a, b, k + 1), LiveAt(p, a, b, k + 1), p.fi)
    {
      MovingPoints(cl, k);
      MovingPoints(cl, k + 1);
      KnownFine(cl, k);
    }
  }

  // ----- a run -----

  /** RAX and RBX; everything else is undefined. */
  function Syms(a: Sym, b: Sym): (m: Ideal)
    ensures m.Valid(0)
  {
    Ideal(seq(GPRS, n requires n >= 0 => if n == 0 then a else if n == RBX then b else Undef), [], 32, 0)
  }

  function Bytes(a: int, b: int, base: int): (w: Bits)
    ensures w.Valid(0)
  {
    Bits(seq(GPRS, n requires n >= 0 => if n == 0 then a else if n == RBX then b else 0), [], W(base + 32), W(base), 0)
  }

  const INDEX := 5
  const RESULT := Lin(1, 0, 32 + INDEX + 8)

  function Away(delta: int): Choice { Quiet().(delta := delta) }

  function At0(base: int): Config { Config(0, 0, Syms(Lin(0, 0, INDEX), Undef), Bytes(INDEX, 0, base), base) }

  function At1(base: int): Config {
    Config(0, 1, Syms(Lin(0, 0, INDEX), RESULT), Bytes(INDEX, W(base + 45), base), base)
  }

  lemma PointPlaced(cl: seq<nat>, c: Config)
    requires CallerSaved(cl) && c.blk == 0 && c.idx <= 3 && c.m.Valid(0) && c.b.Valid(0)
    ensures Placed(Moving(cl), Facts(), c)
  {
    MovingValid(cl);
  }

  lemma MovingStarts(cl: seq<nat>, base: int)
    requires CallerSaved(cl)
    ensures Starts(Moving(cl), Facts(), At0(base))
  {
    hide Known, Needed;
    PointPlaced(cl, At0(base));
  }

  lemma AddressChosen(s: AState, m: Ideal, base: int)
    requires s.Valid(0) && m.Valid(0)
    ensures ChoiceOk(m, ADDRESS, Quiet(), base) && Premises(s, m, ADDRESS, Quiet())
  {
  }

  lemma AddressResult(base: int)
    ensures IdealResult(At0(base).m, ADDRESS, Quiet()) == RESULT
  {
    assert IdealResult(At0(base).m, ADDRESS, Quiet()) == Combine(Lin(1, 0, 32), 1, Lin(0, 0, INDEX), 8);
  }

  lemma AddressSymbolic(base: int)
    ensures IdealStep(At0(base).m, ADDRESS, Quiet()) == At1(base).m
  {
    AddressResult(base);
    hide Bytes, W, IdealResult;
    assert IdealStep(At0(base).m, ADDRESS, Quiet()).regs == At1(base).m.regs;
  }

  lemma AddressWord(base: int)
    ensures BitStep(At0(base).b, ADDRESS, Quiet()) == At1(base).b
  {
    hide Syms;
    var b := At0(base).b;
    assert BitResult(b, ADDRESS, Quiet()) == W(b.rbp + INDEX + 8);
    WrapOnce(base);
    hide W;
    assert BitStep(b, ADDRESS, Quiet()).regs == At1(base).b.regs;
  }

  lemma WrapOnce(base: int)
    ensures W(W(base + 32) + INDEX + 8) == W(base + 45)
  {
  }

  lemma FirstMoves(cl: seq<nat>, base: int)
    requires CallerSaved(cl)
    ensures Fair(Moving(cl), Facts(), At0(base), Quiet()) && Steps(Moving(cl), Facts(), At0(base), Quiet(), At1(base))
  {
    hide Known, Needed, StateAt, LiveAt, ChoiceOk, Premises, IdealStep, BitStep, Syms, Bytes, Site, Owed, Carried,
      RootsAdjusted, Provenance, IdealCall;
    MovingValid(cl);
    MovingPoints(cl, 0);
    PointPlaced(cl, At0(base));
    AddressChosen(Known(0), At0(base).m, base);
    AddressSymbolic(base);
    AddressWord(base);
  }

  // ----- the call -----

  ghost function Called(cl: seq<nat>, base: int, delta: int): CallSite {
    CallSite(Known(2), At1(base).m, At1(base).b, base, Needed(2), SHAPE, Call([], cl, []), Away(delta))
  }

  lemma {:induction false} AllShift(rs: seq<nat>)
    requires forall k :: 0 <= k < |rs| ==> rs[k] < GPRS
    ensures Encodable(RegFixes(Known(2), Needed(2), SHAPE, rs))
  {
    if rs != [] { AllShift(rs[..|rs| - 1]); }
  }

  lemma {:induction false} AllFree(cl: seq<nat>, rs: seq<nat>)
    requires CallerSaved(cl) && forall k :: 0 <= k < |rs| ==> rs[k] < 10 && rs[k] != RBX
    ensures FreeRegs(Call([], cl, []), Needed(2), rs) == rs
  {
    if rs != [] {
      AllFree(cl, rs[..|rs| - 1]);
      assert rs[..|rs| - 1] + [rs[|rs| - 1]] == rs;
    }
  }

  lemma CallPlanned(cl: seq<nat>) returns (plan: Plan)
    requires CallerSaved(cl)
    ensures PlanFor(Known(2), Call([], cl, []), Needed(2), SHAPE) == Ok(plan)
  {
    AllShift(CSRS);
    AllFree(cl, SCRATCH);
    hide RegFixes, SlotFixes, Reloads, FreeRegs, FixRegs, FixSlots, Known, Needed, Encodable, AnyInexact, AnyMaybe;
    assert SlotFixes(Known(2), Needed(2), SHAPE, 0) == [] by { NoSlots(Known(2), Needed(2)); }
    assert Encodable([]) by { NoneEncodable(); }
    plan := PlanFor(Known(2), Call([], cl, []), Needed(2), SHAPE).value;
  }

  lemma NoSlots(s: AState, live: set<Loc>)
    requires s.Valid(0)
    ensures SlotFixes(s, live, SHAPE, 0) == []
  {
  }

  lemma NoneEncodable()
    ensures Encodable([])
  {
  }

  lemma CalledOwed(cl: seq<nat>, base: int, delta: int)
    requires CallerSaved(cl)
    ensures var e := Called(cl, base, delta);
      && e.Shaped() && Owed(e) && IdealCall(e.m, e.i, e.ch) == Syms(Undef, RESULT)
      && ChoiceOk(e.m, e.i, e.ch, base) && Provenance(e.m, e.i, e.ch) && RootsAdjusted(e.m, e.b, [], e.ch)
  {
    var e := Called(cl, base, delta);
    assert forall n :: 0 <= n < GPRS ==> e.s.units[n] in {SHIFTED, UNSET, PLAIN};
    assert e.Shaped();
    assert IdealCall(e.m, e.i, e.ch).regs == Syms(Undef, RESULT).regs;
    assert forall n :: 0 <= n < GPRS && Survives(e, n) ==> n == RBX;
    assert Coef(RESULT) == 1;
  }

  lemma CallMoves(cl: seq<nat>, base: int, delta: int) returns (f: Bits)
    requires CallerSaved(cl)
    ensures var c, d := At1(base), Config(0, 2, Syms(Undef, RESULT), f, base + delta);
      && f.Valid(0) && Fair(Moving(cl), Facts(), c, Away(delta)) && Steps(Moving(cl), Facts(), c, Away(delta), d)
  {
    hide Known, Needed, StateAt, LiveAt, Syms, Bytes, Owed, RootsAdjusted, Provenance, IdealCall, PlanFor, AfterCall,
      Premises, ChoiceOk, CallSite.Shaped, Repairs;
    var e := Called(cl, base, delta);
    MovingValid(cl);
    MovingPoints(cl, 1);
    MovingPoints(cl, 2);
    PointPlaced(cl, At1(base));
    CalledOwed(cl, base, delta);
    var plan := CallPlanned(cl);
    var r, ran := PlanRepairs(e, plan);
    f := AfterCall(e.b, e.fi, e.i, e.ch, base + delta, plan);
    assert Executed(e, plan, f);
    assert Site(Moving(cl), Facts(), At1(base), Away(delta)) == e;
  }

  lemma UseMoves(cl: seq<nat>, f: Bits, base: int)
    requires CallerSaved(cl) && f.Valid(0)
    ensures var c, d := Config(0, 2, Syms(Undef, RESULT), f, base), Config(0, 3, Syms(Undef, RESULT), f, base);
      Fair(Moving(cl), Facts(), c, Quiet()) && Steps(Moving(cl), Facts(), c, Quiet(), d)
  {
    var c := Config(0, 2, Syms(Undef, RESULT), f, base);
    hide Known, Needed, StateAt, LiveAt, Site, Owed, Carried;
    MovingValid(cl);
    MovingPoints(cl, 2);
    PointPlaced(cl, c);
  }

  lemma RbxNeeded()
    ensures R(RBX) in Needed(2)
  {
  }

  lemma MovedWord(f: Bits, base: int, live: set<Loc>)
    requires f.Valid(0) && R(RBX) in live && Correct(Syms(Undef, RESULT), f, base, live, [])
    ensures f.regs[RBX] == W(base + 45)
  {
    hide W;
    var m := Syms(Undef, RESULT);
    assert Matters(m, R(RBX), live, []) && CorrectAt(m, f, base, R(RBX));
    assert Coef(RESULT) * base + RESULT.off == base + 45;
  }

  /** Wherever the stack is and wherever the call moves it, there is a run on
      which all premises hold; after the call RBX holds the moved address. */
  lemma MovedRun(cl: seq<nat>, base: int, delta: int) returns (cs: seq<Config>, chs: seq<Choice>)
    requires CallerSaved(cl)
    ensures var p, a := Moving(cl), Facts();
      Analyzed(p, a) && FreshGroups(p, a) && Unreported(p, a) && IsRun(p, a, cs, chs) && |cs| == 4
    ensures cs[0].base == base && cs[3].base == base + delta && R(RBX) in LiveAt(Moving(cl), Facts(), 0, 2)
    ensures |cs[1].b.regs| == GPRS && cs[1].b.regs[RBX] == W(base + 45)
    ensures |cs[2].b.regs| == GPRS && cs[2].b.regs[RBX] == W(base + delta + 45)
  {
    hide Analyzed, FreshGroups, Unreported, Fair, Steps, Starts, Known, Needed, StateAt, LiveAt;
    MovingAnalyzed(cl);
    MovingUnreported(cl);
    MovingStarts(cl, base);
    FirstMoves(cl, base);
    var f := CallMoves(cl, base, delta);
    UseMoves(cl, f, base + delta);
    var m := Syms(Undef, RESULT);
    cs := [At0(base), At1(base), Config(0, 2, m, f, base + delta), Config(0, 3, m, f, base + delta)];
    chs := [Quiet(), Away(delta), Quiet()];
    PointPlaced(cl, cs[1]);
    PointPlaced(cl, cs[2]);
    PointPlaced(cl, cs[3]);
    EveryRunIsSafe(Moving(cl), Facts(), cs, chs, 2);
    MovingPoints(cl, 2);
    RbxNeeded();
    MovedWord(f, base + delta, Needed(2));
  }
}
