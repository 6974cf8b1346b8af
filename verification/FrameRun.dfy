/** Whole runs of a repaired machine function on a stack that every call may move. */
module FrameRun {
  import opened Options
  import opened FrameTransfer
  import opened FrameMachine
  import opened FrameSound
  import opened FrameGroups
  import opened FrameStep
  import opened FrameRepair
  import opened FrameCall
  import opened FrameRestore
  import opened FrameProgram

  /** What the pass has computed when it emits repairs. */
  datatype Analysis = Analysis(order: seq<nat>, ins: seq<AState>, outs: seq<AState>, seen: seq<bool>,
    live: seq<set<Loc>>)

  /** One entry state and one live set per block. */
  ghost predicate Sized(p: Program, a: Analysis) { p.Valid() && ValidStates(p, a.ins) && |a.live| == |p.blocks| }

  ghost predicate Analyzed(p: Program, a: Analysis) {
    p.Valid() && Covers(p, a.order) && Stable(p, a.order, a.ins, a.outs, a.seen) && LiveStable(p, a.order, a.live)
  }

  /** A point of a run: instruction `idx` of block `blk` is next. */
  datatype Config = Config(blk: nat, idx: nat, m: Ideal, b: Bits, base: int)

  ghost predicate Placed(p: Program, a: Analysis, c: Config) {
    && Sized(p, a) && c.blk < |p.blocks| && c.blk in a.order && c.idx <= |p.Code(c.blk)|
    && c.m.Valid(|p.fi.roots|) && c.b.Valid(|p.fi.roots|)
  }

  ghost function StateAt(p: Program, a: Analysis, blk: nat, idx: nat): (s: AState)
    requires Sized(p, a) && blk < |p.blocks| && idx <= |p.Code(blk)|
    ensures s.Valid(|p.fi.roots|)
  {
    Transfer(a.ins[blk], p.Code(blk)[..idx])
  }

  ghost function LiveAt(p: Program, a: Analysis, blk: nat, idx: nat): set<Loc>
    requires Sized(p, a) && blk < |p.blocks| && idx <= |p.Code(blk)|
  {
    LiveThrough(p.Code(blk)[idx..], LiveOut(p, a.live, blk))
  }

  /** The call at a configuration, with what the analysis says after it. */
  ghost function Site(p: Program, a: Analysis, c: Config, ch: Choice): CallSite
    requires Placed(p, a, c) && c.idx < |p.Code(c.blk)|
  {
    CallSite(StateAt(p, a, c.blk, c.idx + 1), c.m, c.b, c.base, LiveAt(p, a, c.blk, c.idx + 1), p.fi,
      p.Code(c.blk)[c.idx], ch)
  }

  /** One step of the repaired function. */
  ghost predicate Steps(p: Program, a: Analysis, c: Config, ch: Choice, d: Config) {
    && Placed(p, a, c)
    && if c.idx == |p.Code(c.blk)| then
         ch.next < |p.blocks[c.blk].succs| && d == Config(p.blocks[c.blk].succs[ch.next], 0, c.m, c.b, c.base)
       else
         var i := p.Code(c.blk)[c.idx];
         && d.blk == c.blk && d.idx == c.idx + 1
         && |ch.syms| > |Defs(i)| && |ch.junk| == GPRS
         && if !i.Call? then d.base == c.base && d.m == IdealStep(c.m, i, ch) && d.b == BitStep(c.b, i, ch)
            else
              && |ch.syms| > |i.results| && d.base == c.base + ch.delta && d.m == IdealCall(c.m, i, ch)
              && Carried(Site(p, a, c, ch), d.b)
  }

  /** `f` is what the call and its emitted repair leave. */
  ghost predicate Carried(e: CallSite, f: Bits) {
    && e.Shaped()
    && exists plan :: PlanFor(e.s, e.i, e.live, e.fi) == Ok(plan) && Executed(e, plan, f)
  }

  ghost predicate Executed(e: CallSite, plan: Plan, f: Bits)
    requires e.Shaped()
  {
    && ValidFixes(plan.reloads, |e.fi.roots|) && ValidFixes(plan.body, |e.fi.roots|)
    && f == AfterCall(e.b, e.fi, e.i, e.ch, e.base + e.ch.delta, plan)
  }

  /** What a step owes to the world outside the pass. */
  ghost predicate Fair(p: Program, a: Analysis, c: Config, ch: Choice) {
    Placed(p, a, c) && (c.idx < |p.Code(c.blk)| ==>
      var i := p.Code(c.blk)[c.idx];
      var s := StateAt(p, a, c.blk, c.idx);
      && ChoiceOk(c.m, i, ch, c.base)
      && if !i.Call? then Premises(s, c.m, i, ch)
         else
           && Provenance(c.m, i, ch)
           && (forall n :: 0 <= n < GPRS && n !in CSRS ==> n in i.clobbers || n in i.results)
           && RootsAdjusted(c.m, c.b, p.fi.roots, ch)
           && (Site(p, a, c, ch).Shaped() ==> Owed(Site(p, a, c, ch))))
  }

  /** Every copy-group name is started afresh, or carried only by copies of the same word. */
  ghost predicate FreshGroups(p: Program, a: Analysis) {
    Sized(p, a) && forall b, k :: b in a.order && 0 <= b < |p.blocks| && 0 <= k < |p.Code(b)| ==>
      FreshGroup(StateAt(p, a, b, k), p.Code(b)[k])
  }

  /** The pass reports nothing: no live word is frame-derived beyond repair. */
  ghost predicate Unreported(p: Program, a: Analysis) {
    Sized(p, a) && forall b, k :: b in a.order && 0 <= b < |p.blocks| && 0 <= k < |p.Code(b)| && p.Code(b)[k].Call? ==>
      !Reported(StateAt(p, a, b, k + 1), LiveAt(p, a, b, k + 1), p.fi)
  }

  /** The invariant of every run. */
  ghost predicate Inv(p: Program, a: Analysis, c: Config) {
    && Placed(p, a, c)
    && Sound(StateAt(p, a, c.blk, c.idx), c.m)
    && Correct(c.m, c.b, c.base, LiveAt(p, a, c.blk, c.idx), p.fi.roots)
  }

  lemma StateAtNext(p: Program, a: Analysis, blk: nat, idx: nat)
    requires Sized(p, a) && blk < |p.blocks| && idx < |p.Code(blk)|
    ensures StateAt(p, a, blk, idx + 1) == Step(StateAt(p, a, blk, idx), p.Code(blk)[idx])
    ensures LiveAt(p, a, blk, idx) == LiveBefore(p.Code(blk)[idx], LiveAt(p, a, blk, idx + 1))
    ensures Tidy(StateAt(p, a, blk, idx + 1))
  {
    var code := p.Code(blk);
    assert code[..idx + 1][..idx] == code[..idx];
    assert code[idx..][1..] == code[idx + 1..];
    TransferTidy(a.ins[blk], code[..idx + 1]);
  }

  /** Along an edge the invariant carries over to the successor's entry. */
  lemma EdgeKeepsInv(p: Program, a: Analysis, c: Config, k: nat)
    requires Analyzed(p, a) && Inv(p, a, c) && c.idx == |p.Code(c.blk)| && k < |p.blocks[c.blk].succs|
    ensures Inv(p, a, Config(p.blocks[c.blk].succs[k], 0, c.m, c.b, c.base))
  {
    var t := p.blocks[c.blk].succs[k];
    var code := p.Code(c.blk);
    assert code[..c.idx] == code && code[c.idx..] == [] && p.Code(t)[..0] == [] && p.Code(t)[0..] == p.Code(t);
    JoinFromSound(p, a.outs, a.seen, t, |p.blocks|, c.blk, c.m);
    assert LiveAt(p, a, t, 0) == a.live[t] <= LiveAt(p, a, c.blk, c.idx);
    CorrectShrinks(c.m, c.b, c.base, LiveAt(p, a, c.blk, c.idx), LiveAt(p, a, t, 0), p.fi.roots);
  }

  lemma SiteReady(p: Program, a: Analysis, c: Config, ch: Choice)
    requires Inv(p, a, c) && c.idx < |p.Code(c.blk)| && p.Code(c.blk)[c.idx].Call?
    requires Fair(p, a, c, ch)
    ensures Site(p, a, c, ch).Shaped() && Site(p, a, c, ch).Sane() && Owed(Site(p, a, c, ch))
    ensures Sound(StateAt(p, a, c.blk, c.idx + 1), Site(p, a, c, ch).After())
  {
    hide Owed, Correct, RootsAdjusted, Provenance, Sound, IdealCall, Step, Transfer, LiveThrough, CSRS, LiveBefore;
    StateAtNext(p, a, c.blk, c.idx);
    SiteSane(StateAt(p, a, c.blk, c.idx), Site(p, a, c, ch));
  }

  lemma SiteSane(s: AState, e: CallSite)
    requires e.Shaped() && Sound(s, e.m) && e.s == Step(s, e.i) && Provenance(e.m, e.i, e.ch)
    requires Correct(e.m, e.b, e.base, LiveBefore(e.i, e.live), e.fi.roots) && RootsAdjusted(e.m, e.b, e.fi.roots, e.ch)
    requires forall n :: 0 <= n < GPRS && n !in CSRS ==> n in e.i.clobbers || n in e.i.results
    ensures e.Sane()
  {
    hide Correct, RootsAdjusted, Provenance;
    CallSound(s, e.m, e.i, e.ch);
  }

  /** Running the emitted repair of one call restores agreement. */
  lemma CarriedCall(e: CallSite, f: Bits)
    requires e.Shaped() && e.Sane() && Owed(e) && !Reported(e.s, e.live, e.fi) && Carried(e, f)
    ensures f.Valid(|e.fi.roots|) && Correct(e.After(), f, e.base + e.ch.delta, e.live, e.fi.roots)
  {
    hide Sound, Correct, Owed, PlanFor, AfterCall, Reported;
    var plan :| PlanFor(e.s, e.i, e.live, e.fi) == Ok(plan) && Executed(e, plan, f);
    var r, ran := PlanRepairs(e, plan);
    RepairKeepsCorrect(e, plan.save, r, f, ran);
  }

  lemma CallKeepsInv(p: Program, a: Analysis, c: Config, ch: Choice, d: Config)
    requires Inv(p, a, c) && c.idx < |p.Code(c.blk)| && p.Code(c.blk)[c.idx].Call?
    requires Fair(p, a, c, ch) && Steps(p, a, c, ch, d)
    requires !Reported(StateAt(p, a, c.blk, c.idx + 1), LiveAt(p, a, c.blk, c.idx + 1), p.fi)
    ensures Inv(p, a, d)
  {
    hide Sound, Correct, Owed, Premises, Provenance, Reported, Carried, ChoiceOk, RootsAdjusted, Transfer, LiveThrough,
      IdealCall;
    SiteReady(p, a, c, ch);
    CarriedCall(Site(p, a, c, ch), d.b);
  }

  lemma StepKeepsInv(p: Program, a: Analysis, c: Config, ch: Choice, d: Config)
    requires Analyzed(p, a) && FreshGroups(p, a) && Unreported(p, a) && Inv(p, a, c)
    requires Fair(p, a, c, ch) && Steps(p, a, c, ch, d)
    ensures Inv(p, a, d)
  {
    hide Sound, Correct, Owed, Carried, Stable, LiveStable, Covers;
    if c.idx == |p.Code(c.blk)| {
      EdgeKeepsInv(p, a, c, ch.next);
    } else if p.Code(c.blk)[c.idx].Call? {
      CallKeepsInv(p, a, c, ch, d);
    } else {
      var i := p.Code(c.blk)[c.idx];
      StateAtNext(p, a, c.blk, c.idx);
      assert FreshGroup(StateAt(p, a, c.blk, c.idx), i);
      StepSound(StateAt(p, a, c.blk, c.idx), c.m, i, ch);
      StepKeepsCorrect(c.m, c.b, c.base, LiveAt(p, a, c.blk, c.idx + 1), p.fi.roots, i, ch);
    }
  }

  /** Function entry: slots are undefined, every register holds what it should,
      and nothing of a frame that is only being built. */
  ghost predicate Starts(p: Program, a: Analysis, c: Config) {
    && c.blk == 0 && c.idx == 0 && Placed(p, a, c)
    && (forall n :: 0 <= n < |c.m.slots| ==> c.m.slots[n].Undef?)
    && BasesCorrect(c.m, c.b, c.base)
    && forall n :: 0 <= n < GPRS ==> Foreign(c.m.regs[n]) && Agrees(c.m.regs[n], c.b.regs[n], c.base)
  }

  ghost predicate IsRun(p: Program, a: Analysis, cs: seq<Config>, chs: seq<Choice>) {
    |cs| == |chs| + 1 && Starts(p, a, cs[0]) && forall k :: 0 <= k < |chs| ==> RunsAt(p, a, cs, chs, k)
  }

  /** Step k of a run is a fair step between two points of the function. */
  ghost predicate RunsAt(p: Program, a: Analysis, cs: seq<Config>, chs: seq<Choice>, k: nat)
    requires k < |chs| && |cs| == |chs| + 1
  {
    Fair(p, a, cs[k], chs[k]) && Steps(p, a, cs[k], chs[k], cs[k + 1]) && Placed(p, a, cs[k + 1])
  }

  lemma StartsSafe(p: Program, a: Analysis, c: Config)
    requires Analyzed(p, a) && Starts(p, a, c)
    ensures Inv(p, a, c)
  {
    hide Sound, LiveThrough;
    assert p.Code(0)[..0] == [];
    EntrySound(p, a.outs, a.seen, |p.blocks|, c.m);
    forall l | InRange(l, |p.fi.roots|)
      ensures CorrectAt(c.m, c.b, c.base, l)
    {
    }
  }

  /** On every run, after every instruction and every call, each live register
      and slot holds exactly the word the program meant, at the stack's current place. */
  lemma {:induction false} EveryRunIsSafe(p: Program, a: Analysis, cs: seq<Config>, chs: seq<Choice>, k: nat)
    requires Analyzed(p, a) && FreshGroups(p, a) && Unreported(p, a) && IsRun(p, a, cs, chs) && k < |cs|
    ensures Inv(p, a, cs[k])
  {
    hide Sound, Steps, Fair, LiveThrough, LiveOut, Starts, Analyzed, FreshGroups, Unreported, Inv, IsRun;
    RunStarts(p, a, cs, chs);
    if k == 0 {
      StartsSafe(p, a, cs[0]);
    } else {
      EveryRunIsSafe(p, a, cs, chs, k - 1);
      RunStep(p, a, cs, chs, k - 1);
      StepKeepsInv(p, a, cs[k - 1], chs[k - 1], cs[k]);
    }
  }

  /** The same outside world, up to where each call puts the stack. */
  ghost predicate SameWorld(x: Choice, y: Choice) { x.cond == y.cond && x.syms == y.syms && x.next == y.next }

  lemma RunStarts(p: Program, a: Analysis, cs: seq<Config>, chs: seq<Choice>)
    requires IsRun(p, a, cs, chs)
    ensures |cs| == |chs| + 1 && Starts(p, a, cs[0])
  {
  }

  lemma RunStep(p: Program, a: Analysis, cs: seq<Config>, chs: seq<Choice>, k: nat)
    requires IsRun(p, a, cs, chs) && k < |chs|
    ensures Placed(p, a, cs[k]) && Placed(p, a, cs[k + 1])
    ensures Fair(p, a, cs[k], chs[k]) && Steps(p, a, cs[k], chs[k], cs[k + 1])
  {
    hide Fair, Starts;
    assert RunsAt(p, a, cs, chs, k);
  }

  lemma {:induction false} SamePoints(p: Program, a: Analysis, cs: seq<Config>, chs: seq<Choice>,
      ds: seq<Config>, dhs: seq<Choice>, k: nat)
    requires IsRun(p, a, cs, chs) && IsRun(p, a, ds, dhs) && |cs| == |ds| && k < |cs|
    requires cs[0].m == ds[0].m && forall j :: 0 <= j < |chs| ==> SameWorld(chs[j], dhs[j])
    ensures cs[k].blk == ds[k].blk && cs[k].idx == ds[k].idx && cs[k].m == ds[k].m
  {
    hide Steps, Fair, SameWorld;
    if k > 0 {
      SamePoints(p, a, cs, chs, ds, dhs, k - 1);
      RunStep(p, a, cs, chs, k - 1);
      RunStep(p, a, ds, dhs, k - 1);
      SameIdeals(p, a, cs[k - 1], chs[k - 1], cs[k], ds[k - 1], dhs[k - 1], ds[k]);
    }
  }

  /** A stack that moves cannot be told from one that stays: two runs that differ
      only in how calls move the stack go through the same points, and each live
      word is the same symbolic word, placed on the one stack or on the other. */
  lemma MovesAreInvisible(p: Program, a: Analysis, cs: seq<Config>, chs: seq<Choice>,
      ds: seq<Config>, dhs: seq<Choice>, k: nat, l: Loc)
    requires Analyzed(p, a) && FreshGroups(p, a) && Unreported(p, a)
    requires IsRun(p, a, cs, chs) && IsRun(p, a, ds, dhs) && |cs| == |ds| && k < |cs|
    requires cs[0].m == ds[0].m && forall j :: 0 <= j < |chs| ==> SameWorld(chs[j], dhs[j])
    ensures Placed(p, a, cs[k]) && Placed(p, a, ds[k])
    ensures cs[k].blk == ds[k].blk && cs[k].idx == ds[k].idx && cs[k].m == ds[k].m
    ensures l in LiveAt(p, a, cs[k].blk, cs[k].idx) && InRange(l, |p.fi.roots|) && SymAt(cs[k].m, l).Lin? ==>
      BitAt(cs[k].b, l) == At(SymAt(cs[k].m, l), cs[k].base) && BitAt(ds[k].b, l) == At(SymAt(cs[k].m, l), ds[k].base)
  {
    hide Steps, Fair, Sound, Analyzed, FreshGroups, Unreported, IsRun, At;
    SamePoints(p, a, cs, chs, ds, dhs, k);
    EveryRunIsSafe(p, a, cs, chs, k);
    EveryRunIsSafe(p, a, ds, dhs, k);
    if l in LiveAt(p, a, cs[k].blk, cs[k].idx) && InRange(l, |p.fi.roots|) && SymAt(cs[k].m, l).Lin? {
      assert Matters(cs[k].m, l, LiveAt(p, a, cs[k].blk, cs[k].idx), p.fi.roots);
      assert CorrectAt(cs[k].m, cs[k].b, cs[k].base, l) && CorrectAt(ds[k].m, ds[k].b, ds[k].base, l);
    }
  }

  /** The symbolic machine never sees where the stack is. */
  lemma SameIdeals(p: Program, a: Analysis, c: Config, ch: Choice, c': Config, d: Config, dh: Choice, d': Config)
    requires Steps(p, a, c, ch, c') && Steps(p, a, d, dh, d') && SameWorld(ch, dh)
    requires c.blk == d.blk && c.idx == d.idx && c.m == d.m
    ensures c'.blk == d'.blk && c'.idx == d'.idx && c'.m == d'.m
  {
    if c.idx < |p.Code(c.blk)| && !p.Code(c.blk)[c.idx].Call? {
      SameStep(c.m, p.Code(c.blk)[c.idx], ch, dh);
    }
  }

  lemma SameStep(m: Ideal, i: Instr, ch: Choice, dh: Choice)
    requires |m.regs| == GPRS && ValidInstr(i, |m.slots|) && !i.Call? && |ch.syms| > |Defs(i)| && SameWorld(ch, dh)
    ensures IdealStep(m, i, ch) == IdealStep(m, i, dh)
  {
  }
}
