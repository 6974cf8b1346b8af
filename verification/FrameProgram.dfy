/** Machine functions and the two dataflow analyses over them as the pass runs
    them: backward liveness and forward frame addresses. */
module FrameProgram {
  import opened Counting
  import opened FrameLattice
  import opened FrameTransfer
  import opened FrameMachine
  import opened FrameSound
  import opened FrameGroups
  import opened FrameRepair

  datatype Block = Block(instrs: seq<Instr>, succs: seq<nat>)

  datatype Program = Program(blocks: seq<Block>, fi: FrameInfo) {
    predicate Valid() {
      && |blocks| > 0
      && (forall b :: 0 <= b < |blocks| ==> forall k :: 0 <= k < |blocks[b].instrs| ==>
        ValidInstr(blocks[b].instrs[k], |fi.roots|))
      && (forall b :: 0 <= b < |blocks| ==> forall k :: 0 <= k < |blocks[b].succs| ==> blocks[b].succs[k] < |blocks|)
    }

    /** The instruction list of block b. */
    function Code(b: nat): (code: seq<Instr>)
      requires Valid() && b < |blocks|
      ensures ValidCode(code, |fi.roots|)
    {
      blocks[b].instrs
    }
  }

  predicate ValidCode(code: seq<Instr>, slots: nat) { forall k :: 0 <= k < |code| ==> ValidInstr(code[k], slots) }

  /** The traversal order visits the entry and everything reachable from it. */
  ghost predicate Covers(p: Program, order: seq<nat>)
    requires p.Valid()
  {
    && 0 in order && (forall k :: 0 <= k < |order| ==> order[k] < |p.blocks|)
    && forall b, k :: b in order && 0 <= b < |p.blocks| && 0 <= k < |p.blocks[b].succs| ==>
      p.blocks[b].succs[k] in order
  }

  // ----- backward: liveness -----

  function LiveThrough(code: seq<Instr>, after: set<Loc>): set<Loc> {
    if code == [] then after else LiveBefore(code[0], LiveThrough(code[1..], after))
  }

  function LiveOut(p: Program, live: seq<set<Loc>>, b: nat): set<Loc>
    requires p.Valid() && |live| == |p.blocks| && b < |p.blocks|
  {
    set k, l | 0 <= k < |p.blocks[b].succs| && l in live[p.blocks[b].succs[k]] :: l
  }

  function LiveInto(p: Program, live: seq<set<Loc>>, b: nat): set<Loc>
    requires p.Valid() && |live| == |p.blocks| && b < |p.blocks|
  {
    LiveThrough(p.Code(b), LiveOut(p, live, b))
  }

  ghost predicate LiveStable(p: Program, order: seq<nat>, live: seq<set<Loc>>)
    requires p.Valid()
  {
    |live| == |p.blocks| && forall b :: b in order && 0 <= b < |p.blocks| ==> live[b] == LiveInto(p, live, b)
  }

  function Universe(slots: nat): set<Loc> { (set n | 0 <= n < GPRS :: R(n)) + (set n | 0 <= n < slots :: S(n)) }

  lemma {:induction false} LiveThroughBounds(code: seq<Instr>, s: set<Loc>, t: set<Loc>, slots: nat)
    requires ValidCode(code, slots) && s <= t && t <= Universe(slots)
    ensures LiveThrough(code, s) <= LiveThrough(code, t) <= Universe(slots)
  {
    if code != [] { LiveThroughBounds(code[1..], s, t, slots); }
  }

  /** Each visit can only add locations. */
  ghost predicate Climbing(p: Program, live: seq<set<Loc>>)
    requires p.Valid()
  {
    && |live| == |p.blocks|
    && forall b :: 0 <= b < |live| ==> live[b] <= LiveInto(p, live, b) && live[b] <= Universe(|p.fi.roots|)
  }

  ghost function Missing(live: seq<set<Loc>>, slots: nat): nat {
    if live == [] then 0 else |Universe(slots) - live[0]| + Missing(live[1..], slots)
  }

  lemma {:induction false} MissingShrinks(live: seq<set<Loc>>, b: nat, s: set<Loc>, slots: nat)
    requires b < |live| && live[b] < s <= Universe(slots)
    ensures Missing(live[b := s], slots) < Missing(live, slots)
  {
    if b == 0 {
      assert live[b := s][1..] == live[1..];
      assert Universe(slots) - s < Universe(slots) - live[0] by {
        var l :| l in s && l !in live[0];
        assert l in Universe(slots) - live[0] && l !in Universe(slots) - s;
      }
      GrowsCount(Universe(slots) - s, Universe(slots) - live[0]);
    } else {
      assert live[b := s][1..] == live[1..][b - 1 := s];
      MissingShrinks(live[1..], b - 1, s, slots);
    }
  }

  lemma LiveIntoGrows(p: Program, live: seq<set<Loc>>, more: seq<set<Loc>>, b: nat)
    requires p.Valid() && |live| == |more| == |p.blocks| && b < |p.blocks|
    requires forall k :: 0 <= k < |live| ==> live[k] <= more[k] <= Universe(|p.fi.roots|)
    ensures LiveInto(p, live, b) <= LiveInto(p, more, b) <= Universe(|p.fi.roots|)
  {
    LiveThroughBounds(p.Code(b), LiveOut(p, live, b), LiveOut(p, more, b), |p.fi.roots|);
  }

  /** One update of the liveness loop. */
  lemma ClimbStep(p: Program, live: seq<set<Loc>>, b: nat)
    requires p.Valid() && Climbing(p, live) && b < |live|
    ensures Climbing(p, live[b := LiveInto(p, live, b)])
    ensures live[b] != LiveInto(p, live, b) ==>
      Missing(live[b := LiveInto(p, live, b)], |p.fi.roots|) < Missing(live, |p.fi.roots|)
  {
    var s := LiveInto(p, live, b);
    LiveIntoGrows(p, live, live, b);
    var more := live[b := s];
    forall k | 0 <= k < |live|
      ensures more[k] <= LiveInto(p, more, k) && more[k] <= Universe(|p.fi.roots|)
    {
      LiveIntoGrows(p, live, more, k);
    }
    if live[b] != s { MissingShrinks(live, b, s, |p.fi.roots|); }
  }

  lemma ClimbingSized(p: Program, live: seq<set<Loc>>)
    requires p.Valid() && Climbing(p, live)
    ensures |live| == |p.blocks|
  {
  }

  method BlockLiveness(p: Program, live: seq<set<Loc>>, b: nat) returns (s: set<Loc>)
    requires p.Valid() && |live| == |p.blocks| && b < |p.blocks|
    ensures s == LiveInto(p, live, b)
  {
    s := LiveOut(p, live, b);
    var code := p.Code(b);
    var k := |code|;
    while k > 0
      invariant 0 <= k <= |code| && s == LiveThrough(code[k..], LiveOut(p, live, b))
    {
      k := k - 1;
      assert code[k..][1..] == code[k + 1..];
      s := LiveBefore(code[k], s);
    }
    assert code[0..] == code;
  }

  /** Any sets that hold what each visited block needs, given those of its successors. */
  ghost predicate Bounds(p: Program, order: seq<nat>, t: seq<set<Loc>>)
    requires p.Valid()
  {
    && |t| == |p.blocks| && (forall k :: 0 <= k < |t| ==> t[k] <= Universe(|p.fi.roots|))
    && forall b :: b in order && 0 <= b < |p.blocks| ==> LiveInto(p, t, b) <= t[b]
  }

  ghost predicate Below(live: seq<set<Loc>>, t: seq<set<Loc>>) {
    |live| == |t| && forall k :: 0 <= k < |live| ==> live[k] <= t[k]
  }

  /** Below all such sets. */
  ghost predicate LeastLive(p: Program, order: seq<nat>, live: seq<set<Loc>>)
    requires p.Valid()
  {
    forall t :: Bounds(p, order, t) ==> Below(live, t)
  }

  lemma StaysLeast(p: Program, order: seq<nat>, live: seq<set<Loc>>, b: nat)
    requires p.Valid() && |live| == |p.blocks| && LeastLive(p, order, live) && b in order && b < |p.blocks|
    ensures LeastLive(p, order, live[b := LiveInto(p, live, b)])
  {
    hide LiveInto;
    forall t | Bounds(p, order, t)
      ensures Below(live[b := LiveInto(p, live, b)], t)
    {
      assert Below(live, t);
      LiveIntoGrows(p, live, t, b);
    }
  }

  /** One round over the blocks; each change adds a location somewhere. */
  method LivenessRound(p: Program, order: seq<nat>, start: seq<set<Loc>>) returns (live: seq<set<Loc>>, changed: bool)
    requires p.Valid() && Climbing(p, start) && forall k :: 0 <= k < |order| ==> order[k] < |p.blocks|
    requires LeastLive(p, order, start)
    ensures Climbing(p, live) && LeastLive(p, order, live)
    ensures if changed then Missing(live, |p.fi.roots|) < Missing(start, |p.fi.roots|)
      else live == start && LiveStable(p, order, live)
  {
    hide LiveInto, Missing, Climbing, LeastLive;
    live, changed := start, false;
    ClimbingSized(p, start);
    for k := 0 to |order|
      invariant Climbing(p, live) && |live| == |p.blocks| && LeastLive(p, order, live)
      invariant !changed ==> live == start && forall j :: 0 <= j < k ==> live[order[j]] == LiveInto(p, live, order[j])
      invariant changed ==> Missing(live, |p.fi.roots|) < Missing(start, |p.fi.roots|)
    {
      var s := BlockLiveness(p, live, order[k]);
      ClimbStep(p, live, order[k]);
      StaysLeast(p, order, live, order[k]);
      if s != live[order[k]] {
        live := live[order[k] := s];
        changed := true;
      }
    }
  }

  lemma NothingClimbs(p: Program)
    requires p.Valid()
    ensures Climbing(p, seq(|p.blocks|, _ => {}))
  {
  }

  /** The backward loop: it ends, and what it ends with is the least stable solution. */
  method ComputeLiveness(p: Program, order: seq<nat>) returns (live: seq<set<Loc>>)
    requires p.Valid() && forall k :: 0 <= k < |order| ==> order[k] < |p.blocks|
    ensures LiveStable(p, order, live) && LeastLive(p, order, live)
  {
    live := seq(|p.blocks|, _ => {});
    NothingClimbs(p);
    var changed := true;
    while changed
      invariant Climbing(p, live) && LeastLive(p, order, live) && (!changed ==> LiveStable(p, order, live))
      decreases Missing(live, |p.fi.roots|), changed
    {
      live, changed := LivenessRound(p, order, live);
    }
  }

  // ----- forward: frame addresses -----

  function Transfer(s: AState, code: seq<Instr>): (t: AState)
    requires |s.units| == GPRS && ValidCode(code, |s.slots|)
    ensures t.Valid(|s.slots|)
  {
    if code == [] then s else Step(Transfer(s, code[..|code| - 1]), code[|code| - 1])
  }

  lemma {:induction false} InvalidateTidy(s: AState, rs: seq<Reg>)
    requires Tidy(s)
    ensures Tidy(InvalidateAll(s, rs))
  {
    if rs != [] { InvalidateTidy(s, rs[..|rs| - 1]); }
  }

  lemma ValueAliases(s: AState, i: Instr)
    requires |s.units| == GPRS && ValidInstr(i, |s.slots|) && Tidy(s)
    ensures Value(s, i).alias < |s.slots|
  {
  }

  lemma StoresTidy(s: AState, i: Instr)
    requires |s.units| == GPRS && ValidInstr(i, |s.slots|) && Tidy(s)
    ensures Tidy(Stores(s, i))
  {
    if i.Store? { assert Tidy(Forget(s, i.slot)); }
  }

  lemma StepTidy(s: AState, i: Instr)
    requires |s.units| == GPRS && ValidInstr(i, |s.slots|) && Tidy(s)
    ensures Tidy(Step(s, i))
  {
    if !i.Call? {
      var s0 := InvalidateAll(s, Defs(i));
      InvalidateTidy(s, Defs(i));
      ValueAliases(s0, i);
      StoresTidy(GroupSource(s0, i), i);
    }
  }

  lemma {:induction false} TransferTidy(s: AState, code: seq<Instr>)
    requires |s.units| == GPRS && ValidCode(code, |s.slots|) && Tidy(s)
    ensures Tidy(Transfer(s, code))
  {
    if code != [] {
      TransferTidy(s, code[..|code| - 1]);
      StepTidy(Transfer(s, code[..|code| - 1]), code[|code| - 1]);
    }
  }

  /** At entry registers hold nothing of this frame and slots are undefined. */
  function InitState(slots: nat): AState { AState(seq(GPRS, _ => Of(Plain)), seq(slots, _ => Of(Unset))) }

  function UnsetState(slots: nat): AState { AState(seq(GPRS, _ => Of(Unset)), seq(slots, _ => Of(Unset))) }

  predicate ValidStates(p: Program, ss: seq<AState>) {
    |ss| == |p.blocks| && forall b :: 0 <= b < |ss| ==> ss[b].Valid(|p.fi.roots|) && Tidy(ss[b])
  }

  /** The merge into block b of the visited predecessors among the first k blocks. */
  function JoinFrom(p: Program, outs: seq<AState>, seen: seq<bool>, b: nat, k: nat): (s: AState)
    requires p.Valid() && ValidStates(p, outs) && |seen| == |p.blocks| && b < |p.blocks| && k <= |p.blocks|
    ensures s.Valid(|p.fi.roots|) && Tidy(s)
  {
    if k == 0 then if b == 0 then InitState(|p.fi.roots|) else UnsetState(|p.fi.roots|)
    else
      var s := JoinFrom(p, outs, seen, b, k - 1);
      if b in p.blocks[k - 1].succs && seen[k - 1] then JoinStates(s, outs[k - 1]) else s
  }

  ghost predicate Stable(p: Program, order: seq<nat>, ins: seq<AState>, outs: seq<AState>, seen: seq<bool>)
    requires p.Valid()
  {
    && ValidStates(p, ins) && ValidStates(p, outs) && |seen| == |p.blocks|
    && forall b :: b in order && 0 <= b < |p.blocks| ==>
      seen[b] && ins[b] == JoinFrom(p, outs, seen, b, |p.blocks|) && outs[b] == Transfer(ins[b], p.Code(b))
  }

  /** The forward analysis: one entry and one exit state per block. */
  class Dataflow {
    const p: Program
    var ins: seq<AState>
    var outs: seq<AState>
    var seen: seq<bool>

    ghost predicate Valid() reads this {
      p.Valid() && ValidStates(p, ins) && ValidStates(p, outs) && |seen| == |p.blocks|
    }

    constructor (p: Program)
      requires p.Valid()
      ensures Valid() && this.p == p
    {
      this.p := p;
      ins := seq(|p.blocks|, _ => UnsetState(|p.fi.roots|));
      outs := seq(|p.blocks|, _ => UnsetState(|p.fi.roots|));
      seen := seq(|p.blocks|, _ => false);
    }

    method MergeInto(b: nat) returns (s: AState)
      requires Valid() && b < |p.blocks|
      ensures s == JoinFrom(p, outs, seen, b, |p.blocks|)
    {
      s := if b == 0 then InitState(|p.fi.roots|) else UnsetState(|p.fi.roots|);
      for k := 0 to |p.blocks|
        invariant s == JoinFrom(p, outs, seen, b, k)
      {
        if b in p.blocks[k].succs && seen[k] { s := JoinStates(s, outs[k]); }
      }
    }

    method Flow(s: AState, code: seq<Instr>) returns (t: AState)
      requires |s.units| == GPRS && ValidCode(code, |s.slots|)
      ensures t == Transfer(s, code)
    {
      var state := new MutableState(s);
      for k := 0 to |code|
        invariant fresh(state) && state.Valid() && |state.slots| == |s.slots|
        invariant state.Snapshot() == Transfer(s, code[..k])
      {
        assert code[..k + 1][..k] == code[..k];
        state.Advance(code[k]);
      }
      assert code[..|code|] == code;
      t := state.Snapshot();
    }

    /** One round over the blocks. A round that changes nothing leaves a stable result. */
    method Sweep(order: seq<nat>) returns (changed: bool)
      requires Valid() && forall k :: 0 <= k < |order| ==> order[k] < |p.blocks|
      modifies this
      ensures Valid()
      ensures !changed ==> Stable(p, order, ins, outs, seen)
    {
      hide Transfer, JoinFrom, Tidy;
      changed := false;
      for k := 0 to |order|
        invariant Valid()
        invariant !changed ==> outs == old(outs) && seen == old(seen)
        invariant !changed ==> forall j :: 0 <= j < k ==>
          seen[order[j]] && ins[order[j]] == JoinFrom(p, outs, seen, order[j], |p.blocks|)
          && outs[order[j]] == Transfer(ins[order[j]], p.Code(order[j]))
      {
        var b := order[k];
        var s := MergeInto(b);
        ins := ins[b := s];
        var t := Flow(s, p.Code(b));
        TransferTidy(s, p.Code(b));
        if !seen[b] || t != outs[b] {
          outs, seen := outs[b := t], seen[b := true];
          changed := true;
        }
      }
    }

    /** The fixpoint loop, cut off after a number of rounds. */
    method Analyze(order: seq<nat>, rounds: nat) returns (done: bool)
      requires Valid() && forall k :: 0 <= k < |order| ==> order[k] < |p.blocks|
      modifies this
      ensures Valid() && (done ==> Stable(p, order, ins, outs, seen))
    {
      for k := 0 to rounds
        invariant Valid()
      {
        var changed := Sweep(order);
        if !changed { return true; }
      }
      return false;
    }
  }

  // ----- stable states are sound -----

  /** A merge is sound for any machine that is sound for one visited predecessor. */
  lemma {:induction false} JoinFromSound(p: Program, outs: seq<AState>, seen: seq<bool>, b: nat, k: nat, q: nat,
      m: Ideal)
    requires p.Valid() && ValidStates(p, outs) && |seen| == |p.blocks| && b < |p.blocks| && q < k <= |p.blocks|
    requires b in p.blocks[q].succs && seen[q] && m.Valid(|p.fi.roots|) && Sound(outs[q], m)
    ensures Sound(JoinFrom(p, outs, seen, b, k), m)
  {
    var s := JoinFrom(p, outs, seen, b, k - 1);
    if q < k - 1 { JoinFromSound(p, outs, seen, b, k - 1, q, m); }
    if b in p.blocks[k - 1].succs && seen[k - 1] { JoinSound(s, outs[k - 1], m); }
  }

  lemma InitSound(slots: nat, m: Ideal)
    requires m.Valid(slots) && (forall n :: 0 <= n < slots ==> m.slots[n].Undef?) && forall n :: 0 <= n < GPRS ==>
      Foreign(m.regs[n])
    ensures Sound(InitState(slots), m)
  {
  }

  lemma {:induction false} EntrySound(p: Program, outs: seq<AState>, seen: seq<bool>, k: nat, m: Ideal)
    requires p.Valid() && ValidStates(p, outs) && |seen| == |p.blocks| && k <= |p.blocks|
    requires m.Valid(|p.fi.roots|) && (forall n :: 0 <= n < |m.slots| ==> m.slots[n].Undef?)
      && forall n :: 0 <= n < GPRS ==> Foreign(m.regs[n])
    ensures Sound(JoinFrom(p, outs, seen, 0, k), m)
  {
    hide Sound, Join;
    if k == 0 {
      InitSound(|p.fi.roots|, m);
    } else {
      EntrySound(p, outs, seen, k - 1, m);
      if 0 in p.blocks[k - 1].succs && seen[k - 1] { JoinSound(JoinFrom(p, outs, seen, 0, k - 1), outs[k - 1], m); }
    }
  }
}
