/** What the analysis of pointer arguments means on runs: calls pass one of the
    leaves of their operand, and an argument that was ever passed a stack address
    is listed -- exactly if no such leaf lies deeper than the search goes. */
module ArgumentRuns {
  import opened StackArguments

  /** `leaf` stands in `op` below d phis and selects. */
  ghost predicate LeafAt(op: Operand, leaf: Operand, d: nat)
    decreases op
  {
    match op
    case Phi(ins) => d > 0 && exists i :: 0 <= i < |ins| && LeafAt(ins[i], leaf, d - 1)
    case Select(yes, no) => d > 0 && (LeafAt(yes, leaf, d - 1) || LeafAt(no, leaf, d - 1))
    case _ => d == 0 && leaf == op
  }

  /** A leaf that is a stack address when the arguments of `s` are. */
  predicate Moving(leaf: Operand, s: set<nat>) { leaf.Alloca? || (leaf.Arg? && leaf.a in s) }

  /** Some moving leaf is at most `room` deep. */
  ghost predicate Sees(op: Operand, s: set<nat>, room: nat) {
    exists leaf, d: nat :: d <= room && LeafAt(op, leaf, d) && Moving(leaf, s)
  }

  /** The search sees exactly the moving leaves below at most four phis and selects. */
  lemma {:induction false} KnownIff(op: Operand, s: set<nat>, depth: nat)
    requires depth <= MAX_DEPTH
    ensures KnownStack(op, s, depth) <==> Sees(op, s, MAX_DEPTH - depth)
    decreases op
  {
    match op
    case Phi(ins) =>
      forall i | 0 <= i < |ins| && depth < MAX_DEPTH
        ensures KnownStack(ins[i], s, depth + 1) <==> Sees(ins[i], s, MAX_DEPTH - depth - 1)
      {
        KnownIff(ins[i], s, depth + 1);
      }
      PhiSees(ins, s, MAX_DEPTH - depth);
    case Select(yes, no) =>
      if depth < MAX_DEPTH {
        KnownIff(yes, s, depth + 1);
        KnownIff(no, s, depth + 1);
      }
      SelectSees(yes, no, s, MAX_DEPTH - depth);
    case _ =>
      assert LeafAt(op, op, 0);
  }

  lemma PhiSees(ins: seq<Operand>, s: set<nat>, room: nat)
    ensures Sees(Phi(ins), s, room) <==>
      room > 0 && exists i :: 0 <= i < |ins| && ins[i] != Null && Sees(ins[i], s, room - 1)
  {
    if room > 0 && exists i :: 0 <= i < |ins| && ins[i] != Null && Sees(ins[i], s, room - 1) {
      var i :| 0 <= i < |ins| && ins[i] != Null && Sees(ins[i], s, room - 1);
      var leaf, d: nat :| d <= room - 1 && LeafAt(ins[i], leaf, d) && Moving(leaf, s);
      assert LeafAt(Phi(ins), leaf, d + 1);
    }
    if Sees(Phi(ins), s, room) {
      var leaf, d: nat :| d <= room && LeafAt(Phi(ins), leaf, d) && Moving(leaf, s);
      var i :| 0 <= i < |ins| && LeafAt(ins[i], leaf, d - 1);
      assert Sees(ins[i], s, room - 1);
    }
  }

  lemma SelectSees(yes: Operand, no: Operand, s: set<nat>, room: nat)
    ensures Sees(Select(yes, no), s, room) <==> room > 0 && (Sees(yes, s, room - 1) || Sees(no, s, room - 1))
  {
    var op := Select(yes, no);
    if room > 0 && (Sees(yes, s, room - 1) || Sees(no, s, room - 1)) {
      var side := if Sees(yes, s, room - 1) then yes else no;
      var leaf, d: nat :| d <= room - 1 && LeafAt(side, leaf, d) && Moving(leaf, s);
      assert LeafAt(op, leaf, d + 1);
    }
    if Sees(op, s, room) {
      var leaf, d: nat :| d <= room && LeafAt(op, leaf, d) && Moving(leaf, s);
      assert LeafAt(if LeafAt(yes, leaf, d - 1) then yes else no, leaf, d - 1);
    }
  }

  // ----- runs -----

  /** Call operand k of function f passes the leaf. */
  datatype Event = Event(f: nat, k: nat, leaf: Operand)

  ghost predicate Happens(m: Module, e: Event) {
    e.f < |m.bodies| && e.k < |m.bodies[e.f]| && exists d: nat :: LeafAt(m.bodies[e.f][e.k].op, e.leaf, d)
  }

  /** The arguments that were ever passed a stack address. */
  ghost function Received(m: Module, evs: seq<Event>): set<nat>
    requires IsRun(m, evs)
  {
    if evs == [] then {} else
      var n := |evs| - 1;
      var s, p := Received(m, evs[..n]), m.bodies[evs[n].f][evs[n].k];
      if p.pointer && Moving(evs[n].leaf, s) then s + {p.target} else s
  }

  ghost predicate IsRun(m: Module, evs: seq<Event>) { forall n :: 0 <= n < |evs| ==> Happens(m, evs[n]) }

  ghost predicate CanReceive(m: Module, a: nat) { exists evs :: IsRun(m, evs) && a in Received(m, evs) }

  lemma OneMore(m: Module, evs: seq<Event>, e: Event)
    requires IsRun(m, evs) && Happens(m, e)
    ensures IsRun(m, evs + [e])
    ensures var p := m.bodies[e.f][e.k];
      Received(m, evs + [e]) ==
        if p.pointer && Moving(e.leaf, Received(m, evs)) then Received(m, evs) + {p.target} else Received(m, evs)
  {
    var more := evs + [e];
    assert more[..|evs|] == evs && forall n :: 0 <= n < |evs| ==> more[n] == evs[n];
  }

  ghost function Receivers(m: Module): set<nat> { set a | a in Formals(m) && CanReceive(m, a) }

  function Formals(m: Module): set<nat> {
    set f, k | 0 <= f < |m.bodies| && 0 <= k < |m.bodies[f]| :: m.bodies[f][k].target
  }

  lemma LeafReceives(m: Module, leaf: Operand) returns (evs: seq<Event>)
    requires Moving(leaf, Receivers(m))
    ensures IsRun(m, evs) && Moving(leaf, Received(m, evs))
  {
    evs := [];
    if leaf.Arg? { evs :| IsRun(m, evs) && leaf.a in Received(m, evs); }
  }

  lemma Passing(m: Module, f: nat, k: nat, leaf: Operand, d: nat)
    requires f < |m.bodies| && k < |m.bodies[f]| && m.bodies[f][k].pointer
    requires LeafAt(m.bodies[f][k].op, leaf, d) && Moving(leaf, Receivers(m))
    ensures m.bodies[f][k].target in Receivers(m)
  {
    var evs := LeafReceives(m, leaf);
    var e := Event(f, k, leaf);
    assert Happens(m, e);
    OneMore(m, evs, e);
    assert m.bodies[f][k].target in Received(m, evs + [e]);
  }

  lemma ReceiversClosed(m: Module)
    ensures Closed(m, Receivers(m))
  {
    hide KnownStack, LeafAt;
    var s := Receivers(m);
    forall f, k | 0 <= f < |m.bodies| && 0 <= k < |m.bodies[f]|
      ensures Obeyed(m.bodies[f][k], s)
    {
      var p := m.bodies[f][k];
      KnownIff(p.op, s, 0);
      if p.pointer && KnownStack(p.op, s, 0) {
        var leaf, d: nat :| d <= MAX_DEPTH && LeafAt(p.op, leaf, d) && Moving(leaf, s);
        Passing(m, f, k, leaf, d);
      }
    }
  }

  /** Every listed argument is passed a stack address on some run. */
  lemma ListedCanReceive(m: Module, s: set<nat>, a: nat)
    requires Least(m, s) && a in s
    ensures CanReceive(m, a)
  {
    ReceiversClosed(m);
    assert s <= Receivers(m);
  }

  /** A moving leaf the search does not reach, into an argument that is not listed. */
  ghost predicate TooDeep(m: Module, s: set<nat>, f: nat, k: nat)
    requires f < |m.bodies| && k < |m.bodies[f]|
  {
    var p := m.bodies[f][k];
    p.pointer && p.target !in s && exists leaf, d: nat :: d > MAX_DEPTH && LeafAt(p.op, leaf, d) && Moving(leaf, s)
  }

  ghost predicate Reached(m: Module, s: set<nat>) {
    forall f, k :: 0 <= f < |m.bodies| && 0 <= k < |m.bodies[f]| ==> !TooDeep(m, s, f, k)
  }

  ghost predicate Covers(m: Module, s: set<nat>) { forall evs :: IsRun(m, evs) ==> Received(m, evs) <= s }

  lemma {:induction false} RunListed(m: Module, s: set<nat>, evs: seq<Event>)
    requires Closed(m, s) && Reached(m, s) && IsRun(m, evs)
    ensures Received(m, evs) <= s
  {
    hide KnownStack, LeafAt;
    if evs != [] {
      var n := |evs| - 1;
      RunListed(m, s, evs[..n]);
      var e := evs[n];
      assert Happens(m, e);
      var p, r := m.bodies[e.f][e.k], Received(m, evs[..n]);
      if p.pointer && Moving(e.leaf, r) {
        var d: nat :| LeafAt(p.op, e.leaf, d);
        KnownIff(p.op, s, 0);
        assert Obeyed(p, s) && !TooDeep(m, s, e.f, e.k) && Moving(e.leaf, s);
        if d <= MAX_DEPTH { assert Sees(p.op, s, MAX_DEPTH); }
      }
    }
  }

  /** On every run all arguments that receive stack addresses are listed, exactly
      if no moving leaf is too deep. */
  lemma CoversIff(m: Module, s: set<nat>)
    requires Least(m, s)
    ensures Covers(m, s) <==> Reached(m, s)
  {
    hide LeafAt;
    if Reached(m, s) {
      forall evs | IsRun(m, evs)
        ensures Received(m, evs) <= s
      {
        RunListed(m, s, evs);
      }
    } else {
      var f, k :| 0 <= f < |m.bodies| && 0 <= k < |m.bodies[f]| && TooDeep(m, s, f, k);
      var p := m.bodies[f][k];
      var leaf, d: nat :| d > MAX_DEPTH && LeafAt(p.op, leaf, d) && Moving(leaf, s);
      ReceiversClosed(m);
      assert s <= Receivers(m) && Moving(leaf, Receivers(m));
      Passing(m, f, k, leaf, d);
      var evs :| IsRun(m, evs) && p.target in Received(m, evs);
    }
  }
}
