/** Which pointer arguments of a module may hold stack addresses: a worklist
    over call sites that rescans only the function of a newly found argument. */
module StackArguments {
  import opened Counting

  /** A pointer operand with casts and constant offsets stripped. Arguments are
      numbered across the module. */
  datatype Operand = Null | Alloca | Unknown | Arg(a: nat) | Phi(ins: seq<Operand>) | Select(yes: Operand, no: Operand)

  /** One actual argument of a direct call: the formal it is bound to. */
  datatype Pass = Pass(target: nat, pointer: bool, op: Operand)

  /** The call operands of each function in order, and each argument's function. */
  datatype Module = Module(bodies: seq<seq<Pass>>, owner: seq<nat>)

  const MAX_DEPTH := 4

  predicate KnownStack(op: Operand, known: set<nat>, depth: nat) {
    if depth > MAX_DEPTH then false else
      match op
      case Null => false
      case Alloca => true
      case Unknown => false
      case Arg(a) => a in known
      case Phi(ins) => exists i :: 0 <= i < |ins| && ins[i] != Null && KnownStack(ins[i], known, depth + 1)
      case Select(yes, no) => KnownStack(yes, known, depth + 1) || KnownStack(no, known, depth + 1)
  }

  /** An operand mentions only its own function's arguments. */
  predicate Local(op: Operand, m: Module, f: nat) {
    match op
    case Arg(a) => a < |m.owner| && m.owner[a] == f
    case Phi(ins) => forall i :: 0 <= i < |ins| ==> Local(ins[i], m, f)
    case Select(yes, no) => Local(yes, m, f) && Local(no, m, f)
    case _ => true
  }

  ghost predicate ModuleOk(m: Module) {
    && (forall a :: 0 <= a < |m.owner| ==> m.owner[a] < |m.bodies|)
    && (forall f, k :: 0 <= f < |m.bodies| && 0 <= k < |m.bodies[f]| ==>
      m.bodies[f][k].target < |m.owner| && Local(m.bodies[f][k].op, m, f))
  }

  /** The marking rule at one call operand. */
  predicate Obeyed(p: Pass, s: set<nat>) { p.pointer && KnownStack(p.op, s, 0) ==> p.target in s }

  ghost predicate Closed(m: Module, s: set<nat>) {
    forall f, k :: 0 <= f < |m.bodies| && 0 <= k < |m.bodies[f]| ==> Obeyed(m.bodies[f][k], s)
  }

  /** Closed under the rule, and inside every set that is. */
  ghost predicate Least(m: Module, s: set<nat>) { Closed(m, s) && Within(m, s) }

  ghost predicate Within(m: Module, s: set<nat>) { forall t: set<nat> :: Closed(m, t) ==> s <= t }

  lemma {:induction false} KnownGrows(op: Operand, s: set<nat>, t: set<nat>, depth: nat)
    requires s <= t && KnownStack(op, s, depth)
    ensures KnownStack(op, t, depth)
    decreases op
  {
    match op
    case Phi(ins) =>
      var i :| 0 <= i < |ins| && ins[i] != Null && KnownStack(ins[i], s, depth + 1);
      KnownGrows(ins[i], s, t, depth + 1);
    case Select(yes, no) =>
      if KnownStack(yes, s, depth + 1) { KnownGrows(yes, s, t, depth + 1); } else { KnownGrows(no, s, t, depth + 1); }
    case _ =>
  }

  /** An argument of another function makes no difference. */
  lemma {:induction false} KnownIsLocal(op: Operand, m: Module, f: nat, s: set<nat>, a: nat, depth: nat)
    requires Local(op, m, f) && a < |m.owner| && m.owner[a] != f
    ensures KnownStack(op, s + {a}, depth) <==> KnownStack(op, s, depth)
    decreases op
  {
    match op
    case Phi(ins) =>
      forall i | 0 <= i < |ins|
        ensures KnownStack(ins[i], s + {a}, depth + 1) <==> KnownStack(ins[i], s, depth + 1)
      {
        KnownIsLocal(ins[i], m, f, s, a, depth + 1);
      }
    case Select(yes, no) =>
      KnownIsLocal(yes, m, f, s, a, depth + 1);
      KnownIsLocal(no, m, f, s, a, depth + 1);
    case _ =>
  }

  // ----- the worklist -----

  /** Some argument of f is waiting to be rescanned. */
  ghost predicate Waiting(m: Module, work: seq<nat>, f: nat) {
    exists i :: 0 <= i < |work| && work[i] < |m.owner| && m.owner[work[i]] == f
  }

  /** Function f obeys the rule up to operand k, unless it is to be rescanned. */
  ghost predicate Settled(m: Module, s: set<nat>, work: seq<nat>, f: nat, k: nat)
    requires f < |m.bodies| && k <= |m.bodies[f]|
  {
    Waiting(m, work, f) || forall j :: 0 <= j < k ==> Obeyed(m.bodies[f][j], s)
  }

  ghost predicate Marked(m: Module, s: set<nat>, work: seq<nat>) {
    && Within(m, s) && (forall a :: a in s ==> a < |m.owner|) && (forall i :: 0 <= i < |work| ==> work[i] in s)
  }

  lemma MarkWithin(m: Module, s: set<nat>, f: nat, k: nat)
    requires Within(m, s) && f < |m.bodies| && k < |m.bodies[f]| && m.bodies[f][k].pointer
      && KnownStack(m.bodies[f][k].op, s, 0)
    ensures Within(m, s + {m.bodies[f][k].target})
  {
    var p := m.bodies[f][k];
    forall t: set<nat> | Closed(m, t)
      ensures s + {p.target} <= t
    {
      assert s <= t && Obeyed(p, t);
      KnownGrows(p.op, s, t, 0);
    }
  }

  /** A new mark disturbs only the function it belongs to, which then waits. */
  lemma MarkSettles(m: Module, s: set<nat>, work: seq<nat>, a: nat, f: nat, k: nat)
    requires ModuleOk(m) && a < |m.owner| && f < |m.bodies| && k <= |m.bodies[f]| && Settled(m, s, work, f, k)
    ensures Settled(m, s + {a}, work + [a], f, k)
  {
    var more := work + [a];
    if m.owner[a] == f {
      assert more[|work|] == a;
    } else if Waiting(m, work, f) {
      var i :| 0 <= i < |work| && work[i] < |m.owner| && m.owner[work[i]] == f;
      assert more[i] == work[i];
    } else {
      forall j | 0 <= j < k
        ensures Obeyed(m.bodies[f][j], s + {a})
      {
        assert Obeyed(m.bodies[f][j], s);
        KnownIsLocal(m.bodies[f][j].op, m, f, s, a, 0);
      }
    }
  }

  /** Every function but f is settled (those from n on not yet looked at). */
  ghost predicate OthersSettled(m: Module, s: set<nat>, work: seq<nat>, f: nat, n: nat) {
    forall g :: 0 <= g < n && g < |m.bodies| && g != f ==> Settled(m, s, work, g, |m.bodies[g]|)
  }

  method Scan(m: Module, f: nat, s0: set<nat>, work0: seq<nat>, ghost n: nat) returns (s: set<nat>, work: seq<nat>)
    requires ModuleOk(m) && f < |m.bodies| && Marked(m, s0, work0) && OthersSettled(m, s0, work0, f, n)
    ensures Marked(m, s, work) && s0 <= s && (s == s0 ==> work == work0)
    ensures OthersSettled(m, s, work, f, n) && Settled(m, s, work, f, |m.bodies[f]|)
  {
    s, work := s0, work0;
    for k := 0 to |m.bodies[f]|
      invariant Marked(m, s, work) && s0 <= s && (s == s0 ==> work == work0)
      invariant OthersSettled(m, s, work, f, n) && Settled(m, s, work, f, k)
    {
      var p := m.bodies[f][k];
      if p.pointer && p.target !in s && KnownStack(p.op, s, 0) {
        MarkWithin(m, s, f, k);
        MarkSettles(m, s, work, p.target, f, k);
        forall g | 0 <= g < n && g < |m.bodies| && g != f
          ensures Settled(m, s + {p.target}, work + [p.target], g, |m.bodies[g]|)
        {
          MarkSettles(m, s, work, p.target, g, |m.bodies[g]|);
        }
        s, work := s + {p.target}, work + [p.target];
      }
      assert Obeyed(p, s);
    }
  }

  /** The result is the least set closed under the rule, whatever the order in
      which functions and operands are visited. */
  method StackPointerArguments(m: Module) returns (s: set<nat>)
    requires ModuleOk(m)
    ensures Least(m, s)
  {
    s := {};
    var work: seq<nat> := [];
    for f := 0 to |m.bodies|
      invariant Marked(m, s, work) && OthersSettled(m, s, work, f, f)
    {
      hide Marked, Settled;
      s, work := Scan(m, f, s, work, f);
    }
    while |work| > 0
      invariant Marked(m, s, work) && forall g :: 0 <= g < |m.bodies| ==> Settled(m, s, work, g, |m.bodies[g]|)
      decreases |m.owner| - |s|, |work|
    {
      var a, rest := work[|work| - 1], work[..|work| - 1];
      assert work == rest + [a] && a in s;
      var f := m.owner[a];
      forall g | 0 <= g < |m.bodies| && g != f
        ensures Settled(m, s, rest, g, |m.bodies[g]|)
      {
        assert Settled(m, s, work, g, |m.bodies[g]|);
        if Waiting(m, work, g) { StillWaiting(m, rest, a, g); }
      }
      ghost var before := s;
      s, work := Scan(m, f, s, rest, |m.bodies|);
      BoundedCount(s, |m.owner|);
      if s != before { GrowsCount(before, s); }
    }
    forall f, k | 0 <= f < |m.bodies| && 0 <= k < |m.bodies[f]|
      ensures Obeyed(m.bodies[f][k], s)
    {
      assert Settled(m, s, work, f, |m.bodies[f]|);
    }
  }

  lemma StillWaiting(m: Module, rest: seq<nat>, a: nat, g: nat)
    requires Waiting(m, rest + [a], g) && a < |m.owner| && m.owner[a] != g
    ensures Waiting(m, rest, g)
  {
    var i :| 0 <= i < |rest + [a]| && (rest + [a])[i] < |m.owner| && m.owner[(rest + [a])[i]] == g;
    assert rest[i] == (rest + [a])[i];
  }
}
