/** The stack check at function entry and the cold block that grows the stack. */
module StackCheck {
  import opened FrameMachine
  import FrameCall

  // ----- the check -----

  datatype Tier = Small | Big | Huge

  function TierOf(frame: nat, small: nat, big: nat): Tier {
    if frame <= small then Small else if frame <= big then Big else Huge
  }

  predicate IsWord(x: int) { 0 <= x < WORDS }

  /** What the emitted compare and branches do: true when the body is reached. */
  predicate ToBody(t: Tier, sp: int, guard: int, over: int) {
    match t
    case Small => sp > guard
    case Big => W(sp - over) > guard
    case Huge => sp >= over && W(sp - over) > guard
  }

  /** The frame ends above the guard, over the integers. */
  predicate Enough(sp: int, frame: nat, guard: int, small: nat) { sp - frame > guard - small }

  /** The small tier tests one address for all its frames: the body is reached
      exactly if the largest of them would fit. */
  lemma SmallTier(sp: int, frame: nat, guard: int, small: nat, big: nat)
    requires TierOf(frame, small, big) == Small
    ensures ToBody(Small, sp, guard, frame - small) <==> Enough(sp, small, guard, small)
    ensures ToBody(Small, sp, guard, frame - small) ==> Enough(sp, frame, guard, small)
  {
  }

  /** In every tier a function whose frame fits above the guard itself reaches its
      body; none asks for more than that. */
  lemma RoomIsEnough(sp: int, frame: nat, guard: int, small: nat, big: nat)
    requires small <= big < WORDS && IsWord(sp) && IsWord(guard) && sp - frame > guard
    ensures ToBody(TierOf(frame, small, big), sp, guard, frame - small)
  {
  }

  /** The huge tier tests the borrow, so it is exact for every SP. */
  lemma HugeTier(sp: int, frame: nat, guard: int, small: nat, big: nat)
    requires TierOf(frame, small, big) == Huge && small <= big && IsWord(sp) && IsWord(guard)
    ensures ToBody(Huge, sp, guard, frame - small) <==> Enough(sp, frame, guard, small)
  {
  }

  /** The big tier does not: below the overhang it may wrap. It is safe exactly
      when it does not wrap or the wrapped value still fails the compare. */
  lemma BigTier(sp: int, frame: nat, guard: int, small: nat, big: nat)
    requires TierOf(frame, small, big) == Big && small <= big < WORDS && IsWord(sp) && IsWord(guard)
    ensures (ToBody(Big, sp, guard, frame - small) ==> Enough(sp, frame, guard, small)) <==>
      (sp >= frame - small || W(sp - (frame - small)) <= guard)
    ensures sp >= frame - small ==> (ToBody(Big, sp, guard, frame - small) <==> Enough(sp, frame, guard, small))
  {
    var over := frame - small;
    if sp < over {
      assert W(sp - over) == sp - over + WORDS;
    }
  }

  /** With SP at least the big-frame limit every tier is safe. */
  lemma CheckIsSafe(sp: int, frame: nat, guard: int, small: nat, big: nat)
    requires small <= big < WORDS && IsWord(sp) && IsWord(guard) && (TierOf(frame, small, big) == Big ==> sp >= big)
    ensures ToBody(TierOf(frame, small, big), sp, guard, frame - small) ==> Enough(sp, frame, guard, small)
  {
    match TierOf(frame, small, big)
    case Small => SmallTier(sp, frame, guard, small, big);
    case Big => BigTier(sp, frame, guard, small, big);
    case Huge => HugeTier(sp, frame, guard, small, big);
  }

  /** A small SP with a big frame slips through. */
  lemma BigTierWraps()
    ensures TierOf(4096, 128, 4096) == Big && ToBody(Big, 1000, 2000, 4096 - 128) && !Enough(1000, 4096, 2000, 128)
  {
    assert W(1000 - 3968) == 1000 - 3968 + WORDS;
  }

  // ----- the cold block -----

  /** Registers by number; a vector register is two words. */
  datatype Cpu = Cpu(sp: int, regs: nat -> int, lo: nat -> int, hi: nat -> int, mem: int -> int)

  datatype Op =
    | Push(r: nat) | Pop(r: nat) | Lower(k: nat) | Raise(k: nat) | SaveX(x: nat) | LoadX(x: nat) | LoadG(r: nat)

  function Set(f: nat -> int, r: nat, v: int): nat -> int { (x: nat) => if x == r then v else f(x) }

  function Put(f: int -> int, a: int, v: int): int -> int { x => if x == a then v else f(x) }

  function Step(g: int, op: Op, s: Cpu): Cpu {
    match op
    case Push(r) => s.(sp := s.sp - 8, mem := Put(s.mem, s.sp - 8, s.regs(r)))
    case Pop(r) => s.(sp := s.sp + 8, regs := Set(s.regs, r, s.mem(s.sp)))
    case Lower(k) => s.(sp := s.sp - k)
    case Raise(k) => s.(sp := s.sp + k)
    case SaveX(x) => s.(mem := Put(Put(s.mem, s.sp + 16 * x, s.lo(x)), s.sp + 16 * x + 8, s.hi(x)))
    case LoadX(x) => s.(lo := Set(s.lo, x, s.mem(s.sp + 16 * x)), hi := Set(s.hi, x, s.mem(s.sp + 16 * x + 8)))
    case LoadG(r) => s.(regs := Set(s.regs, r, g))
  }

  function Run(g: int, ops: seq<Op>, s: Cpu): Cpu {
    if ops == [] then s else Step(g, ops[|ops| - 1], Run(g, ops[..|ops| - 1], s))
  }

  lemma {:induction false} RunBoth(g: int, a: seq<Op>, b: seq<Op>, s: Cpu)
    ensures Run(g, a + b, s) == Run(g, b, Run(g, a, s))
  {
    if b == [] {
      assert a + b == a;
    } else {
      RunBoth(g, a, b[..|b| - 1], s);
      assert (a + b)[..|a + b| - 1] == a + b[..|b| - 1];
    }
  }

  lemma RunSnoc(g: int, ops: seq<Op>, op: Op, s: Cpu)
    ensures Run(g, ops + [op], s) == Step(g, op, Run(g, ops, s))
  {
    assert (ops + [op])[..|ops|] == ops;
  }

  lemma RunSingle(g: int, op: Op, s: Cpu)
    ensures Run(g, [op], s) == Step(g, op, s)
  {
    assert [op][..0] == [];
  }

  function Pushes(rs: seq<nat>): seq<Op> { if rs == [] then [] else Pushes(rs[..|rs| - 1]) + [Push(rs[|rs| - 1])] }

  /** The same registers, last first. */
  function Pops(rs: seq<nat>): seq<Op> { if rs == [] then [] else Pops(rs[1..]) + [Pop(rs[0])] }

  function Saves(n: nat): seq<Op> { if n == 0 then [] else Saves(n - 1) + [SaveX(n - 1)] }

  function Restores(n: nat): seq<Op> { if n == 0 then [] else Restores(n - 1) + [LoadX(n - 1)] }

  /** Register i of the list is in its word below top. */
  ghost predicate SavedReg(rs: seq<nat>, i: nat, top: int, s: Cpu, mem: int -> int)
    requires i < |rs|
  {
    mem(top - 8 * (i + 1)) == s.regs(rs[i])
  }

  ghost predicate LoadedReg(rs: seq<nat>, i: nat, top: int, mem: int -> int, t: Cpu)
    requires i < |rs|
  {
    t.regs(rs[i]) == mem(top - 8 * (i + 1))
  }

  /** Vector register x is in its two words above base. */
  ghost predicate SavedVec(x: nat, base: int, s: Cpu, mem: int -> int) {
    mem(base + 16 * x) == s.lo(x) && mem(base + 16 * x + 8) == s.hi(x)
  }

  ghost predicate LoadedVec(x: nat, base: int, mem: int -> int, t: Cpu) {
    t.lo(x) == mem(base + 16 * x) && t.hi(x) == mem(base + 16 * x + 8)
  }

  lemma {:induction false} PushesRun(g: int, rs: seq<nat>, s: Cpu)
    ensures var t := Run(g, Pushes(rs), s);
      && t == s.(sp := s.sp - 8 * |rs|, mem := t.mem)
      && (forall i :: 0 <= i < |rs| ==> SavedReg(rs, i, s.sp, s, t.mem))
      && (forall a: int :: a >= s.sp || a < s.sp - 8 * |rs| ==> t.mem(a) == s.mem(a))
  {
    if rs != [] {
      hide Run;
      var m := |rs| - 1;
      PushesRun(g, rs[..m], s);
      RunSnoc(g, Pushes(rs[..m]), Push(rs[m]), s);
      var t0, t := Run(g, Pushes(rs[..m]), s), Run(g, Pushes(rs), s);
      forall i | 0 <= i < |rs|
        ensures SavedReg(rs, i, s.sp, s, t.mem)
      {
        if i < m { assert SavedReg(rs[..m], i, s.sp, s, t0.mem); }
      }
    }
  }

  lemma {:induction false} PushesJoin(a: seq<nat>, b: seq<nat>)
    ensures Pushes(a + b) == Pushes(a) + Pushes(b) && Pops(a + b) == Pops(b) + Pops(a)
  {
    PushesAppend(a, b);
    PopsAppend(a, b);
  }

  lemma {:induction false} PushesAppend(a: seq<nat>, b: seq<nat>)
    ensures Pushes(a + b) == Pushes(a) + Pushes(b)
  {
    if b == [] {
      assert a + b == a;
    } else {
      PushesAppend(a, b[..|b| - 1]);
      assert (a + b)[..|a + b| - 1] == a + b[..|b| - 1];
    }
  }

  lemma {:induction false} PopsAppend(a: seq<nat>, b: seq<nat>)
    ensures Pops(a + b) == Pops(b) + Pops(a)
  {
    if a == [] {
      assert a + b == b;
    } else {
      PopsAppend(a[1..], b);
      assert (a + b)[1..] == a[1..] + b;
    }
  }

  /** Each register's word was found where it was pushed. */
  ghost predicate Popped(rs: seq<nat>, s: Cpu, t: Cpu) {
    && t == s.(sp := s.sp + 8 * |rs|, regs := t.regs)
    && (forall i :: 0 <= i < |rs| ==> LoadedReg(rs, i, t.sp, s.mem, t))
    && (forall r: nat :: r !in rs ==> t.regs(r) == s.regs(r))
  }

  lemma PopOne(g: int, rs: seq<nat>, s: Cpu, t: Cpu)
    requires rs != [] && Popped(rs[1..], s, t) && rs[0] !in rs[1..]
    ensures Popped(rs, s, Step(g, Pop(rs[0]), t))
  {
    var rest, u := rs[1..], Step(g, Pop(rs[0]), t);
    forall i | 0 <= i < |rs|
      ensures LoadedReg(rs, i, u.sp, s.mem, u)
    {
      if i > 0 { assert rs[i] == rest[i - 1] && LoadedReg(rest, i - 1, t.sp, s.mem, t); }
    }
    forall r: nat | r !in rs
      ensures u.regs(r) == s.regs(r)
    {
      assert r !in rest;
    }
  }

  lemma {:induction false} PopsRun(g: int, rs: seq<nat>, s: Cpu)
    requires forall i, j :: 0 <= i < j < |rs| ==> rs[i] != rs[j]
    ensures Popped(rs, s, Run(g, Pops(rs), s))
  {
    if rs != [] {
      hide Run, Popped, Step;
      PopsRun(g, rs[1..], s);
      RunSnoc(g, Pops(rs[1..]), Pop(rs[0]), s);
      PopOne(g, rs, s, Run(g, Pops(rs[1..]), s));
    }
  }

  lemma {:induction false} SavesRun(g: int, n: nat, s: Cpu)
    ensures var t := Run(g, Saves(n), s);
      && t == s.(mem := t.mem)
      && (forall x: nat :: x < n ==> SavedVec(x, s.sp, s, t.mem))
      && (forall a: int :: a < s.sp || a >= s.sp + 16 * n ==> t.mem(a) == s.mem(a))
  {
    if n > 0 {
      hide Run;
      SavesRun(g, n - 1, s);
      RunSnoc(g, Saves(n - 1), SaveX(n - 1), s);
      var t0, t := Run(g, Saves(n - 1), s), Run(g, Saves(n), s);
      forall x: nat | x < n
        ensures SavedVec(x, s.sp, s, t.mem)
      {
        if x < n - 1 { assert SavedVec(x, s.sp, s, t0.mem); }
      }
    }
  }

  lemma {:induction false} RestoresRun(g: int, n: nat, s: Cpu)
    ensures var t := Run(g, Restores(n), s);
      && t == s.(lo := t.lo, hi := t.hi)
      && (forall x: nat :: x < n ==> LoadedVec(x, s.sp, s.mem, t))
      && (forall x: nat :: x >= n ==> t.lo(x) == s.lo(x) && t.hi(x) == s.hi(x))
  {
    if n > 0 {
      hide Run;
      RestoresRun(g, n - 1, s);
      RunSnoc(g, Restores(n - 1), LoadX(n - 1), s);
      var t0, t := Run(g, Restores(n - 1), s), Run(g, Restores(n), s);
      forall x: nat | x < n
        ensures LoadedVec(x, s.sp, s.mem, t)
      {
        if x < n - 1 { assert LoadedVec(x, s.sp, s.mem, t0); }
      }
    }
  }

  /** The first half, for any list of registers and n vector registers. */
  function SaveCode(rs: seq<nat>, n: nat, greg: nat): seq<Op> {
    Pushes(rs) + [Lower(16 * n)] + Saves(n) + [LoadG(greg)]
  }

  function RestoreCode(rs: seq<nat>, n: nat): seq<Op> { Restores(n) + [Raise(16 * n)] + Pops(rs) }

  /** Appends one instruction and, if SP moved, the displacement after it. */
  function Moves(op: Op): int {
    match op
    case Push(_) => 8
    case Pop(_) => -8
    case Lower(k) => k
    case Raise(k) => 0 - k
    case _ => 0
  }

  function Delta(ops: seq<Op>, base: int): int {
    if ops == [] then base else Delta(ops[..|ops| - 1], base) + Moves(ops[|ops| - 1])
  }

  /** The displacement recorded after any instruction is the true one. */
  lemma {:induction false} DeltaIsTrue(g: int, ops: seq<Op>, base: int, s: Cpu)
    ensures Run(g, ops, s).sp + Delta(ops, base) == s.sp + base
  {
    if ops != [] { DeltaIsTrue(g, ops[..|ops| - 1], base, s); }
  }

  /** The running displacement, recorded after each instruction that moves SP. */
  method RecordChanges(ops: seq<Op>) returns (changes: seq<(nat, int)>, delta: int)
    ensures delta == Delta(ops, 0)
    ensures forall k :: 0 <= k < |changes| ==> changes[k].0 < |ops| && changes[k].1 == Delta(ops[..changes[k].0 + 1], 0)
    ensures forall i :: 0 <= i < |ops| && Moves(ops[i]) != 0 ==> (i, Delta(ops[..i + 1], 0)) in changes
  {
    changes, delta := [], 0;
    for n := 0 to |ops|
      invariant delta == Delta(ops[..n], 0)
      invariant forall k :: 0 <= k < |changes| ==> changes[k].0 < n && changes[k].1 == Delta(ops[..changes[k].0 + 1], 0)
      invariant forall i :: 0 <= i < n && Moves(ops[i]) != 0 ==> (i, Delta(ops[..i + 1], 0)) in changes
    {
      assert ops[..n + 1][..n] == ops[..n];
      delta := delta + Moves(ops[n]);
      if Moves(ops[n]) != 0 { changes := changes + [(n, delta)]; }
    }
    assert ops[..|ops|] == ops;
  }

  lemma {:induction false} DeltaBoth(a: seq<Op>, b: seq<Op>, base: int)
    ensures Delta(a + b, base) == Delta(b, Delta(a, base))
  {
    if b == [] {
      assert a + b == a;
    } else {
      DeltaBoth(a, b[..|b| - 1], base);
      assert (a + b)[..|a + b| - 1] == a + b[..|b| - 1];
    }
  }

  lemma DeltaSingle(op: Op, base: int)
    ensures Delta([op], base) == base + Moves(op)
  {
    assert [op][..0] == [];
  }

  lemma {:induction false} DeltaPushes(rs: seq<nat>, base: int)
    ensures Delta(Pushes(rs), base) == base + 8 * |rs|
  {
    if rs != [] {
      DeltaPushes(rs[..|rs| - 1], base);
      DeltaBoth(Pushes(rs[..|rs| - 1]), [Push(rs[|rs| - 1])], base);
      DeltaSingle(Push(rs[|rs| - 1]), base + 8 * (|rs| - 1));
    }
  }

  lemma {:induction false} DeltaPops(rs: seq<nat>, base: int)
    ensures Delta(Pops(rs), base) == base - 8 * |rs|
  {
    if rs != [] {
      DeltaPops(rs[1..], base);
      DeltaBoth(Pops(rs[1..]), [Pop(rs[0])], base);
      DeltaSingle(Pop(rs[0]), base - 8 * (|rs| - 1));
    }
  }

  lemma {:induction false} DeltaVectors(n: nat, base: int)
    ensures Delta(Saves(n), base) == base && Delta(Restores(n), base) == base
  {
    if n > 0 {
      DeltaVectors(n - 1, base);
      DeltaBoth(Saves(n - 1), [SaveX(n - 1)], base);
      DeltaBoth(Restores(n - 1), [LoadX(n - 1)], base);
      DeltaSingle(SaveX(n - 1), base);
      DeltaSingle(LoadX(n - 1), base);
    }
  }

  /** The block is balanced: what it lowers it raises. */
  lemma Balanced(rs: seq<nat>, n: nat, greg: nat)
    ensures Delta(SaveCode(rs, n, greg) + RestoreCode(rs, n), 0) == 0
  {
    hide Delta, Pushes, Pops, Saves, Restores;
    var k := 8 * |rs|;
    var c1, c2, c3, c4 := Pushes(rs), [Lower(16 * n)], Saves(n), [LoadG(greg)];
    DeltaPushes(rs, 0);
    DeltaSingle(Lower(16 * n), k);
    DeltaVectors(n, k + 16 * n);
    DeltaSingle(LoadG(greg), k + 16 * n);
    DeltaBoth(c1, c2, 0);
    DeltaBoth(c1 + c2, c3, 0);
    DeltaBoth(c1 + c2 + c3, c4, 0);
    var d1, d2, d3 := Restores(n), [Raise(16 * n)], Pops(rs);
    DeltaSingle(Raise(16 * n), k + 16 * n);
    DeltaPops(rs, k);
    DeltaBoth(d1, d2, k + 16 * n);
    DeltaBoth(d1 + d2, d3, k + 16 * n);
    DeltaBoth(SaveCode(rs, n, greg), RestoreCode(rs, n), 0);
  }

  /** Where the first half puts things: registers in the words below the entry
      SP, vector registers in the area below those. */
  ghost predicate Stored(rs: seq<nat>, n: nat, s: Cpu, t: Cpu) {
    && t.sp == s.sp - 8 * |rs| - 16 * n
    && (forall i :: 0 <= i < |rs| ==> SavedReg(rs, i, s.sp, s, t.mem))
    && (forall x: nat :: x < n ==> SavedVec(x, t.sp, s, t.mem))
  }

  lemma SaveRun(g: int, rs: seq<nat>, n: nat, greg: nat, s: Cpu)
    ensures Stored(rs, n, s, Run(g, SaveCode(rs, n, greg), s))
  {
    hide Run, Pushes, Saves;
    var c1, c2, c3, c4 := Pushes(rs), [Lower(16 * n)], Saves(n), [LoadG(greg)];
    var t1 := Run(g, c1, s);
    var t2 := Run(g, c2, t1);
    var t3 := Run(g, c3, t2);
    PushesRun(g, rs, s);
    RunSingle(g, Lower(16 * n), t1);
    SavesRun(g, n, t2);
    RunSingle(g, LoadG(greg), t3);
    RunBoth(g, c1, c2, s);
    RunBoth(g, c1 + c2, c3, s);
    RunBoth(g, c1 + c2 + c3, c4, s);
    var t := Run(g, c4, t3);
    forall i | 0 <= i < |rs|
      ensures SavedReg(rs, i, s.sp, s, t.mem)
    {
      assert SavedReg(rs, i, s.sp, s, t1.mem) && s.sp - 8 * (i + 1) >= t2.sp + 16 * n;
    }
    forall x: nat | x < n
      ensures SavedVec(x, t.sp, s, t.mem)
    {
      assert SavedVec(x, t2.sp, t2, t3.mem);
    }
  }

  ghost predicate Reloaded(rs: seq<nat>, n: nat, s: Cpu, t: Cpu) {
    && t.sp == s.sp + 16 * n + 8 * |rs|
    && (forall i :: 0 <= i < |rs| ==> LoadedReg(rs, i, t.sp, s.mem, t))
    && (forall x: nat :: x < n ==> LoadedVec(x, s.sp, s.mem, t))
  }

  lemma RestoreRun(g: int, rs: seq<nat>, n: nat, s: Cpu)
    requires forall i, j :: 0 <= i < j < |rs| ==> rs[i] != rs[j]
    ensures Reloaded(rs, n, s, Run(g, RestoreCode(rs, n), s))
  {
    hide Run, Pops, Restores;
    var c1, c2, c3 := Restores(n), [Raise(16 * n)], Pops(rs);
    var t1 := Run(g, c1, s);
    var t2 := Run(g, c2, t1);
    RestoresRun(g, n, s);
    RunSingle(g, Raise(16 * n), t1);
    PopsRun(g, rs, t2);
    RunBoth(g, c1, c2, s);
    RunBoth(g, c1 + c2, c3, s);
    var t := Run(g, c3, t2);
    forall i | 0 <= i < |rs|
      ensures LoadedReg(rs, i, t.sp, s.mem, t)
    {
      assert LoadedReg(rs, i, t.sp, t2.mem, t);
    }
    forall x: nat | x < n
      ensures LoadedVec(x, s.sp, s.mem, t)
    {
      assert LoadedVec(x, s.sp, s.mem, t1);
    }
  }

  /** morestack returns with SP and the saved area moved by delta; copied says
      what it left of the word at each old address. Registers are lost. */
  ghost predicate Grown(s: Cpu, t: Cpu, delta: int, size: nat, copied: int -> int) {
    t.sp == s.sp + delta && forall a: int {:trigger copied(a)} :: s.sp <= a < s.sp + size ==>
      t.mem(a + delta) == copied(a)
  }

  /** The block comes back to the check with SP at the (moved) entry SP and every
      saved register holding what the runtime made of the word it was saved in. */
  lemma StubRestores(g: int, rs: seq<nat>, n: nat, greg: nat, s: Cpu, t: Cpu, delta: int, copied: int -> int)
    requires forall i, j :: 0 <= i < j < |rs| ==> rs[i] != rs[j]
    requires Grown(Run(g, SaveCode(rs, n, greg), s), t, delta, 8 * |rs| + 16 * n, copied)
    ensures var m, u := Run(g, SaveCode(rs, n, greg), s), Run(g, RestoreCode(rs, n), t);
      && u.sp == s.sp + delta
      && (forall i :: 0 <= i < |rs| ==> LoadedReg(rs, i, s.sp, copied, u) && SavedReg(rs, i, s.sp, s, m.mem))
      && (forall x: nat :: x < n ==> LoadedVec(x, m.sp, copied, u) && SavedVec(x, m.sp, s, m.mem))
  {
    hide Run, SaveCode, RestoreCode;
    SaveRun(g, rs, n, greg, s);
    RestoreRun(g, rs, n, t);
    var m, u := Run(g, SaveCode(rs, n, greg), s), Run(g, RestoreCode(rs, n), t);
    forall i | 0 <= i < |rs|
      ensures LoadedReg(rs, i, s.sp, copied, u)
    {
      assert LoadedReg(rs, i, u.sp, t.mem, u);
      WordCopied(m, t, delta, 8 * |rs| + 16 * n, copied, s.sp - 8 * (i + 1), u.sp - 8 * (i + 1));
    }
    forall x: nat | x < n
      ensures LoadedVec(x, m.sp, copied, u)
    {
      assert LoadedVec(x, t.sp, t.mem, u);
      WordCopied(m, t, delta, 8 * |rs| + 16 * n, copied, m.sp + 16 * x, t.sp + 16 * x);
      WordCopied(m, t, delta, 8 * |rs| + 16 * n, copied, m.sp + 16 * x + 8, t.sp + 16 * x + 8);
    }
  }

  lemma WordCopied(s: Cpu, t: Cpu, delta: int, size: nat, copied: int -> int, a: int, b: int)
    requires Grown(s, t, delta, size, copied) && s.sp <= a < s.sp + size && b == a + delta
    ensures t.mem(b) == copied(a)
  {
  }

  /** If the runtime copies every word as it is, nothing was lost. */
  lemma StubKeepsRegisters(g: int, rs: seq<nat>, n: nat, greg: nat, s: Cpu, t: Cpu, delta: int, copied: int -> int,
      i: nat)
    requires forall i, j :: 0 <= i < j < |rs| ==> rs[i] != rs[j]
    requires Grown(Run(g, SaveCode(rs, n, greg), s), t, delta, 8 * |rs| + 16 * n, copied) && i < |rs|
    requires copied(s.sp - 8 * (i + 1)) == Run(g, SaveCode(rs, n, greg), s).mem(s.sp - 8 * (i + 1))
    ensures Run(g, RestoreCode(rs, n), t).regs(rs[i]) == s.regs(rs[i])
  {
    hide Run, SaveCode, RestoreCode, Grown;
    StubRestores(g, rs, n, greg, s, t, delta, copied);
    assert LoadedReg(rs, i, s.sp, copied, Run(g, RestoreCode(rs, n), t))
      && SavedReg(rs, i, s.sp, s, Run(g, SaveCode(rs, n, greg), s).mem);
  }

  // ----- the registers the block saves -----

  // Hardware numbers: rax 0, rcx 1, rdx 2, rbx 3, rbp 5, rsi 6, rdi 7, r8..r15.
  const ARGS: seq<nat> := [5, 0, 7, 6, 2, 1, 8, 9]
  const SAVED: seq<nat> := [3, 12, 13, 15, 14]
  const VECTORS: nat := 8
  const R14: nat := 14

  /** The block as emitted: arguments, then callee-saved registers, then the
      vector registers in 128 bytes; and all of it back in reverse. */
  method EmitStub() returns (before: seq<Op>, after: seq<Op>)
    ensures before == SaveCode(ARGS + SAVED, VECTORS, R14) && after == RestoreCode(ARGS + SAVED, VECTORS)
    ensures forall i, j :: 0 <= i < j < |ARGS + SAVED| ==> (ARGS + SAVED)[i] != (ARGS + SAVED)[j]
  {
    PushesJoin(ARGS, SAVED);
    hide Pushes, Pops, Saves, Restores;
    before := Pushes(ARGS) + Pushes(SAVED);
    before := before + [Lower(128)];
    before := before + Saves(VECTORS);
    before := before + [LoadG(R14)];
    after := Restores(VECTORS) + [Raise(128)];
    var head := after;
    after := after + Pops(SAVED);
    after := after + Pops(ARGS);
    assert head + Pops(SAVED) + Pops(ARGS) == head + (Pops(SAVED) + Pops(ARGS));
  }

  /** C argument registers in order: rdi, rsi, rdx, rcx, r8, r9. */
  const C_ARGS: seq<nat> := [7, 6, 2, 1, 8, 9]

  /** Stub slot i: argument register i, words below varp. */
  function StubSlot(i: nat): nat { i + 2 }

  /** varp is where BP was saved, the first word below the entry SP; each slot
      names the word its register was pushed to. */
  lemma StubSlotsNameTheirWords(g: int, s: Cpu, i: nat)
    requires i < |C_ARGS|
    ensures var varp := s.sp - 8;
      Run(g, SaveCode(ARGS + SAVED, VECTORS, R14), s).mem(varp - 8 * StubSlot(i)) == s.regs(C_ARGS[i])
  {
    hide Run, SaveCode;
    SaveRun(g, ARGS + SAVED, VECTORS, R14, s);
    assert (ARGS + SAVED)[i + 2] == ARGS[i + 2] == C_ARGS[i];
    assert SavedReg(ARGS + SAVED, i + 2, s.sp, s, Run(g, SaveCode(ARGS + SAVED, VECTORS, R14), s).mem);
    assert s.sp - 8 - 8 * StubSlot(i) == s.sp - 8 * ((i + 2) + 1);
  }

  // ----- the arm64 rebase -----

  /** add; cmp r, lo; ccmp r, hi, carry set, if no borrow; csel on borrow. */
  function Rebased(r: int, lo: int, hi: int, delta: int): int {
    var noBorrow := r >= lo;
    var carry := if noBorrow then r >= hi else true;
    if !carry then W(r + delta) else r
  }

  /** The address moves exactly when it lay in the old stack, between the old SP
      and the old top. */
  lemma RebaseChecksTheOldStack(r: int, sp: int, hi: int, oldSp: int, oldTop: int, move: int)
    requires IsWord(r) && IsWord(oldSp) && IsWord(oldTop) && sp == W(oldSp + move) && hi == W(oldTop + move)
    ensures Rebased(r, oldSp, W(hi - W(sp - oldSp)), W(sp - oldSp)) == if oldSp <= r < oldTop then W(r + move) else r
  {
    hide W;
    var delta := W(sp - oldSp);
    MovedBack(oldSp, move);
    assert delta == W(move);
    MovedBack(oldTop, move);
    Unwrapped(oldTop);
    assert W(hi - delta) == oldTop;
    FrameCall.WrapAdd(r, move);
    assert W(r + delta) == W(r + move);
  }

  lemma MovedBack(x: int, move: int)
    ensures W(W(x + move) - x) == W(move) && W(W(x + move) - W(move)) == W(x)
  {
    FrameCall.WrapAdd(x + move, x);
    FrameCall.WrapAdd(x + move, W(move));
    FrameCall.WrapAdd(x + move, move);
    hide W;
    assert x + move - x == move && x + move - move == x;
  }

  lemma Unwrapped(x: int)
    requires IsWord(x)
    ensures W(x) == x
  {
  }
}
