/** Copy groups. A copy names its group after the instruction, so a second
    execution reuses a name that another location may still carry. The reuse is
    harmless exactly when the state already forces that location to hold the
    copied word (or says that one of the two holds nothing at all). */
module FrameGroups {
  import opened Options
  import opened FrameLattice
  import opened FrameTransfer
  import opened FrameMachine
  import opened FrameSound

  /** What a state says about one word: the kinds it is given (by the location
      and by the slot the location copies) and the locations that hold it. */
  datatype Side = Side(first: Kind, second: Kind, locs: set<Loc>)

  function SideOf(s: AState, l: Loc): (a: Side)
    requires |s.units| == GPRS && InRange(l, |s.slots|)
    ensures forall k :: k in a.locs ==> InRange(k, |s.slots|)
  {
    var v := ValAt(s, l);
    if 0 <= v.alias < |s.slots| then Side(v.kind, s.slots[v.alias].kind, {l, S(v.alias)}) else Side(v.kind, v.kind, {l})
  }

  /** The word a copy or a reload transports. */
  function SourceSide(s: AState, i: Instr): (a: Side)
    requires |s.units| == GPRS && (i.Mov? || i.Load?) && ValidInstr(i, |s.slots|)
    ensures forall k :: k in a.locs ==> InRange(k, |s.slots|)
  {
    match i
    case Load(_, sl, _) => SideOf(s, S(sl))
    case Mov(_, Gpr(n), _) => SideOf(s, R(n))
    case Mov(_, Frame(b), _) => Side(Exact(b, 0), Exact(b, 0), {})
  }

  /** Some word has both kinds, for a suitable distance between RBP and RSP. */
  predicate Meet(j: Kind, k: Kind) {
    && !j.Unset? && !k.Unset?
    && !(j.Plain? && (k.Exact? || k.Shifts?)) && !(k.Plain? && (j.Exact? || j.Shifts?))
    && (j.Exact? && k.Exact? && j.base == k.base ==> j == k)
  }

  /** The distance RBP - RSP that a word exact on both bases implies. */
  function Gap(a: Side): Option<int> {
    if a.first.Exact? && a.second.Exact? && a.first.base != a.second.base then
      Some(if a.first.base.RBP? then a.second.off - a.first.off else a.first.off - a.second.off)
    else None
  }

  predicate SharesExact(a: Side, b: Side) {
    || (a.first.Exact? && (a.first == b.first || a.first == b.second))
    || (a.second.Exact? && (a.second == b.first || a.second == b.second))
  }

  predicate SharesName(s: AState, a: Side, b: Side)
    requires |s.units| == GPRS
    requires forall l :: (l in a.locs || l in b.locs) ==> InRange(l, |s.slots|)
  {
    exists l, k :: l in a.locs && k in b.locs && ValAt(s, l).copyId == ValAt(s, k).copyId != NO_COPY
  }

  /** Nothing in the state rules out two different words. */
  predicate Distinguishable(s: AState, a: Side, b: Side)
    requires |s.units| == GPRS
    requires forall l :: (l in a.locs || l in b.locs) ==> InRange(l, |s.slots|)
  {
    && Meet(a.first, a.second) && Meet(b.first, b.second)
    && (Gap(a).Some? && Gap(b).Some? ==> Gap(a) == Gap(b))
    && !SharesExact(a, b) && a.locs !! b.locs && !SharesName(s, a, b)
  }

  /** The copy gives its name to some register. */
  predicate Names(s: AState, i: Instr)
    requires |s.units| == GPRS && ValidInstr(i, |s.slots|)
  {
    StartsGroup(InvalidateAll(s, Defs(i)), i) && (i.dst.Gpr? || (i.Mov? && i.src.Gpr?))
  }

  /** `l` keeps the name the copy is about to use. */
  predicate Carries(s: AState, i: Instr, l: Loc)
    requires |s.units| == GPRS && ValidInstr(i, |s.slots|) && (i.Mov? || i.Load?) && InRange(l, |s.slots|)
  {
    ValAt(InvalidateAll(s, Defs(i)), l).copyId == i.id && !(l.R? && i.dst == Gpr(l.n))
  }

  /** Every location that still carries the name holds the copied word already. */
  ghost predicate FreshGroup(s: AState, i: Instr)
    requires |s.units| == GPRS && ValidInstr(i, |s.slots|)
  {
    (i.Mov? || i.Load?) && Names(s, i) ==>
      forall l :: InRange(l, |s.slots|) && Carries(s, i, l) ==> !Distinguishable(s, SourceSide(s, i), SideOf(s, l))
  }

  // ----- the condition is enough -----

  ghost predicate SideHolds(a: Side, x: Sym, m: Ideal)
    requires |m.regs| == GPRS && forall l :: l in a.locs ==> InRange(l, |m.slots|)
  {
    x.Lin? ==> KindHolds(a.first, x, m) && KindHolds(a.second, x, m) && forall l :: l in a.locs ==> SymAt(m, l) == x
  }

  lemma SideTrue(s: AState, m: Ideal, l: Loc)
    requires Sound(s, m) && InRange(l, |m.slots|)
    ensures SideHolds(SideOf(s, l), SymAt(m, l), m)
  {
    var v := ValAt(s, l);
    assert Holds(v, SymAt(m, l), m);
    if 0 <= v.alias < |s.slots| { assert Holds(ValAt(s, S(v.alias)), SymAt(m, S(v.alias)), m); }
  }

  lemma SourceTrue(s: AState, m: Ideal, i: Instr)
    requires Sound(s, m) && (i.Mov? || i.Load?) && ValidInstr(i, |m.slots|)
    ensures SideHolds(SourceSide(s, i), Copied(m, i), m)
  {
    if i.Load? { SideTrue(s, m, S(i.slot)); }
    else if i.src.Gpr? { SideTrue(s, m, R(i.src.n)); }
  }

  function Copied(m: Ideal, i: Instr): Sym
    requires |m.regs| == GPRS && (i.Mov? || i.Load?) && ValidInstr(i, |m.slots|)
  {
    if i.Load? then m.slots[i.slot] else IdealRead(m, i.src)
  }

  lemma SameWord(s: AState, m: Ideal, a: Side, x: Sym, b: Side, y: Sym)
    requires Sound(s, m) && forall l :: (l in a.locs || l in b.locs) ==> InRange(l, |m.slots|)
    requires x.Lin? && y.Lin? && SideHolds(a, x, m) && SideHolds(b, y, m) && !Distinguishable(s, a, b)
    ensures x == y
  {
    if SharesName(s, a, b) {
      var l, k :| l in a.locs && k in b.locs && ValAt(s, l).copyId == ValAt(s, k).copyId != NO_COPY;
      GroupTrue(s, m, l, k);
    } else if l :| l in a.locs && l in b.locs {
      assert SymAt(m, l) == x == y;
    } else {
      assert a.locs !! b.locs;
    }
  }

  lemma GroupTrue(s: AState, m: Ideal, l: Loc, k: Loc)
    requires Sound(s, m) && InRange(l, |m.slots|) && InRange(k, |m.slots|)
    ensures SameGroup(ValAt(s, l), SymAt(m, l), ValAt(s, k), SymAt(m, k))
  {
  }

  /** Giving the name to the copied word agrees with every location that keeps it. */
  lemma CarriersAgree(s: AState, m: Ideal, i: Instr, l: Loc)
    requires Sound(s, m) && (i.Mov? || i.Load?) && ValidInstr(i, |m.slots|) && FreshGroup(s, i) && Names(s, i)
    requires InRange(l, |m.slots|) && Carries(s, i, l)
    ensures Copied(m, i).Lin? && SymAt(m, l).Lin? ==> Copied(m, i) == SymAt(m, l)
  {
    hide Distinguishable, Names, Carries;
    SourceTrue(s, m, i);
    SideTrue(s, m, l);
    if Copied(m, i).Lin? && SymAt(m, l).Lin? {
      SameWord(s, m, SourceSide(s, i), Copied(m, i), SideOf(s, l), SymAt(m, l));
    }
  }

  lemma ValueFitsOthers(s: AState, m: Ideal, i: Instr)
    requires Sound(s, m) && (i.Mov? || i.Load?) && ValidInstr(i, |m.slots|) && FreshGroup(s, i)
    requires i.dst.Gpr? || (i.Mov? && i.src.Gpr?)
    ensures var t := InvalidateAll(s, Defs(i)); forall l :: InRange(l, |m.slots|) && !(l.R? && i.dst == Gpr(l.n)) ==>
      SameGroup(Value(t, i), Copied(m, i), ValAt(t, l), SymAt(m, l))
  {
    hide FreshGroup, Distinguishable;
    var t := InvalidateAll(s, Defs(i));
    InvalidateAllSound(s, m, Defs(i));
    forall l | InRange(l, |m.slots|) && !(l.R? && i.dst == Gpr(l.n))
      ensures SameGroup(Value(t, i), Copied(m, i), ValAt(t, l), SymAt(m, l))
    {
      if StartsGroup(t, i) {
        if Carries(s, i, l) { CarriersAgree(s, m, i, l); }
      } else if i.Load? {
        GroupTrue(t, m, S(i.slot), l);
      } else {
        ReadHolds(t, m, i.src);
      }
    }
  }

  lemma MovSound(s: AState, m: Ideal, i: Instr, ch: Choice)
    requires Sound(s, m) && i.Mov? && ValidInstr(i, |m.slots|) && |ch.syms| > 1 && FreshGroup(s, i)
    ensures Sound(Step(s, i), IdealStep(m, i, ch))
  {
    hide FreshGroup, InvalidateAll;
    var s0 := InvalidateAll(s, Defs(i));
    InvalidateAllSound(s, m, Defs(i));
    var x, v := IdealRead(m, i.src), Value(s0, i);
    ReadHolds(s0, m, i.src);
    if i.dst.Gpr? {
      ValueFitsOthers(s, m, i);
      ToRegister(s0, m, i, x, v);
      assert Step(s, i) == Write(GroupSource(s0, i), i.dst, v) by { assert Defs(i)[..0] == []; }
    } else {
      if i.src.Gpr? { ValueFitsOthers(s, m, i); }
      ToBase(s0, m, i, x, v);
      assert Step(s, i) == GroupSource(s0, i) by { assert Defs(i)[..0] == []; }
    }
  }

  /** Both ends of the copy get the name at once. */
  lemma ToRegister(s: AState, m: Ideal, i: Instr, x: Sym, v: Val)
    requires Sound(s, m) && i.Mov? && ValidInstr(i, |m.slots|) && i.dst.Gpr?
    requires x == IdealRead(m, i.src) && v == Value(s, i) && Holds(v, x, m)
    requires forall l :: InRange(l, |m.slots|) && l != R(i.dst.n) ==> SameGroup(v, x, ValAt(s, l), SymAt(m, l))
    ensures Sound(Write(GroupSource(s, i), i.dst, v), IdealWrite(m, i.dst, x))
  {
    hide Holds, KindHolds;
    var d := i.dst.n;
    if StartsGroup(s, i) && i.src.Gpr? {
      Untold(s, m, d);
      var t := Write(s, i.dst, Of(Tainted));
      WriteSound(t, m, i.src.n, v, x);
      assert IdealWrite(m, i.src, x) == m;
      var u := Write(t, i.src, v);
      WriteSound(u, m, d, v, x);
      assert Write(u, i.dst, v) == Write(GroupSource(s, i), i.dst, v);
    } else {
      WriteSound(s, m, d, v, x);
    }
  }

  /** Giving up what is known of one register. */
  lemma Untold(s: AState, m: Ideal, d: nat)
    requires Sound(s, m) && d < GPRS
    ensures Sound(Write(s, Gpr(d), Of(Tainted)), m)
  {
    WriteSound(s, m, d, Of(Tainted), m.regs[d]);
    assert IdealWrite(m, Gpr(d), m.regs[d]) == m;
  }

  lemma ToBase(s: AState, m: Ideal, i: Instr, x: Sym, v: Val)
    requires Sound(s, m) && i.Mov? && ValidInstr(i, |m.slots|) && i.dst.Frame? && NoExact(s, i.dst.base)
    requires x == IdealRead(m, i.src) && v == Value(s, i) && Holds(v, x, m)
    requires i.src.Gpr? ==> forall l :: InRange(l, |m.slots|) ==> SameGroup(v, x, ValAt(s, l), SymAt(m, l))
    ensures Sound(GroupSource(s, i), IdealWrite(m, i.dst, x))
  {
    hide Holds, KindHolds;
    if StartsGroup(s, i) && i.src.Gpr? {
      WriteSound(s, m, i.src.n, v, x);
      assert IdealWrite(m, i.src, x) == m;
    }
    MoveBaseSound(GroupSource(s, i), m, i.dst.base, x);
  }

  lemma LoadSound(s: AState, m: Ideal, i: Instr, ch: Choice)
    requires Sound(s, m) && i.Load? && ValidInstr(i, |m.slots|) && |ch.syms| > 1 && FreshGroup(s, i)
    ensures Sound(Step(s, i), IdealStep(m, i, ch))
  {
    hide FreshGroup, InvalidateAll;
    var s0 := InvalidateAll(s, Defs(i));
    InvalidateAllSound(s, m, Defs(i));
    var x, v := m.slots[i.slot], Value(s0, i);
    assert Holds(ValAt(s0, S(i.slot)), SymAt(m, S(i.slot)), m);
    assert Defs(i)[..0] == [];
    if i.dst.Gpr? {
      ValueFitsOthers(s, m, i);
      WriteSound(s0, m, i.dst.n, v, x);
      assert Step(s, i) == Write(s0, i.dst, v);
    } else {
      MoveBaseSound(s0, m, i.dst.base, x);
      assert Step(s, i) == s0;
    }
  }

  // ----- the condition is needed -----

  /** Aliases name slots that exist and slots have none: true of every state
      the analysis builds (`FrameProgram.StepTidy`). */
  predicate Tidy(s: AState) {
    && (forall n :: 0 <= n < |s.units| ==> s.units[n].alias < |s.slots|)
    && (forall n :: 0 <= n < |s.slots| ==> s.slots[n].alias < 0)
  }

  function ExactOf(a: Side): Kind { if a.first.Exact? then a.first else a.second }

  /** A distance RBP - RSP that allows both words and keeps them apart. */
  function Distance(a: Side, b: Side): int {
    var j, k := ExactOf(a), ExactOf(b);
    if Gap(a).Some? then Gap(a).value
    else if Gap(b).Some? then Gap(b).value
    else if !j.Exact? || !k.Exact? then 0
    else if j.base.RBP? then k.off - j.off + 1 else j.off - k.off + 1
  }

  /** A word that moves with the stack and has both kinds; `t` is its offset if it is free. */
  function WordOf(a: Side, rbp: int, t: int): Sym {
    var k := ExactOf(a);
    if k.Exact? then Lin(1, 0, (if k.base.RBP? then rbp else 0) + k.off)
    else if a.first.Shifts? || a.second.Shifts? then Lin(1, 0, t)
    else Lin(0, 1, t)
  }

  lemma WordsDiffer(a: Side, b: Side) returns (rbp: int, x: Sym, y: Sym)
    requires Meet(a.first, a.second) && Meet(b.first, b.second) && !SharesExact(a, b)
    requires Gap(a).Some? && Gap(b).Some? ==> Gap(a) == Gap(b)
    ensures x.Lin? && y.Lin? && x != y && Coef(x) == 1
    ensures forall m: Ideal :: m.rbp == rbp && m.rsp == 0 ==> KindHolds(a.first, x, m) && KindHolds(a.second, x, m)
    ensures forall m: Ideal :: m.rbp == rbp && m.rsp == 0 ==> KindHolds(b.first, y, m) && KindHolds(b.second, y, m)
  {
    rbp := Distance(a, b);
    if ExactOf(b).Exact? {
      y := WordOf(b, rbp, 0);
      x := WordOf(a, rbp, y.off + 1);
    } else {
      x := WordOf(a, rbp, 0);
      y := WordOf(b, rbp, x.off + 1);
    }
  }

  /** A machine with `x` at one side, `y` at the other and nothing defined elsewhere. */
  function Put(l: Loc, a: Side, x: Sym, b: Side, y: Sym): Sym {
    if l in a.locs then x else if l in b.locs then y else Undef
  }

  function Placing(s: AState, rbp: int, a: Side, x: Sym, b: Side, y: Sym): (m: Ideal)
    ensures |m.regs| == |s.units| && |m.slots| == |s.slots| && m.rbp == rbp && m.rsp == 0
  {
    Ideal(seq(|s.units|, n requires 0 <= n < |s.units| => Put(R(n), a, x, b, y)),
          seq(|s.slots|, n requires 0 <= n < |s.slots| => Put(S(n), a, x, b, y)), rbp, 0)
  }

  /** A side tells all that the state says of its locations. */
  ghost predicate Describes(s: AState, a: Side)
    requires |s.units| == GPRS
  {
    forall l :: l in a.locs ==>
      && InRange(l, |s.slots|) && (ValAt(s, l).kind == a.first || ValAt(s, l).kind == a.second)
      && (ValAt(s, l).alias >= 0 ==> ValAt(s, l).alias < |s.slots| && S(ValAt(s, l).alias) in a.locs)
  }

  lemma SideDescribes(s: AState, l: Loc)
    requires |s.units| == GPRS && Tidy(s) && InRange(l, |s.slots|)
    ensures Describes(s, SideOf(s, l))
  {
  }

  lemma SourceDescribes(s: AState, i: Instr)
    requires |s.units| == GPRS && Tidy(s) && (i.Mov? || i.Load?) && ValidInstr(i, |s.slots|)
    ensures Describes(s, SourceSide(s, i))
  {
    if i.Load? { SideDescribes(s, S(i.slot)); }
    else if i.src.Gpr? { SideDescribes(s, R(i.src.n)); }
  }

  lemma PlacingSound(s: AState, rbp: int, a: Side, x: Sym, b: Side, y: Sym)
    requires |s.units| == GPRS && Describes(s, a) && Describes(s, b) && Distinguishable(s, a, b) && x.Lin? && y.Lin?
    requires forall m: Ideal :: m.rbp == rbp && m.rsp == 0 ==> KindHolds(a.first, x, m) && KindHolds(a.second, x, m)
    requires forall m: Ideal :: m.rbp == rbp && m.rsp == 0 ==> KindHolds(b.first, y, m) && KindHolds(b.second, y, m)
    ensures Sound(s, Placing(s, rbp, a, x, b, y))
  {
    hide KindHolds;
    var m := Placing(s, rbp, a, x, b, y);
    assert KindHolds(a.first, x, m) && KindHolds(a.second, x, m) && KindHolds(b.first, y, m)
      && KindHolds(b.second, y, m);
    forall l | InRange(l, |s.slots|)
      ensures SymAt(m, l) == Put(l, a, x, b, y) && Holds(ValAt(s, l), SymAt(m, l), m)
    {
      UndefHolds(ValAt(s, l), m);
    }
    forall l, k | InRange(l, |s.slots|) && InRange(k, |s.slots|)
      ensures SameGroup(ValAt(s, l), SymAt(m, l), ValAt(s, k), SymAt(m, k))
    {
    }
  }

  lemma UndefHolds(v: Val, m: Ideal)
    ensures Holds(v, Undef, m)
  {
  }

  lemma Unsound(t: AState, m: Ideal, l: Loc, k: Loc)
    requires t.Valid(|m.slots|) && m.Valid(|m.slots|) && InRange(l, |m.slots|) && InRange(k, |m.slots|)
    requires !SameGroup(ValAt(t, l), SymAt(m, l), ValAt(t, k), SymAt(m, k))
    ensures !Sound(t, m)
  {
  }

  /** The named register and the old carrier after the copy. */
  lemma TwoWordsOneName(s: AState, m: Ideal, i: Instr, ch: Choice, l: Loc)
    requires |s.units| == GPRS && (i.Mov? || i.Load?) && ValidInstr(i, |s.slots|) && |ch.syms| > 1 && m.Valid(|s.slots|)
    requires Names(s, i) && InRange(l, |s.slots|) && Carries(s, i, l) && l !in SourceSide(s, i).locs
    requires Copied(m, i).Lin? && SymAt(m, l).Lin? && Copied(m, i) != SymAt(m, l)
    ensures !Sound(Step(s, i), IdealStep(m, i, ch))
  {
    hide Sound, InvalidateAll;
    var t, m', t0 := Step(s, i), IdealStep(m, i, ch), InvalidateAll(s, Defs(i));
    var r := if i.dst.Gpr? then R(i.dst.n) else R(i.src.n);
    assert Defs(i)[..0] == [];
    assert ValAt(t, r).copyId == i.id && SymAt(m', r) == Copied(m, i);
    assert ValAt(t, l) == ValAt(t0, l) && SymAt(m', l) == SymAt(m, l);
    Unsound(t, m', r, l);
  }

  /** A copy that reuses the name of a location not known to hold the copied
      word claims, for some machine the state admits, that two different words
      are the same. */
  lemma StaleNameBreaksSoundness(s: AState, i: Instr, ch: Choice, base: int) returns (m: Ideal)
    requires |s.units| == GPRS && Tidy(s) && (i.Mov? || i.Load?) && ValidInstr(i, |s.slots|)
    requires !FreshGroup(s, i) && |ch.syms| > 1 && |ch.junk| == GPRS
    ensures |m.slots| == |s.slots| && Sound(s, m) && ChoiceOk(m, i, ch, base)
    ensures !Sound(Step(s, i), IdealStep(m, i, ch))
  {
    hide Sound, Step, IdealStep, InvalidateAll, Names, Meet, Gap, SharesExact, ChoiceOk, KindHolds, Describes, ValAt;
    var l :| InRange(l, |s.slots|) && Carries(s, i, l) && Distinguishable(s, SourceSide(s, i), SideOf(s, l));
    var a, b := SourceSide(s, i), SideOf(s, l);
    SourceDescribes(s, i);
    SideDescribes(s, l);
    var rbp, x, y := WordsDiffer(a, b);
    m := Placing(s, rbp, a, x, b, y);
    PlacingSound(s, rbp, a, x, b, y);
    assert l in b.locs && l !in a.locs && SymAt(m, l) == y;
    CopiedIs(s, i, m, x);
    MoveAllowed(m, i, ch, base);
    TwoWordsOneName(s, m, i, ch, l);
  }

  lemma MoveAllowed(m: Ideal, i: Instr, ch: Choice, base: int)
    requires |m.regs| == GPRS && (i.Mov? || i.Load?) && ValidInstr(i, |m.slots|) && |ch.syms| > 1 && |ch.junk| == GPRS
    requires Copied(m, i).Lin? && Coef(Copied(m, i)) == 1
    ensures ChoiceOk(m, i, ch, base)
  {
  }

  lemma CopiedIs(s: AState, i: Instr, m: Ideal, x: Sym)
    requires |s.units| == GPRS && (i.Mov? || i.Load?) && ValidInstr(i, |s.slots|) && m.Valid(|s.slots|)
    requires forall l :: l in SourceSide(s, i).locs ==> SymAt(m, l) == x
    requires KindHolds(SourceSide(s, i).first, x, m) && x.Lin?
    ensures Copied(m, i) == x
  {
  }

  /** The condition is exact, for copies and for reloads. */
  lemma FreshGroupIff(s: AState, i: Instr, ch: Choice, base: int)
    requires |s.units| == GPRS && Tidy(s) && (i.Mov? || i.Load?) && ValidInstr(i, |s.slots|)
    requires |ch.syms| > 1 && |ch.junk| == GPRS
    ensures FreshGroup(s, i) <==>
      forall m: Ideal :: |m.slots| == |s.slots| && Sound(s, m) && ChoiceOk(m, i, ch, base) ==>
        Sound(Step(s, i), IdealStep(m, i, ch))
  {
    hide FreshGroup, Step, IdealStep, ChoiceOk;
    if FreshGroup(s, i) {
      forall m: Ideal | |m.slots| == |s.slots| && Sound(s, m)
        ensures Sound(Step(s, i), IdealStep(m, i, ch))
      {
        if i.Mov? { MovSound(s, m, i, ch); } else { LoadSound(s, m, i, ch); }
      }
    } else {
      var m := StaleNameBreaksSoundness(s, i, ch, base);
    }
  }
}
