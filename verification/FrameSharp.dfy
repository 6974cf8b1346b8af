/** The transfer function says all that can be said. A kind that is true of every
    word an instruction can produce, on every machine the state allows, follows
    from the kind the analysis gives. */
module FrameSharp {
  import opened Options
  import opened FrameLattice
  import opened FrameTransfer
  import opened FrameMachine
  import opened FrameSound
  import opened FrameStep

  // ----- what could be said -----

  /** One way the instruction may run from a machine that fits the state. */
  ghost predicate Possible(s: AState, i: Instr, m: Ideal, ch: Choice, base: int) {
    && Sound(s, m) && ValidInstr(i, |m.slots|) && !i.Call? && |ch.syms| > |Defs(i)| && ChoiceOk(m, i, ch, base)
    && Premises(s, m, i, ch)
  }

  /** Whatever happens, the word left at l has kind k. */
  ghost predicate Always(s: AState, i: Instr, l: Loc, k: Kind)
    requires InRange(l, |s.slots|)
  {
    forall m: Ideal, ch: Choice, base: int :: Possible(s, i, m, ch, base) ==> Leaves(m, i, ch, l, k)
  }

  ghost predicate Leaves(m: Ideal, i: Instr, ch: Choice, l: Loc, k: Kind)
    requires |m.regs| == GPRS && ValidInstr(i, |m.slots|) && !i.Call? && |ch.syms| > |Defs(i)| && InRange(l, |m.slots|)
  {
    KindHolds(k, SymAt(IdealStep(m, i, ch), l), IdealStep(m, i, ch))
  }

  /** Every word of kind j has kind k. */
  ghost predicate Stronger(j: Kind, k: Kind) { forall x: Sym, m: Ideal :: KindHolds(j, x, m) ==> KindHolds(k, x, m) }

  // ----- states that speak of an operand in one voice -----

  function RegLoc(r: Reg): seq<Loc> { match r case Gpr(n) => [R(n)] case Frame(_) => [] }

  function SourceLoc(b: Source): seq<Loc> {
    match b
    case FromReg(r) => RegLoc(r)
    case FromSlot(k) => [S(k)]
    case FromMemory => []
  }

  function OptLoc(r: Option<Reg>): seq<Loc> { if r.Some? then RegLoc(r.value) else [] }

  function RegLocsOf(rs: seq<Reg>): seq<Loc> {
    if rs == [] then [] else RegLocsOf(rs[..|rs| - 1]) + RegLoc(rs[|rs| - 1])
  }

  /** The locations whose words the instruction reads. */
  function Operands(i: Instr): seq<Loc> {
    match i
    case ImplicitDef(_) => []
    case Lea(_, b, _, x, _, _) => OptLoc(b) + OptLoc(x)
    case Mov(_, r, _) => RegLoc(r)
    case AddImm(_, r, _) => RegLoc(r)
    case Add(_, a, b) => RegLoc(a) + SourceLoc(b)
    case Cmov(_, a, b) => RegLoc(a) + SourceLoc(b)
    case Sub(_, a, b, _) => RegLoc(a) + SourceLoc(b)
    case Load(_, k, _) => [S(k)]
    case Store(_, r) => RegLoc(r)
    case Other(_, vals, addrs, load, store, whole) =>
      RegLocsOf(vals + addrs) + (if load.Some? then [S(load.value)] else [])
      + if store.Some? && !whole then [S(store.value)] else []
    case Call(_, _, _) => []
  }

  /** An operand may be defined, and the slot it copies is said to be the same. */
  ghost predicate Clear(s: AState, l: Loc)
    requires |s.units| == GPRS
  {
    && InRange(l, |s.slots|) && !ValAt(s, l).kind.Unset? && ValAt(s, l).alias < |s.slots|
    && (ValAt(s, l).alias >= 0 ==>
      s.slots[ValAt(s, l).alias].kind == ValAt(s, l).kind && s.slots[ValAt(s, l).alias].alias < 0)
  }

  /** Register or slot k is a copy of slot l. */
  predicate Copies(s: AState, k: Loc, l: Loc)
    requires |s.units| == GPRS
  {
    InRange(k, |s.slots|) && ValAt(s, k).alias >= 0 && l == S(ValAt(s, k).alias)
  }

  /** The operands and the slots they copy. */
  ghost predicate Reads(s: AState, i: Instr, l: Loc)
    requires |s.units| == GPRS
  {
    l in Operands(i) || exists k :: k in Operands(i) && Copies(s, k, l)
  }

  /** Whatever the state says of one operand it says in one voice: by the operand,
      by the slot it copies and by its copy group. */
  ghost predicate OneVoice(s: AState, i: Instr)
    requires |s.units| == GPRS
  {
    && (forall l :: l in Operands(i) ==> Clear(s, l))
    && (forall l, k :: Reads(s, i, l) && Reads(s, i, k) && InRange(l, |s.slots|) && InRange(k, |s.slots|) ==>
      ValAt(s, l).copyId == ValAt(s, k).copyId != NO_COPY ==> ValAt(s, l).kind == ValAt(s, k).kind)
  }

  // ----- one machine for each way to pick words -----

  /** The bases; how often the frame enters words that leave it open; what plain
      words hold from elsewhere; the free offsets. With `still`, words that need
      not move do not. Tainted words of `apart` have one more of the frame. */
  datatype Pick = Pick(rbp: int, rsp: int, maybe: int, taint: int, far: int, off: int, still: bool, apart: set<Loc>) {
    predicate Valid() { maybe == 0 || maybe == 1 }

    function Own(k: Kind, l: Loc): int {
      match k
      case Shifts => 1
      case Exact(_, _) => 1
      case Maybe => maybe
      case Tainted => if l in apart then taint + 1 else taint
      case _ => 0
    }

    /** A word of the kind. */
    function Word(k: Kind, l: Loc): Sym {
      match k
      case Unset => Undef
      case Exact(b, c) => Lin(1, 0, (if b.RBP? then rbp else rsp) + c)
      case Plain => Lin(0, far, off)
      case _ => Lin(Own(k, l), if still then -Own(k, l) else 0, off)
    }
  }

  ghost function Picked(s: AState, i: Instr, p: Pick): (m: Ideal)
    requires |s.units| == GPRS
    ensures m.Valid(|s.slots|) && m.rbp == p.rbp && m.rsp == p.rsp
  {
    Ideal(seq(GPRS, n requires 0 <= n < GPRS => if Reads(s, i, R(n)) then p.Word(s.units[n].kind, R(n)) else Undef),
          seq(|s.slots|, n requires 0 <= n < |s.slots| =>
            if Reads(s, i, S(n)) then p.Word(s.slots[n].kind, S(n)) else Undef),
          p.rbp, p.rsp)
  }

  lemma PickedAt(s: AState, i: Instr, p: Pick, l: Loc)
    requires |s.units| == GPRS && InRange(l, |s.slots|)
    ensures SymAt(Picked(s, i, p), l) == if Reads(s, i, l) then p.Word(ValAt(s, l).kind, l) else Undef
  {
  }

  lemma WordHolds(k: Kind, p: Pick, l: Loc, m: Ideal)
    requires p.Valid() && m.rbp == p.rbp && m.rsp == p.rsp
    ensures KindHolds(k, p.Word(k, l), m)
  {
  }

  /** `apart` does not part what must be the same word. */
  ghost predicate Parts(s: AState, i: Instr, apart: set<Loc>)
    requires |s.units| == GPRS
  {
    && (forall l, k :: l in Operands(i) && Copies(s, l, k) ==> (l in apart <==> k in apart))
    && (forall l, k :: Reads(s, i, l) && Reads(s, i, k) && SameName(s, l, k) ==> (l in apart <==> k in apart))
  }

  predicate SameName(s: AState, l: Loc, k: Loc)
    requires |s.units| == GPRS
  {
    InRange(l, |s.slots|) && InRange(k, |s.slots|) && ValAt(s, l).copyId == ValAt(s, k).copyId != NO_COPY
  }

  lemma PickedSound(s: AState, i: Instr, p: Pick)
    requires |s.units| == GPRS && OneVoice(s, i) && p.Valid() && Parts(s, i, p.apart)
    ensures Sound(s, Picked(s, i, p))
  {
    var m := Picked(s, i, p);
    forall l | InRange(l, |m.slots|)
      ensures Holds(ValAt(s, l), SymAt(m, l), m)
    {
      PickedAt(s, i, p, l);
      WordHolds(ValAt(s, l).kind, p, l, m);
      if Reads(s, i, l) { AliasPicked(s, i, p, l); }
    }
    forall l, k | InRange(l, |m.slots|) && InRange(k, |m.slots|)
      ensures SameGroup(ValAt(s, l), SymAt(m, l), ValAt(s, k), SymAt(m, k))
    {
      hide Reads, Picked;
      PickedAt(s, i, p, l);
      PickedAt(s, i, p, k);
      if Reads(s, i, l) && Reads(s, i, k) && SameName(s, l, k) { assert l in p.apart <==> k in p.apart; }
    }
  }

  lemma AliasPicked(s: AState, i: Instr, p: Pick, l: Loc)
    requires |s.units| == GPRS && OneVoice(s, i) && InRange(l, |s.slots|) && Reads(s, i, l) && Parts(s, i, p.apart)
    ensures AliasHolds(ValAt(s, l), SymAt(Picked(s, i, p), l), Picked(s, i, p))
  {
    var a := ValAt(s, l).alias;
    if l in Operands(i) {
      assert Clear(s, l);
      if a >= 0 {
        assert Copies(s, l, S(a)) && Reads(s, i, S(a));
        PickedAt(s, i, p, S(a));
        PickedAt(s, i, p, l);
      }
    } else {
      var k :| k in Operands(i) && Copies(s, k, l);
      assert Clear(s, k);
    }
  }

  // ----- operands of a picked machine -----

  /** An operand that is a register. */
  function RegWord(s: AState, p: Pick, r: Reg): Sym
    requires |s.units| == GPRS && ValidReg(r)
  {
    match r
    case Gpr(n) => p.Word(s.units[n].kind, R(n))
    case Frame(b) => p.Word(Exact(b, 0), R(0))
  }

  lemma RegPicked(s: AState, i: Instr, p: Pick, r: Reg)
    requires |s.units| == GPRS && ValidReg(r) && OneVoice(s, i)
    requires r.Gpr? ==> R(r.n) in Operands(i)
    ensures IdealRead(Picked(s, i, p), r) == RegWord(s, p, r) && RegWord(s, p, r).Lin?
    ensures r.Gpr? ==> Read(s, r).kind == s.units[r.n].kind && !s.units[r.n].kind.Unset?
  {
    if r.Gpr? {
      assert Clear(s, R(r.n));
      PickedAt(s, i, p, R(r.n));
    }
  }

  function SourceWord(s: AState, p: Pick, b: Source): Sym
    requires |s.units| == GPRS && ValidSource(b, |s.slots|)
  {
    match b
    case FromReg(r) => RegWord(s, p, r)
    case FromSlot(k) => p.Word(s.slots[k].kind, S(k))
    case FromMemory => Lin(0, p.far, p.off)
  }

  /** What memory and unlisted instructions give. */
  function Given(i: Instr, x: Sym, cond: bool): (ch: Choice)
    ensures |ch.syms| == |Defs(i)| + 1 && |ch.junk| == GPRS && forall k :: 0 <= k < |ch.syms| ==> ch.syms[k] == x
  {
    var v := if x.Lin? then x.off else 0;
    Choice(cond, seq(|Defs(i)| + 1, _ => x), (k: nat, ws: seq<int>) => v, 0, 0, 0, seq(GPRS, _ => 0), 0)
  }

  lemma SourcePicked(s: AState, i: Instr, p: Pick, b: Source, cond: bool)
    requires |s.units| == GPRS && ValidSource(b, |s.slots|) && OneVoice(s, i)
    requires b.FromReg? && b.reg.Gpr? ==> R(b.reg.n) in Operands(i)
    requires b.FromSlot? ==> S(b.slot) in Operands(i)
    ensures IdealSource(Picked(s, i, p), b, Given(i, Lin(0, p.far, p.off), cond)) == SourceWord(s, p, b)
    ensures SourceWord(s, p, b).Lin? && (b.FromSlot? ==> !s.slots[b.slot].kind.Unset?)
    ensures b.FromReg? && b.reg.Gpr? ==> Read(s, b.reg).kind == s.units[b.reg.n].kind && !s.units[b.reg.n].kind.Unset?
  {
    if b.FromReg? { RegPicked(s, i, p, b.reg); }
    if b.FromSlot? {
      assert Clear(s, S(b.slot));
      PickedAt(s, i, p, S(b.slot));
    }
  }

  // ----- instructions whose result is computed from their operands -----

  /** All with one definition but unlisted instructions and symbolic addresses. */
  predicate Computed(i: Instr) {
    match i
    case Lea(_, _, _, _, _, plain) => plain
    case Mov(_, _, _) => true
    case AddImm(_, _, _) => true
    case Add(_, _, _) => true
    case Cmov(_, _, _) => true
    case Sub(_, _, _, _) => true
    case Load(_, _, _) => true
    case _ => false
  }

  lemma PickPossible(s: AState, i: Instr, p: Pick, cond: bool)
    requires |s.units| == GPRS && ValidInstr(i, |s.slots|) && Computed(i) && i.dst.Gpr?
    requires OneVoice(s, i) && p.Valid() && Parts(s, i, p.apart)
    requires TrueDifference(s, Picked(s, i, p), i, Given(i, Lin(0, p.far, p.off), cond))
    ensures Possible(s, i, Picked(s, i, p), Given(i, Lin(0, p.far, p.off), cond), 0)
  {
    hide Picked, OneVoice, Parts, Sound;
    PickedSound(s, i, p);
    var m, ch := Picked(s, i, p), Given(i, Lin(0, p.far, p.off), cond);
    assert Inputs(i) == [] || i.Lea?;
    assert At(Lin(0, p.far, p.off), 0) == W(p.off);
    OneDef(s, i);
  }

  lemma OneDef(s: AState, i: Instr)
    requires Computed(i) && i.dst.Gpr?
    ensures Defs(i) == [i.dst] && InvalidateAll(s, Defs(i)) == s
  {
    assert [i.dst][..0] == [];
  }

  /** The result on one picked machine has any kind that all results have. */
  lemma Told(s: AState, i: Instr, k: Kind, p: Pick, cond: bool)
    requires |s.units| == GPRS && ValidInstr(i, |s.slots|) && Computed(i) && i.dst.Gpr?
    requires OneVoice(s, i) && p.Valid() && Parts(s, i, p.apart) && Always(s, i, R(i.dst.n), k)
    requires TrueDifference(s, Picked(s, i, p), i, Given(i, Lin(0, p.far, p.off), cond))
    ensures KindHolds(k, IdealResult(Picked(s, i, p), i, Given(i, Lin(0, p.far, p.off), cond)), Picked(s, i, p))
  {
    hide Picked, OneVoice, Parts, TrueDifference, Possible, IdealResult;
    PickPossible(s, i, p, cond);
    var m, ch := Picked(s, i, p), Given(i, Lin(0, p.far, p.off), cond);
    assert Leaves(m, i, ch, R(i.dst.n), k);
    var t := IdealStep(m, i, ch);
    assert t.regs[i.dst.n] == IdealResult(m, i, ch) && t.rbp == m.rbp && t.rsp == m.rsp;
  }

  lemma StepKind(s: AState, i: Instr)
    requires |s.units| == GPRS && ValidInstr(i, |s.slots|) && Computed(i) && i.dst.Gpr?
    ensures Step(s, i).units[i.dst.n].kind == Value(s, i).kind
  {
    OneDef(s, i);
  }

  // ----- which kinds follow -----

  /** The order of claims: exact below shifting below maybe, plain below maybe. */
  predicate Entails(j: Kind, k: Kind) {
    || j == k || j.Unset? || k.Tainted?
    || (k.Maybe? && !j.Tainted?) || (k.Shifts? && j.Exact?)
  }

  lemma EntailsStronger(j: Kind, k: Kind)
    ensures Entails(j, k) <==> Stronger(j, k)
  {
    if Entails(j, k) {
      assert Stronger(j, k);
    } else {
      var p := Pick(0, 0, 0, 2, 0, 0, false, {});
      Differ(j, k, p);
      Differ(j, k, p.(maybe := 1));
      Differ(j, k, p.(off := 1));
      Differ(j, k, p.(rbp := 1));
    }
  }

  lemma Differ(j: Kind, k: Kind, p: Pick)
    requires p.Valid()
    ensures Stronger(j, k) ==> KindHolds(k, p.Word(j, R(0)), Ideal([], [], p.rbp, p.rsp))
  {
    WordHolds(j, p, R(0), Ideal([], [], p.rbp, p.rsp));
  }

  const BASIC := Pick(0, 0, 1, 3, 0, 0, false, {})

  lemma NothingParted(s: AState, i: Instr)
    requires |s.units| == GPRS
    ensures Parts(s, i, {})
  {
  }

  /** A sum of words of kinds a and b, the second taken `scale` times, has kind k. */
  ghost predicate Sum(p: Pick, a: Kind, scale: int, b: Kind, d: int, k: Kind) {
    KindHolds(k, Combine(p.Word(a, R(0)), scale, p.Word(b, R(0)), d), Ideal([], [], p.rbp, p.rsp))
  }

  ghost predicate Sums(a: Kind, scale: int, b: Kind, d: int, k: Kind) {
    && Sum(BASIC, a, scale, b, d, k) && Sum(BASIC.(maybe := 0), a, scale, b, d, k)
    && Sum(BASIC.(off := 1), a, scale, b, d, k)
  }

  /** How often the frame enters a word of the kind: at least, and at most. */
  function Least(k: Kind): int { if k.Exact? || k.Shifts? then 1 else if k.Tainted? then 3 else 0 }

  function Most(k: Kind): int { if k.Maybe? then 1 else Least(k) }

  /** What it takes for every word with `low` to `high` of the frame to have kind k. */
  predicate Allows(k: Kind, low: int, high: int) {
    match k
    case Unset => false
    case Plain => low == high == 0
    case Maybe => 0 <= low <= high <= 1
    case Tainted => true
    case _ => low == high == 1
  }

  lemma SumNeeds(a: Kind, scale: int, b: Kind, d: int, k: Kind)
    requires !a.Unset? && !b.Unset? && scale >= 1 && Sums(a, scale, b, d, k)
    ensures Allows(k, Least(a) + scale * Least(b), Most(a) + scale * Most(b)) && (k.Exact? ==> a.Exact? && b.Exact?)
  {
  }

  lemma AddKind(a: Kind, b: Kind, k: Kind)
    requires !a.Unset? && !b.Unset? && Allows(k, Least(a) + Least(b), Most(a) + Most(b))
    requires k.Exact? ==> a.Exact? && b.Exact?
    ensures Entails(AddValue(Of(a), Of(b)).kind, k)
  {
  }

  lemma AddSharp(s: AState, i: Instr, k: Kind)
    requires |s.units| == GPRS && ValidInstr(i, |s.slots|) && i.Add? && i.dst.Gpr? && OneVoice(s, i)
    requires Always(s, i, R(i.dst.n), k)
    ensures Entails(Value(s, i).kind, k)
  {
    hide OneVoice, Always, Sum, Entails;
    AddTold(s, i, k, BASIC);
    AddTold(s, i, k, BASIC.(maybe := 0));
    AddTold(s, i, k, BASIC.(off := 1));
    SumNeeds(Read(s, i.a).kind, 1, SourceKind(s, i.b), 0, k);
    AddKind(Read(s, i.a).kind, SourceKind(s, i.b), k);
    assert Value(s, i).kind == AddValue(Of(Read(s, i.a).kind), Of(SourceKind(s, i.b))).kind;
  }

  function SourceKind(s: AState, b: Source): Kind
    requires |s.units| == GPRS && ValidSource(b, |s.slots|)
  {
    match b
    case FromReg(r) => Read(s, r).kind
    case FromSlot(n) => s.slots[n].kind
    case FromMemory => Plain
  }

  lemma AddTold(s: AState, i: Instr, k: Kind, p: Pick)
    requires |s.units| == GPRS && ValidInstr(i, |s.slots|) && i.Add? && i.dst.Gpr? && OneVoice(s, i)
    requires Always(s, i, R(i.dst.n), k) && p.Valid() && p.apart == {}
    ensures Sum(p, Read(s, i.a).kind, 1, SourceKind(s, i.b), 0, k)
    ensures !Read(s, i.a).kind.Unset? && !SourceKind(s, i.b).Unset?
  {
    hide OneVoice, Parts, Always, Picked;
    NothingParted(s, i);
    Told(s, i, k, p, false);
    RegPicked(s, i, p, i.a);
    SourcePicked(s, i, p, i.b, false);
    assert RegWord(s, p, i.a) == p.Word(Read(s, i.a).kind, R(0));
    assert SourceWord(s, p, i.b) == p.Word(SourceKind(s, i.b), R(0));
  }

  // ----- one operand -----

  /** The kind of a word moved by a constant. */
  function Moved(j: Kind, d: int): Kind { if j.Exact? then Exact(j.base, j.off + d) else j }

  ghost predicate Shifted(p: Pick, j: Kind, d: int, k: Kind) {
    KindHolds(k, Combine(p.Word(j, R(0)), 0, Lin(0, 0, 0), d), Ideal([], [], p.rbp, p.rsp))
  }

  lemma ShiftedKind(j: Kind, d: int, k: Kind)
    requires !j.Unset? && Shifted(BASIC, j, d, k) && Shifted(BASIC.(maybe := 0), j, d, k)
    requires Shifted(BASIC.(off := 1), j, d, k) && Shifted(BASIC.(rbp := 1), j, d, k)
    ensures Entails(Moved(j, d), k)
  {
  }

  /** Copies, reloads and additions of a constant. */
  predicate Single(i: Instr) { i.Mov? || i.AddImm? || i.Load? }

  function SingleKind(s: AState, i: Instr): Kind
    requires |s.units| == GPRS && ValidInstr(i, |s.slots|) && Single(i)
  {
    if i.Load? then s.slots[i.slot].kind else Read(s, i.src).kind
  }

  function Imm(i: Instr): int { if i.AddImm? then i.imm else 0 }

  lemma SingleTold(s: AState, i: Instr, k: Kind, p: Pick)
    requires |s.units| == GPRS && ValidInstr(i, |s.slots|) && Single(i) && i.dst.Gpr? && OneVoice(s, i)
    requires Always(s, i, R(i.dst.n), k) && p.Valid() && p.apart == {}
    ensures Shifted(p, SingleKind(s, i), Imm(i), k) && !SingleKind(s, i).Unset?
  {
    NothingParted(s, i);
    Told(s, i, k, p, false);
    if i.Load? {
      assert Clear(s, S(i.slot));
      PickedAt(s, i, p, S(i.slot));
    } else {
      RegPicked(s, i, p, i.src);
      assert RegWord(s, p, i.src) == p.Word(Read(s, i.src).kind, R(0));
    }
  }

  lemma SingleSharp(s: AState, i: Instr, k: Kind)
    requires |s.units| == GPRS && ValidInstr(i, |s.slots|) && Single(i) && i.dst.Gpr? && OneVoice(s, i)
    requires Always(s, i, R(i.dst.n), k)
    ensures Entails(Value(s, i).kind, k)
  {
    hide OneVoice, Always, Shifted, Entails;
    SingleTold(s, i, k, BASIC);
    SingleTold(s, i, k, BASIC.(maybe := 0));
    SingleTold(s, i, k, BASIC.(off := 1));
    SingleTold(s, i, k, BASIC.(rbp := 1));
    ShiftedKind(SingleKind(s, i), Imm(i), k);
    assert Value(s, i).kind == Moved(SingleKind(s, i), Imm(i));
  }

  // ----- merges -----

  /** A merge is the strongest claim that both sides imply. */
  lemma JoinSharp(a: Val, b: Val, k: Kind)
    ensures Stronger(Join(a, b).kind, k) <==> Stronger(a.kind, k) && Stronger(b.kind, k)
  {
    EntailsStronger(a.kind, k);
    EntailsStronger(b.kind, k);
    EntailsStronger(Join(a, b).kind, k);
    hide Stronger;
  }

  lemma CmovTold(s: AState, i: Instr, k: Kind, p: Pick)
    requires |s.units| == GPRS && ValidInstr(i, |s.slots|) && i.Cmov? && i.dst.Gpr? && OneVoice(s, i)
    requires Always(s, i, R(i.dst.n), k) && p.Valid() && p.apart == {}
    ensures Shifted(p, Read(s, i.a).kind, 0, k) && Shifted(p, SourceKind(s, i.b), 0, k)
    ensures !Read(s, i.a).kind.Unset? && !SourceKind(s, i.b).Unset?
  {
    hide OneVoice, Parts, Always, Picked;
    NothingParted(s, i);
    Told(s, i, k, p, false);
    Told(s, i, k, p, true);
    RegPicked(s, i, p, i.a);
    SourcePicked(s, i, p, i.b, true);
    assert RegWord(s, p, i.a) == p.Word(Read(s, i.a).kind, R(0));
    assert SourceWord(s, p, i.b) == p.Word(SourceKind(s, i.b), R(0));
  }

  lemma CmovSharp(s: AState, i: Instr, k: Kind)
    requires |s.units| == GPRS && ValidInstr(i, |s.slots|) && i.Cmov? && i.dst.Gpr? && OneVoice(s, i)
    requires Always(s, i, R(i.dst.n), k)
    ensures Entails(Value(s, i).kind, k)
  {
    hide OneVoice, Always, Shifted, Entails, Join;
    CmovTold(s, i, k, BASIC);
    CmovTold(s, i, k, BASIC.(maybe := 0));
    CmovTold(s, i, k, BASIC.(off := 1));
    CmovTold(s, i, k, BASIC.(rbp := 1));
    var a, b := Read(s, i.a), CmovSource(s, i.b);
    ShiftedKind(a.kind, 0, k);
    ShiftedKind(b.kind, 0, k);
    EntailsStronger(a.kind, k);
    EntailsStronger(b.kind, k);
    JoinSharp(a, b, k);
    EntailsStronger(Join(a, b).kind, k);
    assert Moved(a.kind, 0) == a.kind && Moved(b.kind, 0) == b.kind;
  }

  // ----- addresses -----

  function OptKind(s: AState, r: Option<Reg>): Option<Kind>
    requires |s.units| == GPRS && ValidOpt(r)
  {
    if r.Some? then Some(Read(s, r.value).kind) else None
  }

  function OptWord(p: Pick, k: Option<Kind>): Sym { if k.Some? then p.Word(k.value, R(0)) else Lin(0, 0, 0) }

  ghost predicate Address(p: Pick, b: Option<Kind>, scale: int, x: Option<Kind>, d: int, k: Kind) {
    KindHolds(k, Combine(OptWord(p, b), scale, OptWord(p, x), d), Ideal([], [], p.rbp, p.rsp))
  }

  ghost predicate Addresses(b: Option<Kind>, scale: int, x: Option<Kind>, d: int, k: Kind) {
    && Address(BASIC, b, scale, x, d, k) && Address(BASIC.(maybe := 0), b, scale, x, d, k)
    && Address(BASIC.(off := 1), b, scale, x, d, k) && Address(BASIC.(rbp := 1), b, scale, x, d, k)
  }

  function Or(k: Option<Kind>): Kind { if k.Some? then k.value else Plain }

  predicate Defined(k: Option<Kind>) { k.Some? ==> !k.value.Unset? }

  /** An index alone, taken once, that is an exact address: the rules forget the offset. */
  predicate BareIndex(b: Option<Kind>, scale: int, x: Option<Kind>) {
    b.None? && scale == 1 && x.Some? && x.value.Exact?
  }

  lemma AddressNeeds(b: Option<Kind>, scale: int, x: Option<Kind>, d: int, k: Kind)
    requires Defined(b) && Defined(x) && scale >= 1 && Addresses(b, scale, x, d, k)
    ensures Allows(k, Least(Or(b)) + scale * Least(Or(x)), Most(Or(b)) + scale * Most(Or(x)))
  {
  }

  lemma AddressExact(b: Option<Kind>, scale: int, x: Option<Kind>, d: int, k: Kind)
    requires Defined(b) && Defined(x) && scale >= 1 && Addresses(b, scale, x, d, k) && k.Exact?
    requires !BareIndex(b, scale, x)
      && Allows(k, Least(Or(b)) + scale * Least(Or(x)), Most(Or(b)) + scale * Most(Or(x)))
    ensures x.None? && b.Some? && b.value.Exact? && k == Moved(b.value, d)
  {
  }

  lemma LeaTold(s: AState, i: Instr, k: Kind, p: Pick)
    requires |s.units| == GPRS && ValidInstr(i, |s.slots|) && i.Lea? && i.plain && i.dst.Gpr? && OneVoice(s, i)
    requires Always(s, i, R(i.dst.n), k) && p.Valid() && p.apart == {}
    ensures Address(p, OptKind(s, i.base), i.scale, OptKind(s, i.index), i.disp, k)
    ensures Defined(OptKind(s, i.base)) && Defined(OptKind(s, i.index))
  {
    hide OneVoice, Parts, Always, Picked;
    NothingParted(s, i);
    Told(s, i, k, p, false);
    if i.base.Some? {
      RegPicked(s, i, p, i.base.value);
      assert RegWord(s, p, i.base.value) == p.Word(Read(s, i.base.value).kind, R(0));
    }
    if i.index.Some? {
      RegPicked(s, i, p, i.index.value);
      assert RegWord(s, p, i.index.value) == p.Word(Read(s, i.index.value).kind, R(0));
    }
  }

  lemma LeaKind(s: AState, i: Instr, k: Kind)
    requires |s.units| == GPRS && ValidInstr(i, |s.slots|) && i.Lea? && i.plain && i.scale >= 1
    requires var b, x := OptKind(s, i.base), OptKind(s, i.index);
      && Allows(k, Least(Or(b)) + i.scale * Least(Or(x)), Most(Or(b)) + i.scale * Most(Or(x)))
      && (k.Exact? ==> x.None? && b.Some? && b.value.Exact? && k == Moved(b.value, i.disp))
    ensures Entails(Value(s, i).kind, k)
  {
    var b, x := Or(OptKind(s, i.base)), Or(OptKind(s, i.index));
    assert Least(x) == 0 ==> i.scale * Least(x) == 0;
    assert Least(x) >= 1 ==> i.scale * Least(x) >= i.scale;
    assert Most(x) == 0 ==> i.scale * Most(x) == 0;
    assert Most(x) >= 1 ==> i.scale * Most(x) >= i.scale;
  }

  lemma LeaSharp(s: AState, i: Instr, k: Kind)
    requires |s.units| == GPRS && ValidInstr(i, |s.slots|) && i.Lea? && i.plain && i.dst.Gpr? && OneVoice(s, i)
    requires i.scale >= 1 && !BareIndex(OptKind(s, i.base), i.scale, OptKind(s, i.index))
    requires Always(s, i, R(i.dst.n), k)
    ensures Entails(Value(s, i).kind, k)
  {
    hide OneVoice, Always, Address, Entails, BareIndex, Allows;
    LeaTold(s, i, k, BASIC);
    LeaTold(s, i, k, BASIC.(maybe := 0));
    LeaTold(s, i, k, BASIC.(off := 1));
    LeaTold(s, i, k, BASIC.(rbp := 1));
    var b, x := OptKind(s, i.base), OptKind(s, i.index);
    AddressNeeds(b, i.scale, x, i.disp, k);
    if k.Exact? { AddressExact(b, i.scale, x, i.disp, k); }
    LeaKind(s, i, k);
  }

  /** With an exact index alone the result is exact, and said to shift. */
  lemma BareIndexLoses(s: AState, i: Instr)
    requires |s.units| == GPRS && ValidInstr(i, |s.slots|) && i.Lea? && i.plain && i.dst.Gpr?
    requires BareIndex(OptKind(s, i.base), i.scale, OptKind(s, i.index))
    ensures var k := Moved(Read(s, i.index.value).kind, i.disp);
      Always(s, i, R(i.dst.n), k) && !Stronger(Step(s, i).units[i.dst.n].kind, k)
  {
    var k := Moved(Read(s, i.index.value).kind, i.disp);
    StepKind(s, i);
    EntailsStronger(Shifts, k);
    forall m: Ideal, ch: Choice, base: int | Possible(s, i, m, ch, base)
      ensures Leaves(m, i, ch, R(i.dst.n), k)
    {
      ReadHolds(s, m, i.index.value);
    }
  }

  // ----- differences -----

  /** The two operands are tied to one word. */
  ghost predicate Tied(s: AState, i: Instr)
    requires |s.units| == GPRS && i.Sub?
  {
    exists l, k :: l in Side(s, RegLoc(i.a)) && k in Side(s, SourceLoc(i.b)) && (l == k || SameName(s, l, k))
  }

  /** An operand and the slot it copies. */
  ghost function Side(s: AState, ls: seq<Loc>): set<Loc>
    requires |s.units| == GPRS
  {
    if ls == [] then {} else
      {ls[0]} + if InRange(ls[0], |s.slots|) && ValAt(s, ls[0]).alias >= 0 then {S(ValAt(s, ls[0]).alias)} else {}
  }

  lemma SubTold(s: AState, i: Instr, k: Kind, p: Pick)
    requires |s.units| == GPRS && ValidInstr(i, |s.slots|) && i.Sub? && i.dst.Gpr? && OneVoice(s, i)
    requires Always(s, i, R(i.dst.n), k) && p.Valid() && Parts(s, i, p.apart)
    requires var a, b := RegWord(s, p, i.a), SourceWord(s, p, i.b);
      a.Lin? && b.Lin? ==> Classed(s, i) ==> a.own == b.own || Coef(a) == Coef(b)
    ensures KindHolds(k, Settled(Combine(RegWord(s, p, i.a), -1, SourceWord(s, p, i.b), 0)),
      Ideal([], [], p.rbp, p.rsp))
    ensures !Read(s, i.a).kind.Unset? && !SourceKind(s, i.b).Unset?
  {
    RegPicked(s, i, p, i.a);
    SourcePicked(s, i, p, i.b, false);
    hide OneVoice, Parts, Always, Picked;
    Told(s, i, k, p, false);
  }

  /** Taken for a difference of stack addresses. */
  predicate Classed(s: AState, i: Instr)
    requires |s.units| == GPRS && ValidInstr(i, |s.slots|) && i.Sub?
  {
    Of(Read(s, i.a).kind).Repairable() && (Of(SourceKind(s, i.b)).Repairable() || i.root)
  }

  predicate BothOpen(s: AState, i: Instr)
    requires |s.units| == GPRS && ValidInstr(i, |s.slots|) && i.Sub?
  {
    Read(s, i.a).kind.Tainted? && SourceKind(s, i.b).Tainted?
  }

  /** An address less a word from outside: it is tainted, though it holds the
      frame at most once. And a word less itself, when nothing is known of it. */
  ghost predicate SubLoses(s: AState, i: Instr)
    requires |s.units| == GPRS && ValidInstr(i, |s.slots|) && i.Sub?
  {
    || (Of(Read(s, i.a).kind).Repairable() && SourceKind(s, i.b).Plain? && !i.root)
    || (BothOpen(s, i) && Tied(s, i))
  }

  lemma SidesPart(s: AState, i: Instr)
    requires |s.units| == GPRS && ValidInstr(i, |s.slots|) && i.Sub? && !Tied(s, i)
    ensures Parts(s, i, Side(s, SourceLoc(i.b)))
    ensures i.a.Gpr? ==> R(i.a.n) !in Side(s, SourceLoc(i.b))
  {
    var x, y := Side(s, RegLoc(i.a)), Side(s, SourceLoc(i.b));
    assert forall l, k :: l in x && k in y ==> l != k && !SameName(s, l, k);
    assert forall l :: l in Operands(i) ==> l in x || l in y;
    forall l, k | l in Operands(i) && Copies(s, l, k)
      ensures l in y <==> k in y
    {
      assert l in x ==> k in x;
      assert l in y ==> k in y;
    }
    assert forall l :: Reads(s, i, l) ==> l in x || l in y;
    assert forall l, k :: SameName(s, l, k) ==> SameName(s, k, l);
  }

  /** The operands may be defined. */
  predicate SubSet(s: AState, i: Instr)
    requires |s.units| == GPRS && ValidInstr(i, |s.slots|) && i.Sub?
  {
    && (i.a.Gpr? ==> !s.units[i.a.n].kind.Unset?)
    && match i.b
       case FromReg(r) => r.Gpr? ==> !s.units[r.n].kind.Unset?
       case FromSlot(n) => !s.slots[n].kind.Unset?
       case FromMemory => true
  }

  lemma SubDefined(s: AState, i: Instr)
    requires |s.units| == GPRS && ValidInstr(i, |s.slots|) && i.Sub? && OneVoice(s, i)
    ensures SubSet(s, i)
  {
    RegPicked(s, i, BASIC, i.a);
    SourcePicked(s, i, BASIC, i.b, false);
  }

  /** How often the frame enters the operands. */
  lemma SubWords(s: AState, i: Instr, p: Pick)
    requires |s.units| == GPRS && ValidInstr(i, |s.slots|) && i.Sub? && !p.still && SubSet(s, i)
    requires p.apart == {}
      || (BothOpen(s, i) && p.apart == Side(s, SourceLoc(i.b)) && (i.a.Gpr? ==> R(i.a.n) !in p.apart))
    ensures var a, b, x, y := Read(s, i.a).kind, SourceKind(s, i.b), RegWord(s, p, i.a), SourceWord(s, p, i.b);
      && x.Lin? && x.own == p.(apart := {}).Own(a, R(0)) && x.foreign == (if a.Plain? then p.far else 0)
      && y.Lin? && y.foreign == (if b.Plain? then p.far else 0)
      && y.own == p.(apart := {}).Own(b, R(0)) + if p.apart == {} then 0 else 1
  {
  }

  lemma SubKind(a: Kind, b: Kind, root: bool, x: Sym, y: Sym, k: Kind, m: Ideal)
    requires !a.Unset? && !b.Unset? && x.Lin? && y.Lin? && KindHolds(k, Settled(Combine(x, -1, y, 0)), m)
    requires SubValue(Of(a), Of(b), root).kind.Plain? ==> x.own == y.own || Coef(x) == Coef(y)
    requires SubValue(Of(a), Of(b), root).kind.Tainted? ==> !(0 <= x.own - y.own <= 1) && x.foreign == y.foreign == 0
    ensures Entails(SubValue(Of(a), Of(b), root).kind, k)
  {
  }

  /** The machine that shows it. */
  ghost function PickFor(a: Kind, b: Kind, root: bool, side: set<Loc>): (p: Pick)
    ensures p.Valid() && !p.still
  {
    if SubValue(Of(a), Of(b), root).kind.Plain? then
      BASIC.(taint := 1, far := if Of(a).Repairable() && root && b.Plain? then 1 else 0)
    else if a.Tainted? && b.Tainted? then BASIC.(apart := side) else BASIC
  }

  lemma PickDiffers(a: Kind, b: Kind, root: bool, side: set<Loc>, x: Sym, y: Sym)
    requires !a.Unset? && !b.Unset? && x.Lin? && y.Lin? && !(Of(a).Repairable() && b.Plain? && !root) && side != {}
    requires var p := PickFor(a, b, root, side);
      && x.own == p.(apart := {}).Own(a, R(0)) && x.foreign == (if a.Plain? then p.far else 0)
      && y.foreign == (if b.Plain? then p.far else 0)
      && y.own == p.(apart := {}).Own(b, R(0)) + if p.apart == {} then 0 else 1
    ensures var v := SubValue(Of(a), Of(b), root).kind;
      && (v.Plain? || v.Tainted?) && (v.Plain? ==> x.own == y.own || Coef(x) == Coef(y))
      && (v.Tainted? ==> !(0 <= x.own - y.own <= 1) && x.foreign == y.foreign == 0)
      && (v.Tainted? ==> !(Of(a).Repairable() && (Of(b).Repairable() || root)))
  {
  }

  ghost function SubPick(s: AState, i: Instr): Pick
    requires |s.units| == GPRS && ValidInstr(i, |s.slots|) && i.Sub?
  {
    PickFor(Read(s, i.a).kind, SourceKind(s, i.b), i.root,
      if BothOpen(s, i) then Side(s, SourceLoc(i.b)) else {R(0)})
  }

  lemma OpenSide(s: AState, i: Instr)
    requires |s.units| == GPRS && ValidInstr(i, |s.slots|) && i.Sub? && BothOpen(s, i)
    ensures Side(s, SourceLoc(i.b)) != {}
  {
    assert SourceLoc(i.b) != [];
    assert SourceLoc(i.b)[0] in Side(s, SourceLoc(i.b));
  }

  lemma SubPicked(s: AState, i: Instr)
    requires |s.units| == GPRS && ValidInstr(i, |s.slots|) && i.Sub? && SubSet(s, i) && !SubLoses(s, i)
    ensures var p, v := SubPick(s, i), SubValue(Of(Read(s, i.a).kind), Of(SourceKind(s, i.b)), i.root).kind;
      var x, y := RegWord(s, p, i.a), SourceWord(s, p, i.b);
      && p.Valid() && Parts(s, i, p.apart) && x.Lin? && y.Lin? && (v.Plain? || v.Tainted?)
      && (v.Plain? ==> x.own == y.own || Coef(x) == Coef(y))
      && (v.Tainted? ==> !(0 <= x.own - y.own <= 1) && x.foreign == y.foreign == 0 && !Classed(s, i))
  {
    NothingParted(s, i);
    var p, a, b := SubPick(s, i), Read(s, i.a).kind, SourceKind(s, i.b);
    if BothOpen(s, i) {
      SidesPart(s, i);
      OpenSide(s, i);
    }
    assert p.apart == {} || (BothOpen(s, i) && p.apart == Side(s, SourceLoc(i.b)));
    hide Parts, Tied, Side, RegWord, SourceWord;
    SubWords(s, i, p);
    hide PickFor, SubValue;
    PickDiffers(a, b, i.root, if BothOpen(s, i) then Side(s, SourceLoc(i.b)) else {R(0)}, RegWord(s, p, i.a),
      SourceWord(s, p, i.b));
  }

  lemma SubSharp(s: AState, i: Instr, k: Kind)
    requires |s.units| == GPRS && ValidInstr(i, |s.slots|) && i.Sub? && i.dst.Gpr? && OneVoice(s, i)
    requires !SubLoses(s, i) && Always(s, i, R(i.dst.n), k)
    ensures Entails(Value(s, i).kind, k)
  {
    hide OneVoice, Always, Parts, Tied, Side, SubLoses, Entails, SubPick, Settled;
    SubDefined(s, i);
    SubPicked(s, i);
    var p, a, b := SubPick(s, i), Read(s, i.a).kind, SourceKind(s, i.b);
    SubTold(s, i, k, p);
    SubKind(a, b, i.root, RegWord(s, p, i.a), SourceWord(s, p, i.b), k, Ideal([], [], p.rbp, p.rsp));
    assert Value(s, i).kind == SubValue(Of(a), Of(b), i.root).kind;
  }

  /** In the two cases left out a better kind is true of every result. */
  lemma SubReallyLoses(s: AState, i: Instr)
    requires |s.units| == GPRS && ValidInstr(i, |s.slots|) && i.Sub? && i.dst.Gpr? && SubLoses(s, i)
    ensures Always(s, i, R(i.dst.n), Maybe) && !Stronger(Step(s, i).units[i.dst.n].kind, Maybe)
  {
    StepKind(s, i);
    EntailsStronger(Tainted, Maybe);
    assert Value(s, i).kind == Tainted;
    forall m: Ideal, ch: Choice, base: int | Possible(s, i, m, ch, base)
      ensures Leaves(m, i, ch, R(i.dst.n), Maybe)
    {
      DifferenceSmall(s, i, m, ch);
    }
  }

  lemma DifferenceSmall(s: AState, i: Instr, m: Ideal, ch: Choice)
    requires Sound(s, m) && ValidInstr(i, |m.slots|) && i.Sub? && i.dst.Gpr? && SubLoses(s, i)
    requires |ch.syms| > 1 && Provenance(m, i, ch)
    ensures KindHolds(Maybe, IdealResult(m, i, ch), m)
  {
    ReadHolds(s, m, i.a);
    match i.b {
      case FromReg(r) => ReadHolds(s, m, r);
      case FromSlot(n) => assert Holds(ValAt(s, S(n)), SymAt(m, S(n)), m);
      case FromMemory => MemoryOutside(m, i, ch);
    }
    if Tied(s, i) { TiedSame(s, i, m); }
  }

  lemma TiedSame(s: AState, i: Instr, m: Ideal)
    requires Sound(s, m) && ValidInstr(i, |m.slots|) && i.Sub? && Tied(s, i)
    ensures !i.b.FromMemory?
    ensures var x, y := IdealRead(m, i.a), if i.b.FromReg? then IdealRead(m, i.b.reg) else m.slots[i.b.slot];
      x.Lin? && y.Lin? ==> x == y
  {
    var l, k :| l in Side(s, RegLoc(i.a)) && k in Side(s, SourceLoc(i.b)) && (l == k || SameName(s, l, k));
    SideSame(s, m, RegLoc(i.a)[0], l);
    SideSame(s, m, SourceLoc(i.b)[0], k);
    if InRange(l, |m.slots|) && InRange(k, |m.slots|) {
      assert SameGroup(ValAt(s, l), SymAt(m, l), ValAt(s, k), SymAt(m, k));
    }
  }

  lemma SideSame(s: AState, m: Ideal, l: Loc, k: Loc)
    requires Sound(s, m) && InRange(l, |m.slots|) && k in Side(s, [l])
    ensures SymAt(m, l).Lin? ==> InRange(k, |m.slots|) && SymAt(m, k) == SymAt(m, l)
  {
    assert Holds(ValAt(s, l), SymAt(m, l), m);
  }

  // ----- stores -----

  lemma StoreTold(s: AState, i: Instr, k: Kind, p: Pick)
    requires |s.units| == GPRS && ValidInstr(i, |s.slots|) && i.Store? && OneVoice(s, i)
    requires Always(s, i, S(i.slot), k) && p.Valid() && p.apart == {}
    ensures Shifted(p, Read(s, i.src).kind, 0, k) && !Read(s, i.src).kind.Unset?
  {
    NothingParted(s, i);
    PickedSound(s, i, p);
    RegPicked(s, i, p, i.src);
    var m, ch := Picked(s, i, p), Given(i, Undef, false);
    assert Possible(s, i, m, ch, 0);
    assert Leaves(m, i, ch, S(i.slot), k);
    assert RegWord(s, p, i.src) == p.Word(Read(s, i.src).kind, R(0));
  }

  lemma StoreSharp(s: AState, i: Instr, k: Kind)
    requires |s.units| == GPRS && ValidInstr(i, |s.slots|) && i.Store? && OneVoice(s, i) && Always(s, i, S(i.slot), k)
    ensures Entails(Step(s, i).slots[i.slot].kind, k)
  {
    hide OneVoice, Always, Shifted, Entails;
    StoreTold(s, i, k, BASIC);
    StoreTold(s, i, k, BASIC.(maybe := 0));
    StoreTold(s, i, k, BASIC.(off := 1));
    StoreTold(s, i, k, BASIC.(rbp := 1));
    ShiftedKind(Read(s, i.src).kind, 0, k);
    StoredKind(s, i);
  }

  lemma StoredKind(s: AState, i: Instr)
    requires |s.units| == GPRS && ValidInstr(i, |s.slots|) && i.Store?
    ensures Step(s, i).slots[i.slot].kind == Moved(Read(s, i.src).kind, 0)
  {
    NoDefs(s);
    assert Read(Forget(s, i.slot), i.src).kind == Read(s, i.src).kind;
  }

  // ----- results that are not computed from the operands alone -----

  predicate Open(i: Instr) { i.Other? || (i.Lea? && !i.plain) }

  const OUTSIDE := Lin(0, 1, 0)
  const TWICE := Lin(2, -1, 0)

  /** A word that moves once with the stack, from outside or twice of this frame. */
  function Free(tainted: bool): Sym { if tainted then TWICE else OUTSIDE }

  /** Every definition gets `y`, the stored word is `x`. */
  function Two(i: Instr, y: Sym, x: Sym): (ch: Choice)
    ensures |ch.syms| == |Defs(i)| + 1 && |ch.junk| == GPRS && ch.syms[|Defs(i)|] == x
    ensures forall k :: 0 <= k < |Defs(i)| ==> ch.syms[k] == y
  {
    Choice(false, seq(|Defs(i)|, _ => y) + [x], (k: nat, ws: seq<int>) => 0, 0, 0, 0, seq(GPRS, _ => 0), 0)
  }

  /** A value operand or a loaded slot is frame-derived. */
  ghost predicate Framed(s: AState, i: Instr)
    requires |s.units| == GPRS && ValidInstr(i, |s.slots|) && Open(i)
  {
    match i
    case Lea(_, b, _, x, _, _) => (b.Some? && Read(s, b.value).Frameish()) || (x.Some? && Read(s, x.value).Frameish())
    case Other(_, vals, _, load, _, _) => AnyFrame(s, vals) || (load.Some? && s.slots[load.value].Frameish())
  }

  ghost predicate StoreFramed(s: AState, i: Instr)
    requires |s.units| == GPRS && ValidInstr(i, |s.slots|) && Open(i)
  {
    Framed(s, i) || (i.Other? && i.store.Some? && s.slots[i.store.value].Frameish())
  }

  lemma {:induction false} LocsOf(rs: seq<Reg>, k: nat)
    requires k < |rs| && rs[k].Gpr?
    ensures R(rs[k].n) in RegLocsOf(rs)
  {
    if k < |rs| - 1 { LocsOf(rs[..|rs| - 1], k); }
  }

  lemma InputRead(s: AState, i: Instr, p: Pick, k: nat)
    requires |s.units| == GPRS && ValidInstr(i, |s.slots|) && Open(i) && OneVoice(s, i) && k < |Inputs(i)|
    ensures IdealRead(Picked(s, i, p), Inputs(i)[k]) == RegWord(s, p, Inputs(i)[k]) && RegWord(s, p, Inputs(i)[k]).Lin?
    ensures Inputs(i)[k].Gpr? ==> Read(s, Inputs(i)[k]).kind == s.units[Inputs(i)[k].n].kind
  {
    hide Picked, OneVoice, RegLocsOf;
    if i.Other? && Inputs(i)[k].Gpr? { LocsOf(i.vals + i.addrs, k); }
    RegPicked(s, i, p, Inputs(i)[k]);
  }

  lemma SlotRead(s: AState, i: Instr, p: Pick, n: nat)
    requires |s.units| == GPRS && OneVoice(s, i) && n < |s.slots| && S(n) in Operands(i)
    ensures Picked(s, i, p).slots[n] == p.Word(s.slots[n].kind, S(n)) && !s.slots[n].kind.Unset?
  {
    assert Clear(s, S(n));
    PickedAt(s, i, p, S(n));
  }

  /** A partial store leaves nothing defined in a slot that surely moves. */
  ghost predicate Garbles(s: AState, i: Instr)
    requires ValidInstr(i, |s.slots|)
  {
    Partial(i) && s.slots[i.store.value].kind.Exact?
  }

  const STILL := BASIC.(still := true)

  lemma OpenDefined(s: AState, i: Instr)
    requires |s.units| == GPRS && ValidInstr(i, |s.slots|) && Open(i) && OneVoice(s, i)
    ensures InputsDefined(Picked(s, i, STILL), i)
  {
    var m := Picked(s, i, STILL);
    hide Picked, OneVoice, RegWord;
    forall k | 0 <= k < |Inputs(i)|
      ensures IdealRead(m, Inputs(i)[k]).Lin?
    {
      InputRead(s, i, STILL, k);
    }
    forall k | 0 <= k < |InputSlots(i)|
      ensures m.slots[InputSlots(i)[k]].Lin?
    {
      SlotInput(i, k);
      SlotRead(s, i, STILL, InputSlots(i)[k]);
    }
  }

  lemma SlotInput(i: Instr, k: nat)
    requires Open(i) && k < |InputSlots(i)|
    ensures S(InputSlots(i)[k]) in Operands(i)
  {
  }

  lemma PartialSlot(s: AState, i: Instr)
    requires |s.units| == GPRS && ValidInstr(i, |s.slots|) && OneVoice(s, i) && Partial(i) && !Garbles(s, i)
    ensures var x := Picked(s, i, STILL).slots[i.store.value];
      x.Lin? && Coef(x) == 0 && (Foreign(x) <==> !s.slots[i.store.value].Frameish())
  {
    assert Clear(s, S(i.store.value)) by { SlotInput(i, |InputSlots(i)| - 1); }
    StillWord(s.slots[i.store.value], S(i.store.value));
    SlotInput(i, |InputSlots(i)| - 1);
    hide Picked, OneVoice, Operands, Pick.Word, Foreign, Coef;
    SlotRead(s, i, STILL, i.store.value);
  }

  lemma StillWord(v: Val, l: Loc)
    requires !v.kind.Unset? && !v.kind.Exact?
    ensures var x := STILL.Word(v.kind, l); x.Lin? && Coef(x) == 0 && (Foreign(x) <==> !v.Frameish())
  {
    var n := STILL.Own(v.kind, l);
    assert STILL.Word(v.kind, l) == Lin(n, -n, 0);
    assert n != 0 <==> v.Frameish();
  }

  lemma OpenInput(s: AState, i: Instr, k: nat)
    requires |s.units| == GPRS && ValidInstr(i, |s.slots|) && Open(i) && OneVoice(s, i) && k < |Inputs(i)|
    ensures Foreign(IdealRead(Picked(s, i, STILL), Inputs(i)[k])) <==> !Read(s, Inputs(i)[k]).Frameish()
  {
    hide Picked, OneVoice;
    InputRead(s, i, STILL, k);
  }

  lemma LeaInputs(s: AState, i: Instr)
    requires |s.units| == GPRS && ValidInstr(i, |s.slots|) && Open(i) && OneVoice(s, i) && i.Lea?
    ensures ForeignInputs(Picked(s, i, STILL), i) <==> !Framed(s, i)
  {
    hide Picked, OneVoice, Foreign, Val.Frameish;
    forall k | 0 <= k < |Inputs(i)|
      ensures Foreign(IdealRead(Picked(s, i, STILL), Inputs(i)[k])) <==> !Read(s, Inputs(i)[k]).Frameish()
    {
      OpenInput(s, i, k);
    }
    assert i.base.Some? ==> Inputs(i)[0] == i.base.value;
    assert i.index.Some? ==> Inputs(i)[|Inputs(i)| - 1] == i.index.value;
  }

  lemma OtherInputs(s: AState, i: Instr)
    requires |s.units| == GPRS && ValidInstr(i, |s.slots|) && OneVoice(s, i) && i.Other?
    ensures ForeignInputs(Picked(s, i, STILL), i) <==> !Framed(s, i)
  {
    if i.load.Some? { LoadInput(s, i); }
    hide Picked, OneVoice, Foreign, Val.Frameish;
    forall k | 0 <= k < |i.vals|
      ensures Foreign(IdealRead(Picked(s, i, STILL), i.vals[k])) <==> !Read(s, i.vals[k]).Frameish()
    {
      assert i.vals[k] == Inputs(i)[k];
      OpenInput(s, i, k);
    }
  }

  lemma LoadInput(s: AState, i: Instr)
    requires |s.units| == GPRS && ValidInstr(i, |s.slots|) && OneVoice(s, i) && i.Other? && i.load.Some?
    ensures Foreign(Picked(s, i, STILL).slots[i.load.value]) <==> !s.slots[i.load.value].Frameish()
  {
    SlotInput(i, 0);
    hide Picked, OneVoice, Operands;
    SlotRead(s, i, STILL, i.load.value);
    WordForeign(s.slots[i.load.value], S(i.load.value));
  }

  lemma WordForeign(v: Val, l: Loc)
    requires !v.kind.Unset?
    ensures Foreign(STILL.Word(v.kind, l)) <==> !v.Frameish()
  {
    if !v.kind.Exact? { StillWord(v, l); }
  }

  /** On the picked machine the operands hold of this frame what the state says. */
  lemma OpenInputs(s: AState, i: Instr)
    requires |s.units| == GPRS && ValidInstr(i, |s.slots|) && Open(i) && OneVoice(s, i)
    ensures ForeignInputs(Picked(s, i, STILL), i) <==> !Framed(s, i)
  {
    hide Picked, OneVoice, ForeignInputs, Framed;
    if i.Lea? { LeaInputs(s, i); } else { OtherInputs(s, i); }
  }

  lemma OpenPossible(s: AState, i: Instr)
    requires |s.units| == GPRS && ValidInstr(i, |s.slots|) && Open(i) && OneVoice(s, i) && !Garbles(s, i)
    requires i.Lea? ==> i.dst.Gpr?
    ensures var x := Free(StoreFramed(s, i) && !Whole(s, i));
      Possible(s, i, Picked(s, i, STILL), Two(i, Free(Framed(s, i)), x), 0)
  {
    hide OneVoice, Sound, Framed, Picked;
    NothingParted(s, i);
    PickedSound(s, i, STILL);
    OpenDefined(s, i);
    OpenInputs(s, i);
    if Partial(i) { PartialSlot(s, i); }
    assert W(0) == 0;
  }

  /** A store that covers a frame-derived slot with nothing of the frame. */
  ghost predicate Whole(s: AState, i: Instr)
    requires |s.units| == GPRS && ValidInstr(i, |s.slots|) && Open(i)
  {
    i.Other? && i.store.Some? && i.whole && !Framed(s, i) && s.slots[i.store.value].Frameish()
  }

  lemma {:induction false} WritesAll(m: Ideal, rs: seq<Reg>, xs: seq<Sym>, y: Sym, d: nat)
    requires |m.regs| == GPRS && ValidRegs(rs) && |xs| >= |rs| && Gpr(d) in rs
    requires forall k :: 0 <= k < |rs| ==> xs[k] == y
    ensures IdealWrites(m, rs, xs).regs[d] == y
  {
    if rs[|rs| - 1] != Gpr(d) { WritesAll(m, rs[..|rs| - 1], xs, y, d); }
  }

  lemma {:induction false} FramesStay(s: AState, rs: seq<Reg>)
    requires |s.units| == GPRS
    ensures var t := InvalidateAll(s, rs);
      && (forall n :: 0 <= n < GPRS ==> t.units[n].Frameish() == s.units[n].Frameish())
      && (forall n :: 0 <= n < |s.slots| ==> t.slots[n].Frameish() == s.slots[n].Frameish())
  {
    if rs != [] { FramesStay(s, rs[..|rs| - 1]); }
  }

  lemma SameFrames(s: AState, t: AState, rs: seq<Reg>)
    requires |s.units| == GPRS == |t.units| && ValidRegs(rs)
    requires forall n :: 0 <= n < GPRS ==> t.units[n].Frameish() == s.units[n].Frameish()
    ensures AnyFrame(t, rs) == AnyFrame(s, rs)
  {
    assert forall k :: 0 <= k < |rs| ==> Read(t, rs[k]).Frameish() == Read(s, rs[k]).Frameish();
  }

  lemma OpenKind(s: AState, i: Instr, l: Loc)
    requires |s.units| == GPRS && ValidInstr(i, |s.slots|) && Open(i) && InRange(l, |s.slots|)
      && (i.Lea? ==> i.dst.Gpr?)
    requires l.R? ==> Gpr(l.n) in Defs(i)
    requires l.S? ==> i.Other? && i.store == Some(l.n)
    ensures ValAt(Step(s, i), l).kind
      == if (l.R? && Framed(s, i)) || (l.S? && StoreFramed(s, i)) then Tainted else Plain
  {
    var t := InvalidateAll(s, Defs(i));
    FramesStay(s, Defs(i));
    if i.Other? {
      SameFrames(s, t, i.vals);
      if i.store.Some? { SameFrames(t, Forget(t, i.store.value), i.vals); }
    } else {
      assert [i.dst][..0] == [];
      assert t == s;
    }
  }

  lemma OpenSharp(s: AState, i: Instr, l: Loc, k: Kind)
    requires |s.units| == GPRS && ValidInstr(i, |s.slots|) && Open(i) && OneVoice(s, i) && !Garbles(s, i)
    requires InRange(l, |s.slots|) && (i.Lea? ==> i.dst.Gpr?)
    requires l.R? ==> Gpr(l.n) in Defs(i)
    requires l.S? ==> i.Other? && i.store == Some(l.n) && !Whole(s, i)
    requires Always(s, i, l, k)
    ensures Entails(ValAt(Step(s, i), l).kind, k)
  {
    hide OneVoice, Framed, Whole, Possible;
    OpenPossible(s, i);
    OpenKind(s, i, l);
    var m, ch := Picked(s, i, STILL), Two(i, Free(Framed(s, i)), Free(StoreFramed(s, i) && !Whole(s, i)));
    assert Leaves(m, i, ch, l, k);
    hide Picked, Step;
    if i.Other? && l.R? { WritesAll(m, i.defs, ch.syms, Free(Framed(s, i)), l.n); }
  }

  // ----- the theorem -----

  /** The instruction writes l. */
  predicate Writes(i: Instr, l: Loc) {
    match l
    case R(n) => Gpr(n) in Defs(i)
    case S(n) => (i.Store? && i.slot == n) || (i.Other? && i.store == Some(n))
  }

  /** Where the rules know more than they say: an exact index without base, an
      address less a plain word, a word less itself, a store that covers a
      frame-derived slot, and partial stores that leave garbage. */
  ghost predicate Lossy(s: AState, i: Instr, l: Loc)
    requires |s.units| == GPRS && ValidInstr(i, |s.slots|)
  {
    match i
    case Lea(_, b, scale, x, _, plain) => plain && BareIndex(OptKind(s, b), scale, OptKind(s, x))
    case Sub(_, _, _, _) => SubLoses(s, i)
    case Other(_, _, _, _, _, _) => Garbles(s, i) || (l.S? && Whole(s, i))
    case _ => false
  }

  ghost predicate Sharp(s: AState, i: Instr, l: Loc)
    requires |s.units| == GPRS && ValidInstr(i, |s.slots|) && InRange(l, |s.slots|)
  {
    forall k :: Always(s, i, l, k) ==> Stronger(ValAt(Step(s, i), l).kind, k)
  }

  /** Of a state that speaks of each operand in one voice, the transfer says all
      that holds of the written word -- except exactly in the lossy cases. */
  lemma SharpIff(s: AState, i: Instr, l: Loc)
    requires |s.units| == GPRS && ValidInstr(i, |s.slots|) && !i.Call? && InRange(l, |s.slots|) && Writes(i, l)
    requires OneVoice(s, i) && (i.Lea? ==> i.scale >= 1)
    ensures Sharp(s, i, l) <==> !Lossy(s, i, l)
  {
    hide OneVoice, Always, Stronger, Step;
    if Lossy(s, i, l) {
      LossyLoses(s, i, l);
    } else {
      forall k | Always(s, i, l, k)
        ensures Stronger(ValAt(Step(s, i), l).kind, k)
      {
        EntailsStronger(ValAt(Step(s, i), l).kind, k);
        NothingLost(s, i, l, k);
      }
    }
  }

  lemma NothingLost(s: AState, i: Instr, l: Loc, k: Kind)
    requires |s.units| == GPRS && ValidInstr(i, |s.slots|) && !i.Call? && InRange(l, |s.slots|) && Writes(i, l)
    requires OneVoice(s, i) && (i.Lea? ==> i.scale >= 1) && !Lossy(s, i, l) && Always(s, i, l, k)
    ensures Entails(ValAt(Step(s, i), l).kind, k)
  {
    hide OneVoice, Always, Entails, Step, Value;
    if Open(i) {
      OpenSharp(s, i, l, k);
    } else if i.Store? {
      StoreSharp(s, i, k);
    } else if i.ImplicitDef? {
      NoWord(s, i, k);
    } else {
      StepKind(s, i);
      if i.Add? { AddSharp(s, i, k); }
      else if i.Lea? { LeaSharp(s, i, k); }
      else if i.Cmov? { CmovSharp(s, i, k); }
      else if i.Sub? { SubSharp(s, i, k); }
      else { SingleSharp(s, i, k); }
    }
  }

  lemma NoWord(s: AState, i: Instr, k: Kind)
    requires |s.units| == GPRS && ValidInstr(i, |s.slots|) && i.ImplicitDef? && i.dst.Gpr?
    ensures Entails(Step(s, i).units[i.dst.n].kind, k)
  {
    assert [i.dst][..0] == [];
  }

  lemma LossyLoses(s: AState, i: Instr, l: Loc)
    requires |s.units| == GPRS && ValidInstr(i, |s.slots|) && !i.Call? && InRange(l, |s.slots|) && Writes(i, l)
    requires Lossy(s, i, l)
    ensures !Sharp(s, i, l)
  {
    hide Always, Stronger, Step;
    if i.Lea? {
      BareIndexLoses(s, i);
    } else if i.Sub? {
      SubReallyLoses(s, i);
    } else {
      OtherLoses(s, i, l);
    }
  }

  lemma OtherLoses(s: AState, i: Instr, l: Loc)
    requires |s.units| == GPRS && ValidInstr(i, |s.slots|) && i.Other? && InRange(l, |s.slots|) && Writes(i, l)
    requires Garbles(s, i) || (l.S? && Whole(s, i))
    ensures var k := if Garbles(s, i) then Unset else Plain;
      Always(s, i, l, k) && !Stronger(ValAt(Step(s, i), l).kind, k)
  {
    var k := if Garbles(s, i) then Unset else Plain;
    OpenKind(s, i, l);
    EntailsStronger(ValAt(Step(s, i), l).kind, k);
    hide Stronger, Step, Framed;
    forall m: Ideal, ch: Choice, base: int | Possible(s, i, m, ch, base)
      ensures Leaves(m, i, ch, l, k)
    {
      if Garbles(s, i) { GarbledWord(s, i, m, ch, base, l); } else { CoveredWord(s, i, m, ch); }
    }
  }

  lemma GarbledWord(s: AState, i: Instr, m: Ideal, ch: Choice, base: int, l: Loc)
    requires Possible(s, i, m, ch, base) && i.Other? && InRange(l, |m.slots|) && Writes(i, l) && Garbles(s, i)
    ensures Leaves(m, i, ch, l, Unset)
  {
    assert Holds(ValAt(s, S(i.store.value)), SymAt(m, S(i.store.value)), m);
    assert forall k :: 0 <= k < |ch.syms| ==> ch.syms[k].Undef?;
    if l.R? { WritesAll(m, i.defs, ch.syms, Undef, l.n); }
  }

  lemma CoveredWord(s: AState, i: Instr, m: Ideal, ch: Choice)
    requires Sound(s, m) && ValidInstr(i, |m.slots|) && i.Other? && |ch.syms| > |Defs(i)| && Provenance(m, i, ch)
    requires Whole(s, i)
    ensures Leaves(m, i, ch, S(i.store.value), Plain)
  {
    forall k | 0 <= k < |i.vals|
      ensures Foreign(IdealRead(m, i.vals[k]))
    {
      OutsideRead(s, m, i.vals[k]);
    }
  }

  // ----- copies -----

  /** Something is new to say of l: it is written, it copies a slot that is
      written, it is the source of a copy that starts a group, or it is stored or
      belongs to the group that is stored. */
  ghost predicate Concerned(s: AState, i: Instr, l: Loc)
    requires |s.units| == GPRS && ValidInstr(i, |s.slots|) && !i.Call? && InRange(l, |s.slots|)
  {
    || Writes(i, l) || (ValAt(s, l).alias >= 0 && Writes(i, S(ValAt(s, l).alias)))
    || (i.Mov? && StartsGroup(s, i) && i.src.Gpr? && l == R(i.src.n))
    || (i.Store? && l.R? && (i.src == Gpr(l.n) || ValAt(s, l).copyId == Read(s, i.src).copyId != NO_COPY))
  }

  /** It is an exact address on a base that is written. */
  predicate Unbases(s: AState, rs: seq<Reg>, l: Loc)
    requires |s.units| == GPRS && InRange(l, |s.slots|)
  {
    ValAt(s, l).kind.Exact? && Frame(ValAt(s, l).kind.base) in rs
  }

  lemma {:induction false} BasesOnly(s: AState, rs: seq<Reg>, l: Loc)
    requires |s.units| == GPRS && InRange(l, |s.slots|)
    ensures ValAt(InvalidateAll(s, rs), l) == if Unbases(s, rs, l) then Of(Shifts) else ValAt(s, l)
  {
    if rs != [] { BasesOnly(s, rs[..|rs| - 1], l); }
  }

  /** Everything else is remembered, kind, slot and group; exact addresses on a
      base that is written are still known to shift. */
  lemma OthersRemembered(s: AState, i: Instr, l: Loc)
    requires |s.units| == GPRS && ValidInstr(i, |s.slots|) && !i.Call? && InRange(l, |s.slots|)
    requires !Concerned(s, i, l) && ((i.Mov? || i.Store?) ==> forall k :: 0 <= k < |Defs(i)| ==> Defs(i)[k].Gpr?)
    ensures ValAt(Step(s, i), l) == if Unbases(s, Defs(i), l) then Of(Shifts) else ValAt(s, l)
  {
    BasesOnly(s, Defs(i), l);
    if i.Mov? || i.Store? { NoBases(s, Defs(i)); }
  }

  lemma {:induction false} NoBases(s: AState, rs: seq<Reg>)
    requires forall k :: 0 <= k < |rs| ==> rs[k].Gpr?
    ensures InvalidateAll(s, rs) == s
  {
    if rs != [] { NoBases(s, rs[..|rs| - 1]); }
  }

  /** Register n is stored, or belongs to the group that is. */
  predicate Shares(s: AState, i: Instr, n: nat)
    requires |s.units| == GPRS && ValidInstr(i, |s.slots|) && i.Store? && n < GPRS
  {
    !s.units[n].kind.Unset? && (i.src == Gpr(n) || s.units[n].copyId == Read(s, i.src).copyId != NO_COPY)
  }

  /** A reload and its slot are known to be the same word, and a copy and its
      source; a stored register and its group are known to be copies of the slot. */
  lemma CopiesKnown(s: AState, i: Instr)
    requires |s.units| == GPRS && ValidInstr(i, |s.slots|)
    ensures i.Load? && i.dst.Gpr? ==> Step(s, i).units[i.dst.n].alias == i.slot
    ensures i.Mov? && i.dst.Gpr? && i.src.Gpr? && i.src != i.dst ==>
      var t := Step(s, i); t.units[i.dst.n].copyId == t.units[i.src.n].copyId != NO_COPY
    ensures i.Store? ==> forall n :: 0 <= n < GPRS && Shares(s, i, n) ==> Step(s, i).units[n].alias == i.slot
  {
    if i.Load? || i.Mov? { assert i.dst.Gpr? ==> [i.dst][..0] == []; }
    if i.Store? { NoDefs(s); }
  }

  // ----- calls -----

  function Blank(s: AState): (m: Ideal)
    ensures |m.slots| == |s.slots| && m.Valid(|s.slots|)
  {
    Ideal(seq(GPRS, _ => Undef), seq(|s.slots|, _ => Undef), 0, 0)
  }

  lemma BlankSound(s: AState)
    requires |s.units| == GPRS
    ensures Sound(s, Blank(s))
  {
    assert forall l :: InRange(l, |s.slots|) ==> SymAt(Blank(s), l) == Undef;
  }

  function Numbers(i: Instr): (ch: Choice)
    requires i.Call?
    ensures |ch.syms| == |i.results| + 1 && |ch.junk| == GPRS
    ensures forall k :: 0 <= k < |ch.syms| ==> ch.syms[k] == Lin(0, 0, 0)
  {
    Choice(false, seq(|i.results| + 1, _ => Lin(0, 0, 0)), (k: nat, ws: seq<int>) => 0, 0, 0, 0, seq(GPRS, _ => 0), 0)
  }

  lemma ResultIs(m: Ideal, i: Instr, n: nat)
    requires |m.regs| == GPRS && i.Call? && ValidInstr(i, |m.slots|) && n in i.results
    ensures n < GPRS && IdealCall(m, i, Numbers(i)).regs[n] == Lin(0, 0, 0)
  {
    var rs := seq(|i.results|, k requires 0 <= k < |i.results| => Gpr(i.results[k]));
    var t := m.(regs := seq(GPRS, r requires 0 <= r < GPRS => if r in i.clobbers then Undef else m.regs[r]));
    var j :| 0 <= j < |i.results| && i.results[j] == n;
    assert rs[j] == Gpr(n);
    WritesAll(t, rs, Numbers(i).syms, Lin(0, 0, 0), n);
  }

  /** Results of a call are said to be plain, and no more is true of all of them. */
  lemma CallSharp(s: AState, i: Instr, n: nat, k: Kind)
    requires |s.units| == GPRS && i.Call? && ValidInstr(i, |s.slots|) && n in i.results
    requires forall m: Ideal, ch: Choice :: CallPossible(s, i, m, ch) ==> KindHolds(k, IdealCall(m, i, ch).regs[n], m)
    ensures Stronger(Step(s, i).units[n].kind, k)
  {
    var m, ch := Blank(s), Numbers(i);
    BlankSound(s);
    ResultIs(m, i, n);
    EntailsStronger(Plain, k);
    hide Stronger, Sound, IdealCall, Blank;
    assert CallPossible(s, i, m, ch);
  }

  ghost predicate CallPossible(s: AState, i: Instr, m: Ideal, ch: Choice) {
    && Sound(s, m) && i.Call? && ValidInstr(i, |m.slots|) && |ch.syms| > |i.results| && |ch.junk| == GPRS
    && Provenance(m, i, ch)
  }
}
