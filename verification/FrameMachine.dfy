/** Two machines for the same instructions. The symbolic one computes with
    words of the form coef * B + off over an unknown stack base B, so it never
    sees the stack move. It splits the coefficient in two: what came from this
    function's RBP and RSP, and what came from elsewhere. The bit machine holds 64-bit words, which go stale
    when a call copies the stack. `Correct` says that they agree. */
module FrameMachine {
  import opened Options
  import opened FrameLattice
  import opened FrameTransfer

  const WORDS := 0x1_0000_0000_0000_0000

  function W(x: int): (w: int)
    ensures 0 <= w < WORDS
  {
    x % WORDS
  }

  lemma WrapShift(x: int, k: int)
    ensures W(x + k * WORDS) == W(x)
  {
  }

  /** A wrapped word may be used in a linear combination before the last wrap. */
  lemma WrapLinear(x: int, s: int, y: int, d: int)
    ensures W(x + s * W(y) + d) == W(x + s * y + d)
    ensures W(W(x) + s * W(y) + d) == W(x + s * y + d)
  {
    var k, j := y / WORDS, x / WORDS;
    assert W(y) == y - k * WORDS && W(x) == x - j * WORDS;
    assert s * (y - k * WORDS) == s * y - (s * k) * WORDS;
    WrapShift(x + s * W(y) + d, s * k);
    WrapShift(W(x) + s * W(y) + d, s * k + j);
  }

  /** `Undef` is garbage: a register clobbered by a call, a slot never written. */
  datatype Sym = Undef | Lin(own: int, foreign: int, off: int)

  /** How often the stack's position enters a word: through this function's
      frame bases (`own`) and through words from outside it (`foreign`). */
  function Coef(x: Sym): int
    requires x.Lin?
  {
    x.own + x.foreign
  }

  function At(x: Sym, base: int): int
    requires x.Lin?
  {
    W(Coef(x) * base + x.off)
  }

  datatype Loc = R(n: nat) | S(n: nat)

  datatype Ideal = Ideal(regs: seq<Sym>, slots: seq<Sym>, rbp: int, rsp: int) {
    predicate Valid(n: nat) { |regs| == GPRS && |slots| == n }

    function BaseOff(b: Base): int { if b.RBP? then rbp else rsp }
  }

  /** `oldfp` is the frame's save word for RBP; no stack map lists it. */
  datatype Bits = Bits(regs: seq<int>, slots: seq<int>, rbp: int, rsp: int, oldfp: int) {
    predicate Valid(n: nat) { |regs| == GPRS && |slots| == n }
  }

  /** Everything outside the model that one step depends on: the flag a CMOV
      tests, the function an unlisted instruction computes (with the symbolic
      form of its results), how far a call moves the stack, the goroutine
      stack's bounds, the garbage left in clobbered registers, and the branch taken. */
  datatype Choice = Choice(cond: bool, syms: seq<Sym>, f: (nat, seq<int>) -> int,
                           delta: int, lo: int, hi: int, junk: seq<int>, next: nat)

  predicate InRange(l: Loc, slots: nat) {
    match l
    case R(n) => n < GPRS
    case S(n) => n < slots
  }

  function SymAt(m: Ideal, l: Loc): Sym
    requires |m.regs| == GPRS && InRange(l, |m.slots|)
  {
    match l
    case R(n) => m.regs[n]
    case S(n) => m.slots[n]
  }

  function BitAt(b: Bits, l: Loc): int
    requires |b.regs| == GPRS && InRange(l, |b.slots|)
  {
    match l
    case R(n) => b.regs[n]
    case S(n) => b.slots[n]
  }

  function IdealRead(m: Ideal, r: Reg): Sym
    requires |m.regs| == GPRS && ValidReg(r)
  {
    match r
    case Gpr(n) => m.regs[n]
    case Frame(b) => Lin(1, 0, m.BaseOff(b))
  }

  function BitRead(b: Bits, r: Reg): int
    requires |b.regs| == GPRS && ValidReg(r)
  {
    match r
    case Gpr(n) => b.regs[n]
    case Frame(RBP) => b.rbp
    case Frame(RSP) => b.rsp
  }

  function IdealWrite(m: Ideal, r: Reg, x: Sym): (t: Ideal)
    requires |m.regs| == GPRS && ValidReg(r)
    ensures t.Valid(|m.slots|) && t.slots == m.slots
  {
    match r
    case Gpr(n) => m.(regs := m.regs[n := x])
    case Frame(b) => if x.Undef? then m else if b.RBP? then m.(rbp := x.off) else m.(rsp := x.off)
  }

  function BitWrite(b: Bits, r: Reg, w: int): (t: Bits)
    requires |b.regs| == GPRS && ValidReg(r)
    ensures t.Valid(|b.slots|) && t.slots == b.slots
  {
    match r
    case Gpr(n) => b.(regs := b.regs[n := w])
    case Frame(RBP) => b.(rbp := w)
    case Frame(RSP) => b.(rsp := w)
  }

  function IdealWrites(m: Ideal, rs: seq<Reg>, xs: seq<Sym>): (t: Ideal)
    requires |m.regs| == GPRS && ValidRegs(rs) && |xs| >= |rs|
    ensures t.Valid(|m.slots|) && t.slots == m.slots
  {
    if rs == [] then m
    else IdealWrite(IdealWrites(m, rs[..|rs| - 1], xs), rs[|rs| - 1], xs[|rs| - 1])
  }

  function BitWrites(b: Bits, rs: seq<Reg>, f: nat -> int): (t: Bits)
    requires |b.regs| == GPRS && ValidRegs(rs)
    ensures t.Valid(|b.slots|) && t.slots == b.slots
  {
    if rs == [] then b
    else BitWrite(BitWrites(b, rs[..|rs| - 1], f), rs[|rs| - 1], f(|rs| - 1))
  }

  function Combine(x: Sym, s: int, y: Sym, d: int): Sym {
    if x.Undef? || y.Undef? then Undef
    else Lin(x.own + s * y.own, x.foreign + s * y.foreign, x.off + s * y.off + d)
  }

  /** A word that does not move is a number, whatever it was computed from. */
  function Settled(x: Sym): Sym { if x.Lin? && Coef(x) == 0 then Lin(0, 0, x.off) else x }

  function IdealOpt(m: Ideal, r: Option<Reg>): Sym
    requires |m.regs| == GPRS && ValidOpt(r)
  {
    if r.Some? then IdealRead(m, r.value) else Lin(0, 0, 0)
  }

  function BitOpt(b: Bits, r: Option<Reg>): int
    requires |b.regs| == GPRS && ValidOpt(r)
  {
    if r.Some? then BitRead(b, r.value) else 0
  }

  function IdealSource(m: Ideal, b: Source, ch: Choice): Sym
    requires |m.regs| == GPRS && ValidSource(b, |m.slots|) && |ch.syms| > 0
  {
    match b
    case FromReg(r) => IdealRead(m, r)
    case FromSlot(s) => m.slots[s]
    case FromMemory => ch.syms[0]
  }

  function BitSource(t: Bits, b: Source, ch: Choice): int
    requires |t.regs| == GPRS && ValidSource(b, |t.slots|)
  {
    match b
    case FromReg(r) => BitRead(t, r)
    case FromSlot(s) => t.slots[s]
    case FromMemory => W(ch.f(0, []))
  }

  /** The registers whose words an instruction without a rule of its own reads. */
  function Inputs(i: Instr): (rs: seq<Reg>)
    ensures forall n: nat :: ValidInstr(i, n) ==> ValidRegs(rs)
  {
    match i
    case Lea(_, b, _, x, _, _) => (if b.Some? then [b.value] else []) + (if x.Some? then [x.value] else [])
    case Other(_, vals, addrs, _, _, _) => vals + addrs
    case _ => []
  }

  /** A store that leaves part of its slot's old word in place. */
  predicate Partial(i: Instr) { i.Other? && i.store.Some? && !i.whole }

  function InputSlots(i: Instr): (ss: seq<nat>)
    ensures forall n: nat :: ValidInstr(i, n) ==> forall k :: 0 <= k < |ss| ==> ss[k] < n
  {
    (if i.Other? && i.load.Some? then [i.load.value] else []) + (if Partial(i) then [i.store.value] else [])
  }

  function BitWords(b: Bits, i: Instr): seq<int>
    requires |b.regs| == GPRS && ValidInstr(i, |b.slots|)
  {
    var rs, ss := Inputs(i), InputSlots(i);
    seq(|rs|, k requires 0 <= k < |rs| => BitRead(b, rs[k])) + seq(|ss|, k requires 0 <= k < |ss| => b.slots[ss[k]])
  }

  predicate InputsDefined(m: Ideal, i: Instr)
    requires |m.regs| == GPRS && ValidInstr(i, |m.slots|)
  {
    && (forall k :: 0 <= k < |Inputs(i)| ==> IdealRead(m, Inputs(i)[k]).Lin?)
    && (forall k :: 0 <= k < |InputSlots(i)| ==> m.slots[InputSlots(i)[k]].Lin?)
  }

  function IdealWords(m: Ideal, i: Instr, base: int): seq<int>
    requires |m.regs| == GPRS && ValidInstr(i, |m.slots|) && InputsDefined(m, i)
  {
    var rs, ss := Inputs(i), InputSlots(i);
    seq(|rs|, k requires 0 <= k < |rs| => At(IdealRead(m, rs[k]), base))
    + seq(|ss|, k requires 0 <= k < |ss| => At(m.slots[ss[k]], base))
  }

  predicate Oracle(i: Instr) {
    match i
    case Lea(_, _, _, _, _, plain) => !plain
    case Other(_, _, _, _, _, _) => true
    case Add(_, _, b) => b.FromMemory?
    case Cmov(_, _, b) => b.FromMemory?
    case Sub(_, _, b, _) => b.FromMemory?
    case _ => false
  }

  /** The outside world is consistent: the symbolic result of an unmodelled
      computation denotes what that computation gives on the intended operands,
      and is garbage when an operand is, or when part of a moving word is
      overwritten. A written frame base stays a stack address. */
  predicate ChoiceOk(m: Ideal, i: Instr, ch: Choice, base: int)
    requires |m.regs| == GPRS && ValidInstr(i, |m.slots|)
  {
    && |ch.syms| > |Defs(i)| && (i.Call? ==> |ch.syms| > |i.results|)
    && |ch.junk| == GPRS
    && (Oracle(i) ==> forall k :: 0 <= k < |ch.syms| && ch.syms[k].Lin? ==>
      InputsDefined(m, i) && At(ch.syms[k], base) == W(ch.f(k, IdealWords(m, i, base))))
    && (Partial(i) ==> forall k :: 0 <= k < |ch.syms| && ch.syms[k].Lin? ==>
      m.slots[i.store.value].Lin? && Coef(m.slots[i.store.value]) == 0)
    && (forall k :: 0 <= k < |Defs(i)| && Defs(i)[k].Frame? ==>
      var x := if i.Other? then ch.syms[k] else IdealResult(m, i, ch); x.Lin? && Coef(x) == 1)
  }

  /** A word that owes nothing to this function's frame bases. */
  predicate Foreign(x: Sym) { x.Lin? ==> x.own == 0 }

  /** No value operand of an unmodelled computation comes from this frame;
      address registers only say where the memory is. */
  predicate ForeignInputs(m: Ideal, i: Instr)
    requires |m.regs| == GPRS && ValidInstr(i, |m.slots|)
  {
    match i
    case Lea(_, _, _, _, _, _) => forall k :: 0 <= k < |Inputs(i)| ==> Foreign(IdealRead(m, Inputs(i)[k]))
    case Other(_, vals, _, load, _, _) =>
      && (forall k :: 0 <= k < |vals| ==> Foreign(IdealRead(m, vals[k])))
      && (load.Some? ==> Foreign(m.slots[load.value]))
    case _ => true
  }

  /** Where words come from: untracked memory, the results of a call and a
      computation on words from outside bring in nothing of this frame. */
  predicate Provenance(m: Ideal, i: Instr, ch: Choice)
    requires |m.regs| == GPRS && ValidInstr(i, |m.slots|)
    requires |ch.syms| > |Defs(i)| && (i.Call? ==> |ch.syms| > |i.results|)
  {
    && (Oracle(i) && ForeignInputs(m, i) ==> forall k :: 0 <= k < |Defs(i)| && Defs(i)[k].Gpr? ==> Foreign(ch.syms[k]))
    && (i.Other? && i.store.Some? && ForeignInputs(m, i) && (Partial(i) ==> Foreign(m.slots[i.store.value])) ==>
      Foreign(ch.syms[|i.defs|]))
    && (i.Call? ==> forall k :: 0 <= k < |i.results| ==> Foreign(ch.syms[k]))
  }

  /** The result of every instruction with one definition. */
  function IdealResult(m: Ideal, i: Instr, ch: Choice): Sym
    requires |m.regs| == GPRS && ValidInstr(i, |m.slots|) && |ch.syms| > 0
  {
    match i
    case Lea(_, b, s, x, d, plain) => if plain then Combine(IdealOpt(m, b), s, IdealOpt(m, x), d) else ch.syms[0]
    case Mov(_, src, _) => IdealRead(m, src)
    case AddImm(_, src, imm) => Combine(IdealRead(m, src), 0, Lin(0, 0, 0), imm)
    case Add(_, a, b) => Combine(IdealRead(m, a), 1, IdealSource(m, b, ch), 0)
    case Sub(_, a, b, _) => Settled(Combine(IdealRead(m, a), -1, IdealSource(m, b, ch), 0))
    case Cmov(_, a, b) => if ch.cond then IdealSource(m, b, ch) else IdealRead(m, a)
    case Load(_, sl, _) => m.slots[sl]
    case _ => Undef
  }

  function BitResult(b: Bits, i: Instr, ch: Choice): int
    requires |b.regs| == GPRS && ValidInstr(i, |b.slots|) && |ch.junk| == GPRS
  {
    match i
    case Lea(_, bs, s, x, d, plain) =>
      if plain then W(BitOpt(b, bs) + s * BitOpt(b, x) + d) else W(ch.f(0, BitWords(b, i)))
    case Mov(_, src, _) => BitRead(b, src)
    case AddImm(_, src, imm) => W(BitRead(b, src) + imm)
    case Add(_, a, s) => W(BitRead(b, a) + BitSource(b, s, ch))
    case Sub(_, a, s, _) => W(BitRead(b, a) - BitSource(b, s, ch))
    case Cmov(_, a, s) => if ch.cond then BitSource(b, s, ch) else BitRead(b, a)
    case Load(_, sl, _) => b.slots[sl]
    case _ => ch.junk[0]
  }

  /** One instruction other than a call. */
  function IdealStep(m: Ideal, i: Instr, ch: Choice): (t: Ideal)
    requires |m.regs| == GPRS && ValidInstr(i, |m.slots|) && !i.Call? && |ch.syms| > |Defs(i)|
    ensures t.Valid(|m.slots|)
  {
    if i.Store? then m.(slots := m.slots[i.slot := IdealRead(m, i.src)])
    else if i.Other? then
      var t := IdealWrites(m, i.defs, ch.syms);
      if i.store.Some? then t.(slots := t.slots[i.store.value := ch.syms[|i.defs|]]) else t
    else IdealWrite(m, i.dst, IdealResult(m, i, ch))
  }

  function BitStep(b: Bits, i: Instr, ch: Choice): (t: Bits)
    requires |b.regs| == GPRS && ValidInstr(i, |b.slots|) && !i.Call? && |ch.junk| == GPRS
    ensures t.Valid(|b.slots|)
  {
    if i.Store? then b.(slots := b.slots[i.slot := BitRead(b, i.src)])
    else if i.Other? then
      var ws := BitWords(b, i);
      var t := BitWrites(b, i.defs, (k: nat) => W(ch.f(k, ws)));
      if i.store.Some? then t.(slots := t.slots[i.store.value := W(ch.f(|i.defs|, ws))]) else t
    else BitWrite(b, i.dst, BitResult(b, i, ch))
  }

  /** A call in the symbolic machine: clobbered registers become garbage. */
  function IdealCall(m: Ideal, i: Instr, ch: Choice): (t: Ideal)
    requires |m.regs| == GPRS && i.Call? && ValidInstr(i, |m.slots|) && |ch.syms| > |i.results|
    ensures t.Valid(|m.slots|)
  {
    var t := m.(regs := seq(GPRS, n requires 0 <= n < GPRS => if n in i.clobbers then Undef else m.regs[n]));
    IdealWrites(t, seq(|i.results|, k requires 0 <= k < |i.results| => Gpr(i.results[k])), ch.syms)
  }

  /** The runtime's adjustment of one stack-map word. */
  function AdjustPointer(w: int, ch: Choice): int {
    if ch.lo <= w < ch.hi then W(w + ch.delta) else w
  }

  /** A call in the bit machine: the stack moves by delta. RBP and RSP come back
      adjusted, the runtime adjusts the root slots, and everything else that
      survives is restored or copied verbatim. */
  function BitCall(b: Bits, roots: seq<bool>, i: Instr, ch: Choice, base: int): (t: Bits)
    requires |b.regs| == GPRS && i.Call? && ValidInstr(i, |b.slots|) && |roots| == |b.slots|
    requires |ch.syms| > |i.results| && |ch.junk| == GPRS
    ensures t.Valid(|b.slots|)
  {
    var t := Bits(
      seq(GPRS, n requires 0 <= n < GPRS => if n in i.clobbers then ch.junk[n] else b.regs[n]),
      seq(|b.slots|, k requires 0 <= k < |b.slots| => if roots[k] then AdjustPointer(b.slots[k], ch) else b.slots[k]),
      W(b.rbp + ch.delta), W(b.rsp + ch.delta), b.oldfp);
    BitWrites(t, seq(|i.results|, k requires 0 <= k < |i.results| => Gpr(i.results[k])),
      k => if 0 <= k < |ch.syms| && ch.syms[k].Lin? then At(ch.syms[k], base) else 0)
  }

  ghost predicate BasesCorrect(m: Ideal, b: Bits, base: int) {
    b.rbp == W(base + m.rbp) && b.rsp == W(base + m.rsp)
  }

  ghost predicate CorrectAt(m: Ideal, b: Bits, base: int, l: Loc)
    requires |m.regs| == GPRS == |b.regs| && |m.slots| == |b.slots| && InRange(l, |m.slots|)
  {
    SymAt(m, l).Lin? ==> BitAt(b, l) == At(SymAt(m, l), base)
  }

  /** A location whose word may be relied on: live, a root, or not moving at all. */
  ghost predicate Matters(m: Ideal, l: Loc, live: set<Loc>, roots: seq<bool>)
    requires |m.regs| == GPRS && InRange(l, |m.slots|) && |roots| == |m.slots|
  {
    l in live || (l.S? && roots[l.n]) || (SymAt(m, l).Lin? && Coef(SymAt(m, l)) == 0)
  }

  ghost predicate Correct(m: Ideal, b: Bits, base: int, live: set<Loc>, roots: seq<bool>)
    requires |m.regs| == GPRS == |b.regs| && |m.slots| == |b.slots| == |roots|
  {
    && BasesCorrect(m, b, base)
    && forall l :: InRange(l, |m.slots|) && Matters(m, l, live, roots) ==> CorrectAt(m, b, base, l)
  }

  // ----- liveness of one instruction -----

  function RegLocs(rs: seq<Reg>): set<Loc> { set r | r in rs && r.Gpr? :: R(r.n) }

  function SourceLocs(b: Source): set<Loc> {
    match b
    case FromReg(r) => RegLocs([r])
    case FromSlot(s) => {S(s)}
    case FromMemory => {}
  }

  function Uses(i: Instr): set<Loc> {
    match i
    case ImplicitDef(_) => {}
    case Lea(_, _, _, _, _, _) => RegLocs(Inputs(i))
    case Mov(_, src, _) => RegLocs([src])
    case AddImm(_, src, _) => RegLocs([src])
    case Add(_, a, b) => RegLocs([a]) + SourceLocs(b)
    case Cmov(_, a, b) => RegLocs([a]) + SourceLocs(b)
    case Sub(_, a, b, _) => RegLocs([a]) + SourceLocs(b)
    case Load(_, sl, _) => {S(sl)}
    case Store(_, src) => RegLocs([src])
    case Other(_, _, _, l, _, _) => RegLocs(Inputs(i)) + (if l.Some? then {S(l.value)} else {})
    case Call(args, _, _) => RegLocs(args)
  }

  /** What an instruction overwrites whole: registers, and a slot it covers without reading it. */
  function Kills(i: Instr): set<Loc> {
    match i
    case Store(sl, _) => {S(sl)}
    case Other(ds, _, _, l, st, whole) => RegLocs(ds) + (if st.Some? && l.None? && whole then {S(st.value)} else {})
    case Call(_, cs, rs) => (set c | c in cs :: R(c)) + (set r | r in rs :: R(r))
    case _ => RegLocs([i.dst])
  }

  function LiveBefore(i: Instr, after: set<Loc>): set<Loc> { (after - Kills(i)) + Uses(i) }

  // ----- a step between two calls keeps the machines in agreement -----

  ghost predicate Agrees(x: Sym, w: int, base: int) { x.Lin? ==> w == At(x, base) }

  lemma ReadAgrees(m: Ideal, b: Bits, base: int, live: set<Loc>, roots: seq<bool>, r: Reg)
    requires m.Valid(|roots|) && b.Valid(|roots|) && ValidReg(r)
    requires Correct(m, b, base, live, roots)
    requires r.Gpr? ==> R(r.n) in live
    ensures Agrees(IdealRead(m, r), BitRead(b, r), base)
  {
    if r.Gpr? { assert Matters(m, R(r.n), live, roots); }
  }

  lemma SourceAgrees(m: Ideal, b: Bits, base: int, live: set<Loc>, roots: seq<bool>, i: Instr, s: Source, ch: Choice)
    requires m.Valid(|roots|) && b.Valid(|roots|) && ValidSource(s, |roots|) && ValidInstr(i, |roots|)
    requires Correct(m, b, base, live, roots) && ChoiceOk(m, i, ch, base)
    requires SourceLocs(s) <= live
    requires s.FromMemory? ==> Oracle(i) && Inputs(i) == [] && InputSlots(i) == []
    ensures Agrees(IdealSource(m, s, ch), BitSource(b, s, ch), base)
  {
    match s
    case FromReg(r) =>
      assert r in [r];
      ReadAgrees(m, b, base, live, roots, r);
    case FromSlot(k) =>
      assert S(k) in live && Matters(m, S(k), live, roots) && CorrectAt(m, b, base, S(k));
    case FromMemory => if ch.syms[0].Lin? { assert IdealWords(m, i, base) == []; }
  }

  lemma CombineAgrees(x: Sym, u: int, s: int, y: Sym, v: int, d: int, base: int)
    requires Agrees(x, u, base) && Agrees(y, v, base)
    ensures Agrees(Combine(x, s, y, d), W(u + s * v + d), base)
  {
    if x.Lin? && y.Lin? {
      var p, q, z := Coef(x) * base + x.off, Coef(y) * base + y.off, Combine(x, s, y, d);
      WrapLinear(p, s, q, d);
      hide W;
      assert Coef(z) == Coef(x) + s * Coef(y);
      assert Coef(z) * base == Coef(x) * base + (s * Coef(y)) * base;
      assert s * q == (s * Coef(y)) * base + s * y.off;
    }
  }

  lemma ZeroAgrees(base: int)
    ensures Agrees(Lin(0, 0, 0), 0, base)
  {
    assert W(0) == 0;
    hide W;
    assert At(Lin(0, 0, 0), base) == W(0 * base + 0);
  }

  lemma SettledAgrees(x: Sym, w: int, base: int)
    requires Agrees(x, w, base)
    ensures Agrees(Settled(x), w, base)
  {
  }

  /** The words an unlisted instruction reads are the intended ones. */
  lemma WordsAgree(m: Ideal, b: Bits, base: int, live: set<Loc>, roots: seq<bool>, i: Instr, ch: Choice)
    requires m.Valid(|roots|) && b.Valid(|roots|) && ValidInstr(i, |roots|)
    requires Correct(m, b, base, live, roots) && Uses(i) <= live && (i.Lea? || i.Other?) && InputsDefined(m, i)
    requires Partial(i) ==> m.slots[i.store.value].Lin? && Coef(m.slots[i.store.value]) == 0
    ensures BitWords(b, i) == IdealWords(m, i, base)
  {
    var rs, ss := Inputs(i), InputSlots(i);
    forall k | 0 <= k < |rs|
      ensures BitRead(b, rs[k]) == At(IdealRead(m, rs[k]), base)
    {
      if rs[k].Gpr? { assert rs[k] in rs && R(rs[k].n) in Uses(i); }
      ReadAgrees(m, b, base, live, roots, rs[k]);
    }
    forall k | 0 <= k < |ss|
      ensures b.slots[ss[k]] == At(m.slots[ss[k]], base)
    {
      assert Matters(m, S(ss[k]), live, roots) && CorrectAt(m, b, base, S(ss[k]));
    }
  }

  lemma ResultAgrees(m: Ideal, b: Bits, base: int, live: set<Loc>, roots: seq<bool>, i: Instr, ch: Choice)
    requires m.Valid(|roots|) && b.Valid(|roots|) && ValidInstr(i, |roots|)
    requires Correct(m, b, base, live, roots) && ChoiceOk(m, i, ch, base) && Uses(i) <= live
    requires !i.Store? && !i.Other? && !i.Call?
    ensures Agrees(IdealResult(m, i, ch), BitResult(b, i, ch), base)
  {
    hide W, At, Combine, Settled, Correct;
    ZeroAgrees(base);
    match i
    case ImplicitDef(_) =>
    case Lea(_, bs, s, x, d, plain) =>
      if plain {
        if bs.Some? { assert bs.value in Inputs(i); ReadAgrees(m, b, base, live, roots, bs.value); }
        if x.Some? { assert x.value in Inputs(i); ReadAgrees(m, b, base, live, roots, x.value); }
        CombineAgrees(IdealOpt(m, bs), BitOpt(b, bs), s, IdealOpt(m, x), BitOpt(b, x), d, base);
      } else if ch.syms[0].Lin? {
        WordsAgree(m, b, base, live, roots, i, ch);
      }
    case Mov(_, src, _) => assert src in [src]; ReadAgrees(m, b, base, live, roots, src);
    case AddImm(_, src, imm) =>
      assert src in [src];
      ReadAgrees(m, b, base, live, roots, src);
      CombineAgrees(IdealRead(m, src), BitRead(b, src), 0, Lin(0, 0, 0), 0, imm, base);
    case Add(_, a, s) =>
      assert a in [a];
      ReadAgrees(m, b, base, live, roots, a);
      SourceAgrees(m, b, base, live, roots, i, s, ch);
      CombineAgrees(IdealRead(m, a), BitRead(b, a), 1, IdealSource(m, s, ch), BitSource(b, s, ch), 0, base);
    case Sub(_, a, s, _) =>
      assert a in [a];
      ReadAgrees(m, b, base, live, roots, a);
      SourceAgrees(m, b, base, live, roots, i, s, ch);
      CombineAgrees(IdealRead(m, a), BitRead(b, a), -1, IdealSource(m, s, ch), BitSource(b, s, ch), 0, base);
      SettledAgrees(Combine(IdealRead(m, a), -1, IdealSource(m, s, ch), 0), BitResult(b, i, ch), base);
    case Cmov(_, a, s) =>
      assert a in [a];
      ReadAgrees(m, b, base, live, roots, a);
      SourceAgrees(m, b, base, live, roots, i, s, ch);
    case Load(_, sl, _) => SourceAgrees(m, b, base, live, roots, i, FromSlot(sl), ch);
  }

  /** Writing agreeing words to definitions; `live` need not contain them before. */
  lemma WriteKeepsCorrect(m: Ideal, b: Bits, base: int, live: set<Loc>, roots: seq<bool>, r: Reg, x: Sym, w: int)
    requires m.Valid(|roots|) && b.Valid(|roots|) && ValidReg(r)
    requires Correct(m, b, base, live - RegLocs([r]), roots) && Agrees(x, w, base)
    requires r.Frame? ==> x.Lin? && Coef(x) == 1
    ensures Correct(IdealWrite(m, r, x), BitWrite(b, r, w), base, live, roots)
  {
    var m', b' := IdealWrite(m, r, x), BitWrite(b, r, w);
    forall l | InRange(l, |roots|) && Matters(m', l, live, roots)
      ensures CorrectAt(m', b', base, l)
    {
      if !(r.Gpr? && l == R(r.n)) {
        assert l !in RegLocs([r]);
        assert Matters(m, l, live - RegLocs([r]), roots) && CorrectAt(m, b, base, l);
      }
    }
  }

  lemma {:induction false} WritesKeepCorrect(m: Ideal, b: Bits, base: int, live: set<Loc>, roots: seq<bool>,
      rs: seq<Reg>, xs: seq<Sym>, f: nat -> int)
    requires m.Valid(|roots|) && b.Valid(|roots|) && ValidRegs(rs) && |xs| >= |rs|
    requires Correct(m, b, base, live - RegLocs(rs), roots)
    requires forall k :: 0 <= k < |rs| ==> Agrees(xs[k], f(k), base)
    requires forall k :: 0 <= k < |rs| && rs[k].Frame? ==> xs[k].Lin? && Coef(xs[k]) == 1
    ensures Correct(IdealWrites(m, rs, xs), BitWrites(b, rs, f), base, live, roots)
  {
    if rs == [] {
      assert live - RegLocs(rs) == live;
    } else {
      var n := |rs| - 1;
      var rest := live - RegLocs([rs[n]]);
      assert rest - RegLocs(rs[..n]) == live - RegLocs(rs) by {
        assert rs == rs[..n] + [rs[n]];
      }
      WritesKeepCorrect(m, b, base, rest, roots, rs[..n], xs, f);
      WriteKeepsCorrect(IdealWrites(m, rs[..n], xs), BitWrites(b, rs[..n], f), base, live, roots, rs[n], xs[n], f(n));
    }
  }

  lemma SlotWriteKeepsCorrect(m: Ideal, b: Bits, base: int, live: set<Loc>, roots: seq<bool>, sl: nat, x: Sym, w: int)
    requires m.Valid(|roots|) && b.Valid(|roots|) && sl < |roots|
    requires Correct(m, b, base, live - {S(sl)}, roots) && Agrees(x, w, base)
    ensures Correct(m.(slots := m.slots[sl := x]), b.(slots := b.slots[sl := w]), base, live, roots)
  {
    var m', b' := m.(slots := m.slots[sl := x]), b.(slots := b.slots[sl := w]);
    forall l | InRange(l, |roots|) && Matters(m', l, live, roots)
      ensures CorrectAt(m', b', base, l)
    {
      if l != S(sl) {
        assert Matters(m, l, live - {S(sl)}, roots) && CorrectAt(m, b, base, l);
      }
    }
  }

  lemma CorrectShrinks(m: Ideal, b: Bits, base: int, live: set<Loc>, fewer: set<Loc>, roots: seq<bool>)
    requires m.Valid(|roots|) && b.Valid(|roots|) && Correct(m, b, base, live, roots) && fewer <= live
    ensures Correct(m, b, base, fewer, roots)
  {
    forall l | InRange(l, |roots|) && Matters(m, l, fewer, roots)
      ensures CorrectAt(m, b, base, l)
    {
      assert Matters(m, l, live, roots);
    }
  }

  /** Agreement on what is live before an instruction gives agreement on what is live after it. */
  lemma StepKeepsCorrect(m: Ideal, b: Bits, base: int, after: set<Loc>, roots: seq<bool>, i: Instr, ch: Choice)
    requires m.Valid(|roots|) && b.Valid(|roots|) && ValidInstr(i, |roots|) && !i.Call?
    requires Correct(m, b, base, LiveBefore(i, after), roots) && ChoiceOk(m, i, ch, base)
    ensures Correct(IdealStep(m, i, ch), BitStep(b, i, ch), base, after, roots)
  {
    var live := LiveBefore(i, after);
    if i.Store? {
      assert i.src in [i.src];
      ReadAgrees(m, b, base, live, roots, i.src);
      CorrectShrinks(m, b, base, live, after - {S(i.slot)}, roots);
      SlotWriteKeepsCorrect(m, b, base, after, roots, i.slot, IdealRead(m, i.src), BitRead(b, i.src));
    } else if i.Other? {
      var ws := BitWords(b, i);
      var f := (k: nat) => W(ch.f(k, ws));
      var written := if i.store.Some? then {S(i.store.value)} else {};
      forall k | 0 <= k < |ch.syms|
        ensures Agrees(ch.syms[k], f(k), base)
      {
        if ch.syms[k].Lin? { WordsAgree(m, b, base, live, roots, i, ch); }
      }
      CorrectShrinks(m, b, base, live, (after - written) - RegLocs(i.defs), roots);
      WritesKeepCorrect(m, b, base, after - written, roots, i.defs, ch.syms, f);
      if i.store.Some? {
        SlotWriteKeepsCorrect(IdealWrites(m, i.defs, ch.syms), BitWrites(b, i.defs, f), base, after, roots,
          i.store.value, ch.syms[|i.defs|], f(|i.defs|));
      } else {
        assert after - written == after;
      }
    } else {
      ResultAgrees(m, b, base, live, roots, i, ch);
      assert Defs(i)[0] == i.dst;
      CorrectShrinks(m, b, base, live, after - RegLocs([i.dst]), roots);
      WriteKeepsCorrect(m, b, base, after, roots, i.dst, IdealResult(m, i, ch), BitResult(b, i, ch));
    }
  }
}
