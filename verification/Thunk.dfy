/** The code of a Go-to-C entry thunk and what running it does: every C
    argument location receives the bytes its Go location held on entry. */
module Thunk {
  import opened ByteType
  import opened Counting
  import opened AbiLayout
  import opened AbiAssign
  import opened ParallelMove

  datatype Instr =
    | Copy(bank: Bank, m: Move)
    | Store(bank: Bank, reg: nat, off: nat, size: nat)  // to the outgoing area
    | Load(bank: Bank, reg: nat, off: nat, size: nat)   // from the incoming stack arguments

  type Memory = int -> Byte

  datatype Cpu = Cpu(ints: RegFile, floats: RegFile, mem: Memory)

  /** Entry stack pointer and the sizes of what the prologue pushed below it. */
  datatype Frame = Frame(entry: int, saved: nat, outgoing: nat)

  function InBase(fr: Frame): int { fr.entry + 8 }

  function OutBase(fr: Frame): int { fr.entry - fr.saved - fr.outgoing }

  function WordAt(mem: Memory, at: int): Word {
    [mem(at), mem(at + 1), mem(at + 2), mem(at + 3), mem(at + 4), mem(at + 5), mem(at + 6), mem(at + 7)]
  }

  function RegOf(s: Cpu, b: Bank, r: nat): Word { if b == IntBank then s.ints(r) else s.floats(r) }

  function Put(f: RegFile, r: nat, w: Word): RegFile { x => if x == r then w else f(x) }

  function Written(mem: Memory, at: int, w: Word, k: nat): Memory {
    x => if at <= x < at + k && x < at + 8 then w[x - at] else mem(x)
  }

  function SetReg(s: Cpu, b: Bank, r: nat, w: Word): Cpu {
    if b == IntBank then s.(ints := Put(s.ints, r, w)) else s.(floats := Put(s.floats, r, w))
  }

  function Step(up: Upper, fr: Frame, i: Instr, s: Cpu): Cpu {
    match i
    case Copy(b, m) => if b == IntBank then s.(ints := Do(up, m, s.ints)) else s.(floats := Do(up, m, s.floats))
    case Store(b, r, off, k) => s.(mem := Written(s.mem, OutBase(fr) + off, RegOf(s, b, r), k))
    case Load(b, r, off, k) => SetReg(s, b, r, Merge(up, RegOf(s, b, r), WordAt(s.mem, InBase(fr) + off), k))
  }

  function Run(up: Upper, fr: Frame, code: seq<Instr>, s: Cpu): Cpu {
    if code == [] then s else Step(up, fr, code[|code| - 1], Run(up, fr, Init(code), s))
  }

  lemma RunStep(up: Upper, fr: Frame, code: seq<Instr>, i: Instr, s: Cpu)
    ensures Run(up, fr, code + [i], s) == Step(up, fr, i, Run(up, fr, code, s))
  {
    assert Init(code + [i]) == code;
  }

  lemma RunNone(up: Upper, fr: Frame, s: Cpu)
    ensures Run(up, fr, [], s) == s
  {
  }

  lemma RunOne(up: Upper, fr: Frame, i: Instr, s: Cpu)
    ensures Run(up, fr, [i], s) == Step(up, fr, i, s)
  {
    assert Init([i]) == [];
  }

  lemma RunTwo(up: Upper, fr: Frame, i: Instr, j: Instr, s: Cpu)
    ensures Run(up, fr, [i, j], s) == Step(up, fr, j, Step(up, fr, i, s))
  {
    assert [i] + [j] == [i, j];
    RunStep(up, fr, [i], j, s);
    RunOne(up, fr, i, s);
  }

  lemma {:induction false} RunAppend(up: Upper, fr: Frame, a: seq<Instr>, b: seq<Instr>, s: Cpu)
    ensures Run(up, fr, a + b, s) == Run(up, fr, b, Run(up, fr, a, s))
  {
    if b == [] {
      assert a + b == a;
    } else {
      RunAppend(up, fr, a, Init(b), s);
      assert Init(a + b) == a + Init(b);
    }
  }

  // ----- code generation -----

  function ScratchOf(a: Abi, b: Bank): nat { if b == IntBank then a.scratchInt else a.scratchFloat }

  function StackStore(a: Abi, ty: Ty, go: Loc, c: Loc): seq<Instr> {
    if c.InReg? then []
    else if go.InReg? then [Store(BankOf(ty), go.reg, c.off, Size(ty))]
    else [Load(BankOf(ty), ScratchOf(a, BankOf(ty)), go.off, Size(ty)),
      Store(BankOf(ty), ScratchOf(a, BankOf(ty)), c.off, Size(ty))]
  }

  /** On amd64 integer registers move whole. */
  function MoveSize(a: Abi, ty: Ty): (n: nat)
    ensures IsScalar(ty) ==> Size(ty) <= n
  {
    if BankOf(ty) == IntBank && a.wholeInts then 8 else Size(ty)
  }

  function RegMove(a: Abi, b: Bank, ty: Ty, go: Loc, c: Loc): seq<Move> {
    if c.InReg? && go.InReg? && BankOf(ty) == b then [Move(go.reg, c.reg, MoveSize(a, ty))] else []
  }

  function RegLoad(b: Bank, ty: Ty, go: Loc, c: Loc): seq<Instr> {
    if c.InReg? && go.OnStack? && BankOf(ty) == b then [Load(b, c.reg, go.off, Size(ty))] else []
  }

  ghost predicate Shaped(r: Assigned) { |r.tys| == |r.go| == |r.c| }

  function Stores(a: Abi, r: Assigned, n: nat): seq<Instr>
    requires Shaped(r) && n <= |r.tys|
  {
    if n == 0 then [] else Stores(a, r, n - 1) + StackStore(a, r.tys[n - 1], r.go[n - 1], r.c[n - 1])
  }

  function Moves(a: Abi, r: Assigned, b: Bank, n: nat): seq<Move>
    requires Shaped(r) && n <= |r.tys|
  {
    if n == 0 then [] else Moves(a, r, b, n - 1) + RegMove(a, b, r.tys[n - 1], r.go[n - 1], r.c[n - 1])
  }

  function Loads(r: Assigned, b: Bank, n: nat): seq<Instr>
    requires Shaped(r) && n <= |r.tys|
  {
    if n == 0 then [] else Loads(r, b, n - 1) + RegLoad(b, r.tys[n - 1], r.go[n - 1], r.c[n - 1])
  }

  function Copies(b: Bank, ms: seq<Move>): seq<Instr> { seq(|ms|, i requires 0 <= i < |ms| => Copy(b, ms[i])) }

  // ----- what the assignment guarantees -----

  ghost predicate ArgOk(a: Abi, r: Assigned, i: nat)
    requires Shaped(r) && i < |r.tys|
  {
    && IsScalar(r.tys[i])
    && (r.go[i].InReg? ==> r.go[i].reg != ScratchOf(a, BankOf(r.tys[i])))
    && (r.c[i].InReg? ==> r.c[i].reg != ScratchOf(a, BankOf(r.tys[i])))
    && (r.c[i].OnStack? ==> r.c[i].off + Size(r.tys[i]) <= r.cStack)
  }

  ghost predicate Apart(r: Assigned, i: nat, j: nat)
    requires Shaped(r) && i < |r.tys| && j < |r.tys|
  {
    && (r.c[i].InReg? && r.c[j].InReg? && BankOf(r.tys[i]) == BankOf(r.tys[j]) ==> r.c[i].reg != r.c[j].reg)
    && (r.c[i].OnStack? && r.c[j].OnStack? ==> r.c[i].off + Size(r.tys[i]) <= r.c[j].off)
  }

  ghost predicate Usable(a: Abi, r: Assigned) {
    && Shaped(r) && (forall i :: 0 <= i < |r.tys| ==> ArgOk(a, r, i))
    && (forall i, j :: 0 <= i < j < |r.tys| ==> Apart(r, i, j))
  }

  /** Registers come from the table, and no two arguments share one. */
  lemma {:induction false} RegsFromTable(tys: seq<Ty>, locs: seq<Loc>, b: Bank, i: nat)
    requires |tys| == |locs| && i < |tys| && locs[i].InReg? && BankOf(tys[i]) == b
    ensures locs[i].reg in RegsOf(tys, locs, b)
  {
    if i + 1 < |tys| {
      RegsFromTable(Init(tys), Init(locs), b, i);
    }
  }

  lemma {:induction false} RegsDiffer(tys: seq<Ty>, locs: seq<Loc>, b: Bank, i: nat, j: nat)
    requires |tys| == |locs| && i < j < |tys| && locs[i].InReg? && locs[j].InReg?
      && BankOf(tys[i]) == b == BankOf(tys[j])
    requires Distinct(RegsOf(tys, locs, b))
    ensures locs[i].reg != locs[j].reg
  {
    var rest := RegsOf(Init(tys), Init(locs), b);
    var last := RegIn(tys[|tys| - 1], locs[|locs| - 1], b);
    assert RegsOf(tys, locs, b) == rest + last;
    if j + 1 < |tys| {
      assert Distinct(rest) by {
        forall x, y | 0 <= x < y < |rest|
          ensures rest[x] != rest[y]
        {
          assert (rest + last)[x] != (rest + last)[y];
        }
      }
      RegsDiffer(Init(tys), Init(locs), b, i, j);
    } else {
      RegsFromTable(Init(tys), Init(locs), b, i);
      var x :| 0 <= x < |rest| && rest[x] == locs[i].reg;
      assert (rest + last)[x] != (rest + last)[|rest|];
    }
  }

  lemma SideRegs(tys: seq<Ty>, locs: seq<Loc>, ti: seq<nat>, tf: seq<nat>, cur: Cursor, i: nat)
    requires Side(tys, locs, ti, tf, cur) && i < |tys| && locs[i].InReg?
    ensures locs[i].reg in (if BankOf(tys[i]) == IntBank then ti else tf)
  {
    RegsFromTable(tys, locs, BankOf(tys[i]), i);
  }

  lemma SideRegsDiffer(tys: seq<Ty>, locs: seq<Loc>, ti: seq<nat>, tf: seq<nat>, cur: Cursor, i: nat, j: nat)
    requires Side(tys, locs, ti, tf, cur) && Distinct(ti) && Distinct(tf) && i < j < |tys| && locs[i].InReg?
      && locs[j].InReg? && BankOf(tys[i]) == BankOf(tys[j])
    ensures locs[i].reg != locs[j].reg
  {
    assert Distinct(ti[..cur.ints]) && Distinct(tf[..cur.floats]);
    RegsDiffer(tys, locs, BankOf(tys[i]), i, j);
  }

  lemma AssignedIsUsable(a: Abi, r: Assigned)
    requires AbiOk(a) && AssignedOk(a, r)
    ensures Usable(a, r)
  {
    var g: Cursor :| g.stack == r.goStack && Side(r.tys, r.go, a.goInt, a.goFloat, g);
    var c: Cursor :| c.stack == r.cStack && Side(r.tys, r.c, a.cInt, a.cFloat, c);
    forall i | 0 <= i < |r.tys|
      ensures ArgOk(a, r, i)
    {
      if r.go[i].InReg? { SideRegs(r.tys, r.go, a.goInt, a.goFloat, g, i); }
      if r.c[i].InReg? { SideRegs(r.tys, r.c, a.cInt, a.cFloat, c, i); }
      assert SlotOk(r.tys[i], r.c[i], c.stack);
    }
    forall i, j | 0 <= i < j < |r.tys|
      ensures Apart(r, i, j)
    {
      assert Before(r.tys, r.c, i, j);
      if r.c[i].InReg? && r.c[j].InReg? && BankOf(r.tys[i]) == BankOf(r.tys[j]) {
        SideRegsDiffer(r.tys, r.c, a.cInt, a.cFloat, c, i, j);
      }
    }
  }

  // ----- the phases -----

  function GoValue(fr: Frame, s: Cpu, ty: Ty, l: Loc): Word {
    if l.InReg? then RegOf(s, BankOf(ty), l.reg) else WordAt(s.mem, InBase(fr) + l.off)
  }

  function CValue(fr: Frame, s: Cpu, ty: Ty, l: Loc): Word {
    if l.InReg? then RegOf(s, BankOf(ty), l.reg) else WordAt(s.mem, OutBase(fr) + l.off)
  }

  /** Argument i has arrived: s is the state on entry, t the state now. */
  ghost predicate Arrived(fr: Frame, r: Assigned, s: Cpu, t: Cpu, i: nat)
    requires Shaped(r) && i < |r.tys|
  {
    Low(CValue(fr, t, r.tys[i], r.c[i]), Size(r.tys[i])) == Low(GoValue(fr, s, r.tys[i], r.go[i]), Size(r.tys[i]))
  }

  /** Registers other than the scratches, and memory outside the first n bytes
      of the outgoing area, are as they were. */
  ghost predicate Quiet(a: Abi, fr: Frame, s: Cpu, t: Cpu, n: nat) {
    && (forall r: nat :: r != a.scratchInt ==> t.ints(r) == s.ints(r))
    && (forall r: nat :: r != a.scratchFloat ==> t.floats(r) == s.floats(r))
    && (forall x: int :: !(OutBase(fr) <= x < OutBase(fr) + n) ==> t.mem(x) == s.mem(x))
  }

  lemma StoredBytes(mem: Memory, at: int, w: Word, k: nat)
    requires k <= 8
    ensures Low(WordAt(Written(mem, at, w, k), at), k) == Low(w, k)
  {
  }

  lemma OtherBytes(mem: Memory, at: int, w: Word, k: nat, x: int, j: nat)
    requires j <= 8 && k <= 8 && (x + j <= at || at + k <= x)
    ensures Low(WordAt(Written(mem, at, w, k), x), j) == Low(WordAt(mem, x), j)
  {
  }

  lemma SameWord(mem: Memory, now: Memory, at: int)
    requires forall x: int :: at <= x < at + 8 ==> now(x) == mem(x)
    ensures WordAt(now, at) == WordAt(mem, at)
  {
  }

  lemma QuietStart(a: Abi, fr: Frame, s: Cpu, n: nat)
    ensures Quiet(a, fr, s, s, n)
  {
  }

  lemma QuietStore(a: Abi, fr: Frame, s: Cpu, t: Cpu, off: nat, w: Word, k: nat, n: nat)
    requires Quiet(a, fr, s, t, n) && off + k <= n
    ensures Quiet(a, fr, s, t.(mem := Written(t.mem, OutBase(fr) + off, w, k)), n)
  {
  }

  lemma QuietScratch(a: Abi, fr: Frame, s: Cpu, t: Cpu, b: Bank, w: Word, n: nat)
    requires Quiet(a, fr, s, t, n)
    ensures Quiet(a, fr, s, SetReg(t, b, ScratchOf(a, b), w), n)
  {
  }

  /** The Go side of an argument is still what it was on entry. */
  lemma InputKept(a: Abi, fr: Frame, s: Cpu, t: Cpu, n: nat, ty: Ty, l: Loc)
    requires Quiet(a, fr, s, t, n) && n <= fr.outgoing && (l.InReg? ==> l.reg != ScratchOf(a, BankOf(ty)))
    ensures GoValue(fr, t, ty, l) == GoValue(fr, s, ty, l)
  {
    if l.OnStack? { SameWord(s.mem, t.mem, InBase(fr) + l.off); }
  }

  /** What one stack argument's code does: w is the word it stores. */
  lemma StoreEffect(up: Upper, a: Abi, fr: Frame, ty: Ty, go: Loc, off: nat, t: Cpu) returns (w: Word, u: Cpu)
    requires IsScalar(ty)
    ensures Run(up, fr, StackStore(a, ty, go, OnStack(off)), t) ==
      u.(mem := Written(t.mem, OutBase(fr) + off, w, Size(ty)))
    ensures u == t || u == SetReg(t, BankOf(ty), ScratchOf(a, BankOf(ty)), w)
    ensures u.mem == t.mem && Low(w, Size(ty)) == Low(GoValue(fr, t, ty, go), Size(ty))
  {
    hide Run, Merge, Written, WordAt, Low;
    var b := BankOf(ty);
    if go.InReg? {
      w, u := RegOf(t, b, go.reg), t;
      RunOne(up, fr, Store(b, go.reg, off, Size(ty)), t);
    } else {
      var q := ScratchOf(a, b);
      w := Merge(up, RegOf(t, b, q), WordAt(t.mem, InBase(fr) + go.off), Size(ty));
      u := SetReg(t, b, q, w);
      RunTwo(up, fr, Load(b, q, go.off, Size(ty)), Store(b, q, off, Size(ty)), t);
    }
  }

  /** One stack argument, in a state reached by the earlier ones. */
  lemma StoreOne(up: Upper, a: Abi, fr: Frame, r: Assigned, s: Cpu, t: Cpu, n: nat) returns (w: Word)
    requires Usable(a, r) && n < |r.tys| && r.c[n].OnStack? && r.cStack <= fr.outgoing && Quiet(a, fr, s, t, r.cStack)
    ensures var t' := Run(up, fr, StackStore(a, r.tys[n], r.go[n], r.c[n]), t);
      Quiet(a, fr, s, t', r.cStack) && Arrived(fr, r, s, t', n)
        && t'.mem == Written(t.mem, OutBase(fr) + r.c[n].off, w, Size(r.tys[n]))
  {
    hide Quiet, Low, Written, WordAt, Run, SetReg, StackStore, Merge;
    assert ArgOk(a, r, n);
    hide Usable;
    var ty, go, off := r.tys[n], r.go[n], r.c[n].off;
    assert r.c[n] == OnStack(off);
    InputKept(a, fr, s, t, r.cStack, ty, go);
    var u;
    w, u := StoreEffect(up, a, fr, ty, go, off, t);
    QuietScratch(a, fr, s, t, BankOf(ty), w, r.cStack);
    QuietStore(a, fr, s, u, off, w, Size(ty), r.cStack);
    StoredBytes(t.mem, OutBase(fr) + off, w, Size(ty));
  }

  lemma {:induction false} StoresRun(up: Upper, a: Abi, fr: Frame, r: Assigned, s: Cpu, n: nat)
    requires Usable(a, r) && n <= |r.tys| && r.cStack <= fr.outgoing
    ensures var t := Run(up, fr, Stores(a, r, n), s);
      Quiet(a, fr, s, t, r.cStack) && forall i :: 0 <= i < n && r.c[i].OnStack? ==> Arrived(fr, r, s, t, i)
  {
    hide Quiet, Low, Written, WordAt, Run, Merge;
    RunNone(up, fr, s);
    QuietStart(a, fr, s, r.cStack);
    if n > 0 {
      StoresRun(up, a, fr, r, s, n - 1);
      var more := StackStore(a, r.tys[n - 1], r.go[n - 1], r.c[n - 1]);
      var t := Run(up, fr, Stores(a, r, n - 1), s);
      RunAppend(up, fr, Stores(a, r, n - 1), more, s);
      if r.c[n - 1].OnStack? {
        var w := StoreOne(up, a, fr, r, s, t, n - 1);
        hide StackStore;
        var t' := Run(up, fr, more, t);
        forall i | 0 <= i < n && r.c[i].OnStack?
          ensures Arrived(fr, r, s, t', i)
        {
          if i < n - 1 {
            assert ArgOk(a, r, i) && ArgOk(a, r, n - 1) && Apart(r, i, n - 1) && Arrived(fr, r, s, t, i);
            OtherBytes(t.mem, OutBase(fr) + r.c[n - 1].off, w, Size(r.tys[n - 1]), OutBase(fr) + r.c[i].off,
              Size(r.tys[i]));
          }
        }
      } else {
        RunNone(up, fr, t);
      }
    }
  }

  lemma {:induction false} CopiesRun(up: Upper, fr: Frame, b: Bank, ms: seq<Move>, s: Cpu)
    ensures Run(up, fr, Copies(b, ms), s) == if b == IntBank then s.(ints := Exec(up, ms, s.ints))
      else s.(floats := Exec(up, ms, s.floats))
  {
    if ms != [] {
      CopiesRun(up, fr, b, Init(ms), s);
      assert Copies(b, ms) == Copies(b, Init(ms)) + [Copy(b, ms[|ms| - 1])];
      RunStep(up, fr, Copies(b, Init(ms)), Copy(b, ms[|ms| - 1]), s);
    }
  }

  /** The moves of one bank, back to the arguments they serve. */
  lemma {:induction false} MovesServe(a: Abi, r: Assigned, b: Bank, n: nat, i: nat) returns (k: nat)
    requires Shaped(r) && i < n <= |r.tys| && r.c[i].InReg? && r.go[i].InReg? && BankOf(r.tys[i]) == b
    ensures k < |Moves(a, r, b, n)| && Moves(a, r, b, n)[k] == Move(r.go[i].reg, r.c[i].reg, MoveSize(a, r.tys[i]))
  {
    if i + 1 == n {
      k := |Moves(a, r, b, n - 1)|;
    } else {
      k := MovesServe(a, r, b, n - 1, i);
    }
  }

  lemma {:induction false} MovesComeFrom(a: Abi, r: Assigned, b: Bank, n: nat, k: nat) returns (i: nat)
    requires Shaped(r) && n <= |r.tys| && k < |Moves(a, r, b, n)|
    ensures i < n && r.c[i].InReg? && r.go[i].InReg? && BankOf(r.tys[i]) == b
      && Moves(a, r, b, n)[k] == Move(r.go[i].reg, r.c[i].reg, MoveSize(a, r.tys[i]))
  {
    if k == |Moves(a, r, b, n - 1)| {
      i := n - 1;
    } else {
      i := MovesComeFrom(a, r, b, n - 1, k);
    }
  }

  lemma {:induction false} MovesAreSequenceable(a: Abi, r: Assigned, b: Bank, n: nat)
    requires Usable(a, r) && n <= |r.tys|
    ensures DistinctTargets(Moves(a, r, b, n))
    ensures forall k :: 0 <= k < |Moves(a, r, b, n)| ==>
      Moves(a, r, b, n)[k].src != ScratchOf(a, b) && Moves(a, r, b, n)[k].dst != ScratchOf(a, b)
  {
    if n > 0 {
      MovesAreSequenceable(a, r, b, n - 1);
      assert ArgOk(a, r, n - 1);
      var ms := Moves(a, r, b, n - 1);
      forall k | 0 <= k < |ms| && r.c[n - 1].InReg? && BankOf(r.tys[n - 1]) == b
        ensures ms[k].dst != r.c[n - 1].reg
      {
        var i := MovesComeFrom(a, r, b, n - 1, k);
        assert Apart(r, i, n - 1);
      }
    }
  }

  ghost predicate LoadedInto(r: Assigned, b: Bank, n: nat, x: nat)
    requires Shaped(r) && n <= |r.tys|
  {
    exists i :: 0 <= i < n && IsLoaded(r, b, i) && r.c[i].reg == x
  }

  predicate IsLoaded(r: Assigned, b: Bank, i: nat)
    requires i < |r.tys| && i < |r.go| && i < |r.c|
  {
    r.c[i].InReg? && r.go[i].OnStack? && BankOf(r.tys[i]) == b
  }

  /** The loads of one bank: each fills its own register and nothing else. */
  ghost predicate Loaded(fr: Frame, r: Assigned, b: Bank, s: Cpu, t: Cpu, n: nat)
    requires Shaped(r) && n <= |r.tys|
  {
    && t.mem == s.mem && (b == IntBank ==> t.floats == s.floats) && (b == FloatBank ==> t.ints == s.ints)
    && (forall i :: 0 <= i < n && IsLoaded(r, b, i) ==> Arrived(fr, r, s, t, i))
    && (forall x: nat :: !LoadedInto(r, b, n, x) ==> RegOf(t, b, x) == RegOf(s, b, x))
  }

  lemma LoadOne(up: Upper, a: Abi, fr: Frame, r: Assigned, b: Bank, s: Cpu, t: Cpu, n: nat)
    requires Usable(a, r) && n < |r.tys| && Loaded(fr, r, b, s, t, n) && IsLoaded(r, b, n)
    ensures Loaded(fr, r, b, s, Step(up, fr, Load(b, r.c[n].reg, r.go[n].off, Size(r.tys[n])), t), n + 1)
  {
    hide Low, WordAt;
    var t' := Step(up, fr, Load(b, r.c[n].reg, r.go[n].off, Size(r.tys[n])), t);
    assert LoadedInto(r, b, n + 1, r.c[n].reg);
    forall i | 0 <= i < n + 1 && IsLoaded(r, b, i)
      ensures Arrived(fr, r, s, t', i)
    {
      if i < n { assert Arrived(fr, r, s, t, i) && Apart(r, i, n); }
    }
    forall x: nat | !LoadedInto(r, b, n + 1, x)
      ensures RegOf(t', b, x) == RegOf(s, b, x)
    {
      assert !LoadedInto(r, b, n, x);
    }
  }

  lemma NoLoad(fr: Frame, r: Assigned, b: Bank, s: Cpu, t: Cpu, n: nat)
    requires Shaped(r) && n < |r.tys| && Loaded(fr, r, b, s, t, n) && !IsLoaded(r, b, n)
    ensures Loaded(fr, r, b, s, t, n + 1)
  {
    forall x: nat | !LoadedInto(r, b, n + 1, x)
      ensures RegOf(t, b, x) == RegOf(s, b, x)
    {
      assert !LoadedInto(r, b, n, x);
    }
  }

  lemma LoadedStart(fr: Frame, r: Assigned, b: Bank, s: Cpu)
    requires Shaped(r)
    ensures Loaded(fr, r, b, s, s, 0)
  {
  }

  lemma {:induction false} LoadsRun(up: Upper, a: Abi, fr: Frame, r: Assigned, b: Bank, s: Cpu, n: nat)
    requires Usable(a, r) && n <= |r.tys|
    ensures Loaded(fr, r, b, s, Run(up, fr, Loads(r, b, n), s), n)
  {
    UsableShaped(a, r);
    hide Run, Step, Usable, Shaped, Low, Loaded, Loads;
    if n == 0 {
      LoadsNone(r, b);
      RunNone(up, fr, s);
      LoadedStart(fr, r, b, s);
    } else {
      LoadsRun(up, a, fr, r, b, s, n - 1);
      LoadsStep(up, a, fr, r, b, s, n - 1);
    }
  }

  lemma UsableShaped(a: Abi, r: Assigned)
    requires Usable(a, r)
    ensures Shaped(r)
  {
  }

  lemma LoadsNone(r: Assigned, b: Bank)
    requires Shaped(r)
    ensures Loads(r, b, 0) == []
  {
  }

  lemma LoadsStep(up: Upper, a: Abi, fr: Frame, r: Assigned, b: Bank, s: Cpu, n: nat)
    requires Usable(a, r) && n < |r.tys| && Shaped(r) && Loaded(fr, r, b, s, Run(up, fr, Loads(r, b, n), s), n)
    ensures Loaded(fr, r, b, s, Run(up, fr, Loads(r, b, n + 1), s), n + 1)
  {
    hide Run, Step, Usable, Low, Loaded;
    var more, t := RegLoad(b, r.tys[n], r.go[n], r.c[n]), Run(up, fr, Loads(r, b, n), s);
    LoadsUnfold(r, b, n);
    hide Loads;
    RunAppend(up, fr, Loads(r, b, n), more, s);
    if IsLoaded(r, b, n) {
      RunOne(up, fr, Load(b, r.c[n].reg, r.go[n].off, Size(r.tys[n])), t);
      LoadOne(up, a, fr, r, b, s, t, n);
    } else {
      RunNone(up, fr, t);
      NoLoad(fr, r, b, s, t, n);
    }
  }

  lemma LoadsUnfold(r: Assigned, b: Bank, n: nat)
    requires Shaped(r) && n < |r.tys|
    ensures Loads(r, b, n + 1) == Loads(r, b, n) + RegLoad(b, r.tys[n], r.go[n], r.c[n])
  {
  }

  // ----- the whole thunk -----

  /** The five phases: state after the stores, after the integer moves, after
      the floating-point moves, after the integer loads, at the call. */
  ghost predicate Phases(up: Upper, a: Abi, fr: Frame, r: Assigned, s: Cpu, t1: Cpu, t2: Cpu, t3: Cpu, t4: Cpu, t5: Cpu)
    requires Shaped(r)
  {
    && Quiet(a, fr, s, t1, r.cStack) && (forall j :: 0 <= j < |r.tys| && r.c[j].OnStack? ==> Arrived(fr, r, s, t1, j))
    && t2.floats == t1.floats && t2.mem == t1.mem
      && AllAtOnce(Moves(a, r, IntBank, |r.tys|), a.scratchInt, t1.ints, t2.ints)
    && t3.ints == t2.ints && t3.mem == t2.mem
      && AllAtOnce(Moves(a, r, FloatBank, |r.tys|), a.scratchFloat, t2.floats, t3.floats)
    && Loaded(fr, r, IntBank, t3, t4, |r.tys|) && Loaded(fr, r, FloatBank, t4, t5, |r.tys|)
  }

  lemma MovedArrives(a: Abi, r: Assigned, b: Bank, f: RegFile, g: RegFile, i: nat)
    requires Usable(a, r) && i < |r.tys| && r.c[i].InReg? && r.go[i].InReg? && BankOf(r.tys[i]) == b
    requires AllAtOnce(Moves(a, r, b, |r.tys|), ScratchOf(a, b), f, g)
    ensures Low(g(r.c[i].reg), Size(r.tys[i])) == Low(f(r.go[i].reg), Size(r.tys[i]))
  {
    assert ArgOk(a, r, i);
    var k := MovesServe(a, r, b, |r.tys|, i);
    var m := Moves(a, r, b, |r.tys|)[k];
    hide Moves, Low;
    Narrower(g(m.dst), f(m.src), m.size, Size(r.tys[i]));
  }

  lemma NotReloaded(a: Abi, r: Assigned, b: Bank, i: nat)
    requires Usable(a, r) && i < |r.tys| && r.c[i].InReg? && r.go[i].InReg? && BankOf(r.tys[i]) == b
    ensures !LoadedInto(r, b, |r.tys|, r.c[i].reg)
  {
    forall j | 0 <= j < |r.tys| && IsLoaded(r, b, j)
      ensures r.c[j].reg != r.c[i].reg
    {
      if j < i { assert Apart(r, j, i); } else { assert Apart(r, i, j); }
    }
  }

  lemma ArgArrives(up: Upper, a: Abi, fr: Frame, r: Assigned, s: Cpu, t1: Cpu, t2: Cpu, t3: Cpu, t4: Cpu, t5: Cpu,
      i: nat)
    requires Usable(a, r) && r.cStack <= fr.outgoing && i < |r.tys| && Phases(up, a, fr, r, s, t1, t2, t3, t4, t5)
    ensures Arrived(fr, r, s, t5, i)
  {
    hide Low, AllAtOnce, Quiet, LoadedInto, WordAt, Moves;
    assert ArgOk(a, r, i);
    var ty := r.tys[i];
    InputKept(a, fr, s, t1, r.cStack, ty, r.go[i]);
    if r.c[i].OnStack? {
      assert Arrived(fr, r, s, t1, i);
    } else if r.go[i].InReg? {
      NotReloaded(a, r, BankOf(ty), i);
      if BankOf(ty) == IntBank {
        MovedArrives(a, r, IntBank, t1.ints, t2.ints, i);
      } else {
        MovedArrives(a, r, FloatBank, t2.floats, t3.floats, i);
      }
    } else if BankOf(ty) == IntBank {
      assert IsLoaded(r, IntBank, i) && Arrived(fr, r, t3, t4, i);
    } else {
      assert IsLoaded(r, FloatBank, i) && Arrived(fr, r, t4, t5, i);
    }
  }

  /** At the call every argument has arrived, nothing outside the outgoing area
      was written, and only C argument registers and scratches changed. */
  ghost predicate Marshalled(a: Abi, fr: Frame, r: Assigned, s: Cpu, t: Cpu)
    requires Shaped(r)
  {
    && (forall i :: 0 <= i < |r.tys| ==> Arrived(fr, r, s, t, i))
    && (forall x: int :: !(OutBase(fr) <= x < OutBase(fr) + r.cStack) ==> t.mem(x) == s.mem(x))
    && (forall b: Bank, x: nat :: x != ScratchOf(a, b) && !TakenByC(r, b, x) ==> RegOf(t, b, x) == RegOf(s, b, x))
  }

  ghost predicate TakenByC(r: Assigned, b: Bank, x: nat)
    requires Shaped(r)
  {
    exists i :: 0 <= i < |r.tys| && r.c[i] == InReg(x) && BankOf(r.tys[i]) == b
  }

  lemma MovesTouchOnlyC(a: Abi, r: Assigned, b: Bank, x: nat)
    requires Shaped(r) && !TakenByC(r, b, x)
    ensures x !in Targets(Moves(a, r, b, |r.tys|)) && !LoadedInto(r, b, |r.tys|, x)
  {
    var ms := Moves(a, r, b, |r.tys|);
    forall k | 0 <= k < |ms|
      ensures ms[k].dst != x
    {
      var i := MovesComeFrom(a, r, b, |r.tys|, k);
      assert r.c[i] == InReg(ms[k].dst);
    }
    forall j | 0 <= j < |r.tys| && IsLoaded(r, b, j)
      ensures r.c[j].reg != x
    {
      assert r.c[j] == InReg(r.c[j].reg);
    }
  }

  lemma PhasesMarshal(up: Upper, a: Abi, fr: Frame, r: Assigned, s: Cpu, t1: Cpu, t2: Cpu, t3: Cpu, t4: Cpu, t5: Cpu)
    requires Usable(a, r) && r.cStack <= fr.outgoing && Phases(up, a, fr, r, s, t1, t2, t3, t4, t5)
    ensures Marshalled(a, fr, r, s, t5)
  {
    forall i | 0 <= i < |r.tys|
      ensures Arrived(fr, r, s, t5, i)
    {
      ArgArrives(up, a, fr, r, s, t1, t2, t3, t4, t5, i);
    }
    forall b: Bank, x: nat | x != ScratchOf(a, b) && !TakenByC(r, b, x)
      ensures RegOf(t5, b, x) == RegOf(s, b, x)
    {
      MovesTouchOnlyC(a, r, b, x);
      hide Moves, Arrived, TakenByC, LoadedInto;
    }
  }

  function Code(a: Abi, r: Assigned, im: seq<Move>, fm: seq<Move>): seq<Instr>
    requires Shaped(r)
  {
    Stores(a, r, |r.tys|) + Copies(IntBank, im) + Copies(FloatBank, fm) + Loads(r, IntBank, |r.tys|) +
      Loads(r, FloatBank, |r.tys|)
  }

  lemma CodeMarshals(up: Upper, a: Abi, fr: Frame, r: Assigned, im: seq<Move>, fm: seq<Move>, s: Cpu)
    requires Usable(a, r) && r.cStack <= fr.outgoing
    requires Simultaneous(Moves(a, r, IntBank, |r.tys|), im, a.scratchInt)
      && Simultaneous(Moves(a, r, FloatBank, |r.tys|), fm, a.scratchFloat)
    ensures Marshalled(a, fr, r, s, Run(up, fr, Code(a, r, im, fm), s))
  {
    assert Shaped(r);
    hide Run, Step, Usable, Stores, Loads, Copies, Moves, Exec, Arrived, Loaded, Quiet, Marshalled, AllAtOnce;
    var n := |r.tys|;
    var c1, c2, c3, c4, c5 := Stores(a, r, n), Copies(IntBank, im), Copies(FloatBank, fm), Loads(r, IntBank, n),
      Loads(r, FloatBank, n);
    var t1 := Run(up, fr, c1, s);
    var t2 := Run(up, fr, c2, t1);
    var t3 := Run(up, fr, c3, t2);
    var t4 := Run(up, fr, c4, t3);
    var t5 := Run(up, fr, c5, t4);
    RunAppend(up, fr, c1, c2, s);
    RunAppend(up, fr, c1 + c2, c3, s);
    RunAppend(up, fr, c1 + c2 + c3, c4, s);
    RunAppend(up, fr, c1 + c2 + c3 + c4, c5, s);
    StoresRun(up, a, fr, r, s, n);
    CopiesRun(up, fr, IntBank, im, t1);
    CopiesRun(up, fr, FloatBank, fm, t2);
    LoadsRun(up, a, fr, r, IntBank, t3, n);
    LoadsRun(up, a, fr, r, FloatBank, t4, n);
    assert AllAtOnce(Moves(a, r, IntBank, n), a.scratchInt, t1.ints, Exec(up, im, t1.ints));
    assert AllAtOnce(Moves(a, r, FloatBank, n), a.scratchFloat, t2.floats, Exec(up, fm, t2.floats));
    PhasesMarshal(up, a, fr, r, s, t1, t2, t3, t4, t5);
  }

  /** The thunk is right for every machine state, every frame with room for the
      C stack arguments, and every rule for the upper bytes of narrow writes. */
  ghost predicate Marshals(a: Abi, r: Assigned, code: seq<Instr>)
    requires Shaped(r)
  {
    forall up: Upper, fr: Frame, s: Cpu {:trigger Run(up, fr, code, s)} :: r.cStack <= fr.outgoing ==>
      Marshalled(a, fr, r, s, Run(up, fr, code, s))
  }

  /** Sorts the arguments into stack stores, register moves and register loads. */
  method Collect(a: Abi, r: Assigned)
      returns (stores: seq<Instr>, intMoves: seq<Move>, floatMoves: seq<Move>, intLoads: seq<Instr>,
      floatLoads: seq<Instr>)
    requires Shaped(r)
    ensures stores == Stores(a, r, |r.tys|) && intMoves == Moves(a, r, IntBank, |r.tys|)
      && floatMoves == Moves(a, r, FloatBank, |r.tys|)
    ensures intLoads == Loads(r, IntBank, |r.tys|) && floatLoads == Loads(r, FloatBank, |r.tys|)
  {
    stores, intLoads, floatLoads, intMoves, floatMoves := [], [], [], [], [];
    for n := 0 to |r.tys|
      invariant stores == Stores(a, r, n) && intMoves == Moves(a, r, IntBank, n)
        && floatMoves == Moves(a, r, FloatBank, n)
      invariant intLoads == Loads(r, IntBank, n) && floatLoads == Loads(r, FloatBank, n)
    {
      var ty, go, c := r.tys[n], r.go[n], r.c[n];
      if c.OnStack? {
        stores := stores + StackStore(a, ty, go, c);
      } else if go.OnStack? {
        if BankOf(ty) == IntBank {
          intLoads := intLoads + RegLoad(IntBank, ty, go, c);
        } else {
          floatLoads := floatLoads + RegLoad(FloatBank, ty, go, c);
        }
      } else if BankOf(ty) == IntBank {
        intMoves := intMoves + [Move(go.reg, c.reg, MoveSize(a, ty))];
      } else {
        floatMoves := floatMoves + [Move(go.reg, c.reg, MoveSize(a, ty))];
      }
    }
  }

  method EmitThunk(a: Abi, r: Assigned) returns (code: seq<Instr>)
    requires AbiOk(a) && AssignedOk(a, r)
    ensures Shaped(r) && Marshals(a, r, code)
  {
    hide AbiOk, AssignedOk, Stores, Moves, Loads, Copies, Simultaneous, Marshalled;
    AssignedIsUsable(a, r);
    assert Shaped(r);
    hide Usable;
    var stores, intMoves, floatMoves, intLoads, floatLoads := Collect(a, r);
    MovesAreSequenceable(a, r, IntBank, |r.tys|);
    MovesAreSequenceable(a, r, FloatBank, |r.tys|);
    var im := Sequence(intMoves, a.scratchInt);
    var fm := Sequence(floatMoves, a.scratchFloat);
    code := stores + Copies(IntBank, im) + Copies(FloatBank, fm) + intLoads + floatLoads;
    forall up: Upper, fr: Frame, s: Cpu | r.cStack <= fr.outgoing
      ensures Marshalled(a, fr, r, s, Run(up, fr, code, s))
    {
      CodeMarshals(up, a, fr, r, im, fm, s);
    }
  }

  /** From a signature to a thunk: accepted exactly when every parameter is
      supported, and then right. */
  method CompileThunk(a: Abi, params: seq<Param>) returns (ok: bool, code: seq<Instr>, r: Assigned)
    requires AbiOk(a)
    ensures ok <==> forall i :: 0 <= i < |params| ==> Supported(params[i])
    ensures ok ==> r.tys == Flat(params) && AsAsked(a, params, r) && Shaped(r) && Marshals(a, r, code)
  {
    hide AssignedOk, Marshals, AbiOk, AsAsked;
    var q := AssignParams(a, params);
    ok, code, r := q.Ok?, [], Assigned([], [], [], 0, 0);
    if ok {
      r := q.value;
      code := EmitThunk(a, r);
    }
  }
}
