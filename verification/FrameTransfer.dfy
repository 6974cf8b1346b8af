/** The instructions the frame-address analysis tells apart, and its transfer
    function: once as a specification on values, once in place. */
module FrameTransfer {
  import opened Options
  import opened FrameLattice

  /** The general registers other than RBP and RSP, in encoding order:
      RAX RCX RDX RBX RSI RDI R8 .. R15. */
  const GPRS := 14

  datatype Reg = Gpr(n: nat) | Frame(base: Base)

  /** The second operand of a two-operand instruction: a register, a tracked
      slot, or memory the analysis does not track. */
  datatype Source = FromReg(reg: Reg) | FromSlot(slot: nat) | FromMemory

  /** `id` stands for the instruction's address, which names a copy group.
      `Lea.plain` is false with a segment or a symbolic displacement.
      `Sub.root` marks a subtrahend loaded from a stack-map root.
      `Other` is every instruction without a rule of its own: `vals` are its
      value operands, `addrs` its address registers, `load` and `store` the
      tracked slot it reads or writes (one instruction touches one slot), `whole`
      a store that covers its slot. */
  datatype Instr =
    | ImplicitDef(dst: Reg)
    | Lea(dst: Reg, base: Option<Reg>, scale: int, index: Option<Reg>, disp: int, plain: bool)
    | Mov(dst: Reg, src: Reg, id: nat)
    | AddImm(dst: Reg, src: Reg, imm: int)
    | Add(dst: Reg, a: Reg, b: Source)
    | Cmov(dst: Reg, a: Reg, b: Source)
    | Sub(dst: Reg, a: Reg, b: Source, root: bool)
    | Load(dst: Reg, slot: nat, id: nat)
    | Store(slot: nat, src: Reg)
    | Other(defs: seq<Reg>, vals: seq<Reg>, addrs: seq<Reg>, load: Option<nat>, store: Option<nat>, whole: bool)
    | Call(args: seq<Reg>, clobbers: seq<nat>, results: seq<nat>)

  predicate ValidReg(r: Reg) { r.Gpr? ==> r.n < GPRS }

  predicate ValidRegs(rs: seq<Reg>) { forall i :: 0 <= i < |rs| ==> ValidReg(rs[i]) }

  predicate ValidOpt(r: Option<Reg>) { r.Some? ==> ValidReg(r.value) }

  predicate ValidSource(b: Source, slots: nat) {
    match b
    case FromReg(r) => ValidReg(r)
    case FromSlot(s) => s < slots
    case FromMemory => true
  }

  predicate ValidInstr(i: Instr, slots: nat) {
    match i
    case ImplicitDef(d) => ValidReg(d)
    case Lea(d, b, _, x, _, _) => ValidReg(d) && ValidOpt(b) && ValidOpt(x)
    case Mov(d, s, id) => ValidReg(d) && ValidReg(s) && id != NO_COPY
    case AddImm(d, s, _) => ValidReg(d) && ValidReg(s)
    case Add(d, a, b) => ValidReg(d) && ValidReg(a) && ValidSource(b, slots)
    case Cmov(d, a, b) => ValidReg(d) && ValidReg(a) && ValidSource(b, slots)
    case Sub(d, a, b, _) => ValidReg(d) && ValidReg(a) && ValidSource(b, slots)
    case Load(d, sl, id) => ValidReg(d) && sl < slots && id != NO_COPY
    case Store(sl, s) => sl < slots && ValidReg(s)
    case Other(ds, vs, as_, l, st, _) =>
      ValidRegs(ds) && ValidRegs(vs) && ValidRegs(as_) && (l.Some? ==> l.value < slots)
        && (st.Some? ==> st.value < slots)
      && (l.Some? && st.Some? ==> l == st)
    case Call(as_, cs, rs) =>
      ValidRegs(as_) && (forall k :: 0 <= k < |cs| ==> cs[k] < GPRS) && (forall k :: 0 <= k < |rs| ==> rs[k] < GPRS)
  }

  function Defs(i: Instr): seq<Reg> {
    match i
    case Store(_, _) => []
    case Other(ds, _, _, _, _, _) => ds
    case Call(_, _, _) => []
    case _ => [i.dst]
  }

  /** What every register and every tracked slot is known to hold. */
  datatype AState = AState(units: seq<Val>, slots: seq<Val>) {
    predicate Valid(n: nat) { |units| == GPRS && |slots| == n }
  }

  function Read(s: AState, r: Reg): Val
    requires |s.units| == GPRS && ValidReg(r)
  {
    match r
    case Frame(b) => Of(Exact(b, 0))
    case Gpr(n) => if s.units[n].kind.Unset? then Of(Plain) else s.units[n]
  }

  function Write(s: AState, r: Reg, v: Val): (t: AState)
    requires |s.units| == GPRS && ValidReg(r)
    ensures t.Valid(|s.slots|)
  {
    match r
    case Frame(_) => s
    case Gpr(n) => s.(units := s.units[n := v])
  }

  function WriteAll(s: AState, rs: seq<Reg>, v: Val): (t: AState)
    requires |s.units| == GPRS && ValidRegs(rs)
    ensures t.Valid(|s.slots|) && t.slots == s.slots
    ensures forall n :: 0 <= n < GPRS ==> t.units[n] == if Gpr(n) in rs then v else s.units[n]
  {
    if rs == [] then s else Write(WriteAll(s, rs[..|rs| - 1], v), rs[|rs| - 1], v)
  }

  function Unbased(v: Val, b: Base): Val {
    if v.kind.Exact? && v.kind.base == b then Of(Shifts) else v
  }

  function MapVals(vs: seq<Val>, f: Val -> Val): (ws: seq<Val>)
    ensures |ws| == |vs| && forall i :: 0 <= i < |vs| ==> ws[i] == f(vs[i])
  {
    seq(|vs|, i requires 0 <= i < |vs| => f(vs[i]))
  }

  function Invalidate(s: AState, b: Base): AState {
    AState(MapVals(s.units, v => Unbased(v, b)), MapVals(s.slots, v => Unbased(v, b)))
  }

  /** Every definition of a frame base loses the exact addresses built on it. */
  function InvalidateAll(s: AState, rs: seq<Reg>): (t: AState)
    ensures |t.units| == |s.units| && |t.slots| == |s.slots|
  {
    if rs == [] then s
    else
      var t := InvalidateAll(s, rs[..|rs| - 1]);
      match rs[|rs| - 1]
      case Frame(b) => Invalidate(t, b)
      case Gpr(_) => t
  }

  function Unaliased(v: Val, sl: int): Val { if v.alias == sl then v.(alias := NO_ALIAS) else v }

  function Forget(s: AState, sl: nat): AState {
    AState(MapVals(s.units, v => Unaliased(v, sl)), MapVals(s.slots, v => Unaliased(v, sl)))
  }

  function Marked(v: Val, id: nat, sl: nat): Val { if v.copyId == id then v.(alias := sl) else v }

  predicate AnyFrame(s: AState, rs: seq<Reg>)
    requires |s.units| == GPRS && ValidRegs(rs)
  {
    exists i :: 0 <= i < |rs| && Read(s, rs[i]).Frameish()
  }

  function LeaValue(s: AState, base: Option<Reg>, scale: int, index: Option<Reg>, disp: int, plain: bool): Val
    requires |s.units| == GPRS && ValidOpt(base) && ValidOpt(index)
  {
    var vb := if base.Some? then Read(s, base.value) else Of(Plain);
    var vi := if index.Some? then Read(s, index.value) else Of(Plain);
    if !vb.Frameish() && !vi.Frameish() then Of(Plain)
    else if !plain then Of(Tainted)
    else if vb.kind.Exact? && index.None? then Of(Exact(vb.kind.base, vb.kind.off + disp))
    else if vb.Moves() && !vi.Frameish() then Of(Shifts)
    else if !vb.Frameish() && vi.Moves() && scale == 1 then Of(Shifts)
    else if vb.kind.Maybe? && !vi.Frameish() then Of(Maybe)
    else if !vb.Frameish() && vi.kind.Maybe? && scale == 1 then Of(Maybe)
    else Of(Tainted)
  }

  function AddImmValue(v: Val, imm: int): Val {
    if v.kind.Exact? then Of(Exact(v.kind.base, v.kind.off + imm))
    else
      var w := if v.Frameish() then v else Of(Plain);
      if imm != 0 then w.Bare() else w
  }

  function AddValue(a: Val, b: Val): Val {
    if !a.Frameish() && !b.Frameish() then Of(Plain)
    else if (a.Moves() && !b.Frameish()) || (!a.Frameish() && b.Moves()) then Of(Shifts)
    else if (a.kind.Maybe? && !b.Frameish()) || (!a.Frameish() && b.kind.Maybe?) then Of(Maybe)
    else Of(Tainted)
  }

  function SubValue(a: Val, b: Val, root: bool): Val {
    if !a.Frameish() && !b.Frameish() then Of(Plain)
    else if a.Repairable() && (b.Repairable() || root) then Of(Plain)
    else Of(Tainted)
  }

  /** The addend of an addition: a slot counts only when it is frame-derived. */
  function AddSource(s: AState, b: Source): Val
    requires |s.units| == GPRS && ValidSource(b, |s.slots|)
  {
    match b
    case FromReg(r) => Read(s, r)
    case FromSlot(sl) => if s.slots[sl].Frameish() then s.slots[sl] else Of(Plain)
    case FromMemory => Of(Plain)
  }

  function CmovSource(s: AState, b: Source): Val
    requires |s.units| == GPRS && ValidSource(b, |s.slots|)
  {
    match b
    case FromReg(r) => Read(s, r)
    case FromSlot(sl) => if s.slots[sl].kind.Unset? then Of(Plain) else s.slots[sl]
    case FromMemory => Of(Plain)
  }

  function SubSource(s: AState, b: Source): Val
    requires |s.units| == GPRS && ValidSource(b, |s.slots|)
  {
    match b
    case FromReg(r) => Read(s, r)
    case FromSlot(sl) => s.slots[sl]
    case FromMemory => Of(Plain)
  }

  /** A copy starts a group, named after the instruction, unless the source
      already belongs to one. */
  predicate StartsGroup(s: AState, i: Instr)
    requires |s.units| == GPRS && ValidInstr(i, |s.slots|)
  {
    (i.Mov? && Read(s, i.src).copyId == NO_COPY && i.src != i.dst)
    || (i.Load? && s.slots[i.slot].copyId == NO_COPY)
  }

  /** The value written to every definition of the instruction. */
  function Value(s: AState, i: Instr): Val
    requires |s.units| == GPRS && ValidInstr(i, |s.slots|)
  {
    match i
    case ImplicitDef(_) => Of(Unset)
    case Lea(_, b, sc, x, d, p) => LeaValue(s, b, sc, x, d, p)
    case Mov(_, src, id) => if StartsGroup(s, i) then Read(s, src).(copyId := id) else Read(s, src)
    case AddImm(_, src, imm) => AddImmValue(Read(s, src), imm)
    case Add(_, a, b) => AddValue(Read(s, a), AddSource(s, b))
    case Cmov(_, a, b) => Join(Read(s, a), CmovSource(s, b))
    case Sub(_, a, b, root) => SubValue(Read(s, a), SubSource(s, b), root)
    case Load(_, sl, id) =>
      var v := if s.slots[sl].kind.Unset? then Of(Plain) else s.slots[sl];
      v.(alias := sl, copyId := if v.copyId == NO_COPY then id else v.copyId)
    case Store(_, _) => Of(Plain)
    case Other(_, vals, _, load, _, _) =>
      if AnyFrame(s, vals) || (load.Some? && s.slots[load.value].Frameish()) then Of(Tainted) else Of(Plain)
    case Call(_, _, _) => Of(Plain)
  }

  /** A full-width store makes the slot, and every register in the stored
      value's copy group, the same word. */
  function StoreWhole(s: AState, sl: nat, src: Reg): (t: AState)
    requires |s.units| == GPRS && sl < |s.slots| && ValidReg(src)
    ensures t.Valid(|s.slots|)
  {
    var id := Read(s, src).copyId;
    var f := Forget(s, sl);
    var v := Read(f, src);
    var t := f.(slots := f.slots[sl := v.(alias := NO_ALIAS)]);
    if id == NO_COPY then Write(t, src, v.(alias := sl))
    else t.(units := MapVals(t.units, u => Marked(u, id, sl)))
  }

  function StorePart(s: AState, sl: nat, vals: seq<Reg>): (t: AState)
    requires |s.units| == GPRS && sl < |s.slots| && ValidRegs(vals)
    ensures t.Valid(|s.slots|)
  {
    var f := Forget(s, sl);
    var tainted := f.slots[sl].Frameish() || AnyFrame(f, vals);
    f.(slots := f.slots[sl := Of(if tainted then Tainted else Plain)])
  }

  function Stores(s: AState, i: Instr): (t: AState)
    requires |s.units| == GPRS && ValidInstr(i, |s.slots|)
    ensures t.Valid(|s.slots|)
  {
    match i
    case Store(sl, src) => StoreWhole(s, sl, src)
    case Other(_, vals, _, _, Some(sl), _) => StorePart(s, sl, vals)
    case _ => s
  }

  function GroupSource(s: AState, i: Instr): (t: AState)
    requires |s.units| == GPRS && ValidInstr(i, |s.slots|)
    ensures t.Valid(|s.slots|)
  {
    if i.Mov? && StartsGroup(s, i) then Write(s, i.src, Value(s, i)) else s
  }

  function StepCall(s: AState, clobbers: seq<nat>, results: seq<nat>): (t: AState)
    requires |s.units| == GPRS
    requires (forall k :: 0 <= k < |clobbers| ==> clobbers[k] < GPRS) && forall k :: 0 <= k < |results| ==>
      results[k] < GPRS
    ensures t.Valid(|s.slots|) && t.slots == s.slots
    ensures forall n :: 0 <= n < GPRS ==>
      t.units[n] == if n in results then Of(Plain) else if n in clobbers then Of(Unset) else s.units[n]
  {
    s.(units := seq(GPRS, n requires 0 <= n < GPRS =>
      if n in results then Of(Plain) else if n in clobbers then Of(Unset) else s.units[n]))
  }

  /** The transfer function of one instruction. */
  function Step(s: AState, i: Instr): (t: AState)
    requires |s.units| == GPRS && ValidInstr(i, |s.slots|)
    ensures t.Valid(|s.slots|)
  {
    if i.Call? then StepCall(s, i.clobbers, i.results)
    else
      var s0 := InvalidateAll(s, Defs(i));
      WriteAll(Stores(GroupSource(s0, i), i), Defs(i), Value(s0, i))
  }

  /** The analysis state as the pass keeps it: two vectors updated in place. */
  class MutableState {
    var units: seq<Val>
    var slots: seq<Val>

    ghost predicate Valid() reads this { |units| == GPRS }

    function Snapshot(): AState reads this { AState(units, slots) }

    constructor (s: AState)
      requires |s.units| == GPRS
      ensures Valid() && Snapshot() == s
    {
      units, slots := s.units, s.slots;
    }

    method ReadReg(r: Reg) returns (v: Val)
      requires Valid() && ValidReg(r)
      ensures v == Read(Snapshot(), r)
    {
      match r
      case Frame(b) => v := Of(Exact(b, 0));
      case Gpr(n) =>
        v := units[n];
        if v.kind.Unset? { v := Of(Plain); }
    }

    method WriteReg(r: Reg, v: Val)
      requires Valid() && ValidReg(r)
      modifies this
      ensures Valid() && Snapshot() == Write(old(Snapshot()), r, v)
    {
      match r
      case Frame(_) =>
      case Gpr(n) => units := units[n := v];
    }

    method WriteDefs(rs: seq<Reg>, v: Val)
      requires Valid() && ValidRegs(rs)
      modifies this
      ensures Valid() && Snapshot() == WriteAll(old(Snapshot()), rs, v)
    {
      for i := 0 to |rs|
        invariant Valid() && Snapshot() == WriteAll(old(Snapshot()), rs[..i], v)
      {
        WriteReg(rs[i], v);
        assert rs[..i + 1][..i] == rs[..i];
      }
      assert rs[..|rs|] == rs;
    }

    method InvalidateBase(b: Base)
      requires Valid()
      modifies this
      ensures Valid() && Snapshot() == Invalidate(old(Snapshot()), b)
    {
      for i := 0 to |units|
        invariant |units| == |old(units)| && slots == old(slots)
        invariant forall k :: 0 <= k < |units| ==>
          units[k] == if k < i then Unbased(old(units)[k], b) else old(units)[k]
      {
        if units[i].kind.Exact? && units[i].kind.base == b { units := units[i := Of(Shifts)]; }
      }
      assert units == Invalidate(old(Snapshot()), b).units;
      for i := 0 to |slots|
        invariant |slots| == |old(slots)| && units == Invalidate(old(Snapshot()), b).units
        invariant forall k :: 0 <= k < |slots| ==>
          slots[k] == if k < i then Unbased(old(slots)[k], b) else old(slots)[k]
      {
        if slots[i].kind.Exact? && slots[i].kind.base == b { slots := slots[i := Of(Shifts)]; }
      }
      assert slots == Invalidate(old(Snapshot()), b).slots;
    }

    method InvalidateDefs(rs: seq<Reg>)
      requires Valid()
      modifies this
      ensures Valid() && Snapshot() == InvalidateAll(old(Snapshot()), rs)
    {
      for i := 0 to |rs|
        invariant Valid() && Snapshot() == InvalidateAll(old(Snapshot()), rs[..i])
      {
        assert rs[..i + 1][..i] == rs[..i];
        match rs[i]
        case Frame(b) => InvalidateBase(b);
        case Gpr(_) =>
      }
      assert rs[..|rs|] == rs;
    }

    method ForgetAlias(sl: nat)
      requires Valid()
      modifies this
      ensures Valid() && Snapshot() == Forget(old(Snapshot()), sl)
    {
      for i := 0 to |units|
        invariant |units| == |old(units)| && slots == old(slots)
        invariant forall k :: 0 <= k < |units| ==>
          units[k] == if k < i then Unaliased(old(units)[k], sl) else old(units)[k]
      {
        if units[i].alias == sl { units := units[i := units[i].(alias := NO_ALIAS)]; }
      }
      assert units == Forget(old(Snapshot()), sl).units;
      for i := 0 to |slots|
        invariant |slots| == |old(slots)| && units == Forget(old(Snapshot()), sl).units
        invariant forall k :: 0 <= k < |slots| ==>
          slots[k] == if k < i then Unaliased(old(slots)[k], sl) else old(slots)[k]
      {
        if slots[i].alias == sl { slots := slots[i := slots[i].(alias := NO_ALIAS)]; }
      }
      assert slots == Forget(old(Snapshot()), sl).slots;
    }

    method MarkCopies(id: nat, sl: nat)
      requires Valid()
      modifies this`units
      ensures Valid() && units == MapVals(old(units), u => Marked(u, id, sl))
    {
      for i := 0 to |units|
        invariant |units| == |old(units)|
        invariant forall k :: 0 <= k < |units| ==>
          units[k] == if k < i then Marked(old(units)[k], id, sl) else old(units)[k]
      {
        if units[i].copyId == id { units := units[i := units[i].(alias := sl)]; }
      }
      assert units == MapVals(old(units), u => Marked(u, id, sl));
    }

    method AnyFrameOperand(rs: seq<Reg>) returns (any: bool)
      requires Valid() && ValidRegs(rs)
      ensures any == AnyFrame(Snapshot(), rs)
    {
      for i := 0 to |rs|
        invariant forall k :: 0 <= k < i ==> !Read(Snapshot(), rs[k]).Frameish()
      {
        var v := ReadReg(rs[i]);
        if v.Frameish() { return true; }
      }
      return false;
    }

    method StoreSlot(sl: nat, src: Reg)
      requires Valid() && sl < |slots| && ValidReg(src)
      modifies this
      ensures Valid() && Snapshot() == StoreWhole(old(Snapshot()), sl, src)
    {
      var v := ReadReg(src);
      var id := v.copyId;
      ForgetAlias(sl);
      v := ReadReg(src);
      slots := slots[sl := v.(alias := NO_ALIAS)];
      if id == NO_COPY {
        WriteReg(src, v.(alias := sl));
      } else {
        MarkCopies(id, sl);
      }
    }

    method StorePartial(sl: nat, vals: seq<Reg>)
      requires Valid() && sl < |slots| && ValidRegs(vals)
      modifies this
      ensures Valid() && Snapshot() == StorePart(old(Snapshot()), sl, vals)
    {
      ForgetAlias(sl);
      var any := AnyFrameOperand(vals);
      slots := slots[sl := Of(if slots[sl].Frameish() || any then Tainted else Plain)];
    }

    method ComputeLea(base: Option<Reg>, scale: int, index: Option<Reg>, disp: int, plain: bool) returns (v: Val)
      requires Valid() && ValidOpt(base) && ValidOpt(index)
      ensures v == LeaValue(Snapshot(), base, scale, index, disp, plain)
    {
      var vb, vi := Of(Plain), Of(Plain);
      if base.Some? { vb := ReadReg(base.value); }
      if index.Some? { vi := ReadReg(index.value); }
      if !vb.Frameish() && !vi.Frameish() {
        v := Of(Plain);
      } else if !plain {
        v := Of(Tainted);
      } else if vb.kind.Exact? && index.None? {
        v := Of(Exact(vb.kind.base, vb.kind.off + disp));
      } else if (vb.Moves() && !vi.Frameish()) || (!vb.Frameish() && vi.Moves() && scale == 1) {
        v := Of(Shifts);
      } else if (vb.kind.Maybe? && !vi.Frameish()) || (!vb.Frameish() && vi.kind.Maybe? && scale == 1) {
        v := Of(Maybe);
      } else {
        v := Of(Tainted);
      }
    }

    method ComputeAdd(a: Reg, b: Source) returns (v: Val)
      requires Valid() && ValidReg(a) && ValidSource(b, |slots|)
      ensures v == AddValue(Read(Snapshot(), a), AddSource(Snapshot(), b))
    {
      var va := ReadReg(a);
      var vb := Of(Plain);
      match b {
        case FromReg(r) => vb := ReadReg(r);
        case FromSlot(sl) => if slots[sl].Frameish() { vb := slots[sl]; }
        case FromMemory =>
      }
      if !va.Frameish() && !vb.Frameish() {
        v := Of(Plain);
      } else if va.Frameish() && vb.Frameish() {
        v := Of(Tainted);
      } else {
        var p := if va.Frameish() then va else vb;
        v := Of(if p.Moves() then Shifts else if p.kind.Maybe? then Maybe else Tainted);
      }
    }

    method ComputeSub(a: Reg, b: Source, root: bool) returns (v: Val)
      requires Valid() && ValidReg(a) && ValidSource(b, |slots|)
      ensures v == SubValue(Read(Snapshot(), a), SubSource(Snapshot(), b), root)
    {
      var va := ReadReg(a);
      var vb := Of(Plain);
      match b {
        case FromReg(r) => vb := ReadReg(r);
        case FromSlot(sl) => vb := slots[sl];
        case FromMemory =>
      }
      if !va.Frameish() && !vb.Frameish() {
        v := Of(Plain);
      } else if va.Repairable() && (vb.Repairable() || root) {
        v := Of(Plain);
      } else {
        v := Of(Tainted);
      }
    }

    method ComputeCmov(a: Reg, b: Source) returns (v: Val)
      requires Valid() && ValidReg(a) && ValidSource(b, |slots|)
      ensures v == Join(Read(Snapshot(), a), CmovSource(Snapshot(), b))
    {
      var va := ReadReg(a);
      var vb := Of(Plain);
      match b {
        case FromReg(r) => vb := ReadReg(r);
        case FromSlot(sl) => if !slots[sl].kind.Unset? { vb := slots[sl]; }
        case FromMemory =>
      }
      v := Join(va, vb);
    }

    /** The value the instruction leaves in its definitions. */
    method Compute(i: Instr) returns (v: Val)
      requires Valid() && ValidInstr(i, |slots|) && !i.Call?
      ensures v == Value(Snapshot(), i)
    {
      v := Of(Plain);
      match i {
        case ImplicitDef(_) => v := Of(Unset);
        case Lea(_, b, sc, x, d, p) => v := ComputeLea(b, sc, x, d, p);
        case Mov(dst, src, id) =>
          v := ReadReg(src);
          if v.copyId == NO_COPY && src != dst { v := v.(copyId := id); }
        case AddImm(_, src, imm) =>
          v := ReadReg(src);
          if v.kind.Exact? {
            v := Of(Exact(v.kind.base, v.kind.off + imm));
          } else {
            if !v.Frameish() { v := Of(Plain); }
            if imm != 0 { v := v.(alias := NO_ALIAS, copyId := NO_COPY); }
          }
        case Add(_, a, b) => v := ComputeAdd(a, b);
        case Cmov(_, a, b) => v := ComputeCmov(a, b);
        case Sub(_, a, b, root) => v := ComputeSub(a, b, root);
        case Load(_, sl, id) =>
          v := slots[sl];
          if v.kind.Unset? { v := Of(Plain); }
          v := v.(alias := sl);
          if v.copyId == NO_COPY { v := v.(copyId := id); }
        case Store(_, _) =>
        case Other(_, vals, _, load, _, _) =>
          var any := AnyFrameOperand(vals);
          if any || (load.Some? && slots[load.value].Frameish()) { v := Of(Tainted); }
      }
    }

    /** One instruction, in the order the pass works: frame bases first, then
        the result, the slot writes and the definitions. */
    method Advance(i: Instr)
      requires Valid() && ValidInstr(i, |slots|)
      modifies this
      ensures Valid() && Snapshot() == Step(old(Snapshot()), i)
    {
      if i.Call? {
        AdvanceCall(i.clobbers, i.results);
        return;
      }
      InvalidateDefs(Defs(i));
      ghost var s0 := Snapshot();
      var v := Compute(i);
      if i.Mov? && StartsGroup(Snapshot(), i) { WriteReg(i.src, v); }
      assert Snapshot() == GroupSource(s0, i);
      if i.Store? {
        StoreSlot(i.slot, i.src);
      } else if i.Other? && i.store.Some? {
        StorePartial(i.store.value, i.vals);
      }
      WriteDefs(Defs(i), v);
    }

    method AdvanceCall(clobbers: seq<nat>, results: seq<nat>)
      requires Valid()
      requires (forall k :: 0 <= k < |clobbers| ==> clobbers[k] < GPRS) && forall k :: 0 <= k < |results| ==>
        results[k] < GPRS
      modifies this
      ensures Valid() && Snapshot() == StepCall(old(Snapshot()), clobbers, results)
    {
      for i := 0 to |clobbers|
        invariant |units| == GPRS && slots == old(slots)
        invariant forall n :: 0 <= n < GPRS ==> units[n] == if n in clobbers[..i] then Of(Unset) else old(units)[n]
      {
        units := units[clobbers[i] := Of(Unset)];
      }
      assert clobbers[..|clobbers|] == clobbers;
      for i := 0 to |results|
        invariant |units| == GPRS && slots == old(slots)
        invariant forall n :: 0 <= n < GPRS ==>
          units[n] == if n in results[..i] then Of(Plain) else if n in clobbers then Of(Unset) else old(units)[n]
      {
        units := units[results[i] := Of(Plain)];
      }
      assert results[..|results|] == results;
      assert units == StepCall(old(Snapshot()), clobbers, results).units;
    }
  }
}
