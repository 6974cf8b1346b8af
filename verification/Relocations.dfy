/** ELF relocations rewritten for the Go linker, which places every function and
    every data symbol on its own: each patched field still says what the ELF
    relocation says, wherever the linker puts things. */
module Relocations {
  import opened Options
  import opened LittleEndian

  /** A Go symbol: the linker keeps one table of names per ABI. */
  datatype Sym = Sym(name: string, internal: bool)

  type Placement = Sym -> int

  /** A symbol and an offset from it. */
  datatype Target = Target(sym: Sym, add: int) {
    function At(pl: Placement): int { pl(sym) + add }
  }

  /** A function of a text section. `entry` is the symbol C code uses for its
      start, when that is not the function's own. */
  datatype Fn = Fn(sym: Sym, off: nat, size: nat, entry: Option<Sym>) {
    predicate Holds(a: int) { off <= a < off + size }
  }

  datatype ElfSym =
    | Undefined(named: Sym)
    | InText(sec: nat, value: nat)
    | InData(sec: nat, value: nat)

  datatype ElfType = Pc32 | Plt32 | GotPcRel | Abs32 | Abs32S | Abs64 | Unknown

  datatype Rela = Rela(off: nat, typ: ElfType, sym: nat, add: int)

  datatype GoType = R_PCREL | R_CALL | R_ADDR

  datatype GoReloc = GoReloc(off: int, size: nat, typ: GoType, target: Target)

  /** `text` lists each section's functions by offset; ELF symbols count from 1.
      `named` are the global data symbols with a Go symbol of their own, `whole`
      the data sections copied as one symbol. */
  datatype Input = Input(syms: seq<ElfSym>, text: map<nat, seq<Fn>>, named: map<nat, Sym>, whole: map<nat, Sym>)

  predicate PcRel(t: ElfType) { t.Pc32? || t.Plt32? || t.GotPcRel? }

  // ----- addresses in text -----

  /** Functions are sorted and do not overlap. */
  ghost predicate Ordered(fs: seq<Fn>) { forall i, j :: 0 <= i < j < |fs| ==> fs[i].off + fs[i].size <= fs[j].off }

  predicate Start(x: Fn, a: int) { a == x.off && x.entry.Some? }

  function InFn(x: Fn, a: int): Target { if Start(x, a) then Target(x.entry.value, 0) else Target(x.sym, a - x.off) }

  /** Where the byte at section address `a` is to be found: in the function that
      holds it, else before the next function. */
  ghost predicate Stands(fs: seq<Fn>, a: int, t: Target) {
    || (exists i :: 0 <= i < |fs| && fs[i].Holds(a) && t == InFn(fs[i], a))
    || ((forall i :: 0 <= i < |fs| ==> !fs[i].Holds(a))
        && exists i :: 0 <= i < |fs| && FirstAfter(fs, a, i) && t == Target(fs[i].sym, a - fs[i].off))
  }

  /** Function i is the first that starts after `a`. */
  ghost predicate FirstAfter(fs: seq<Fn>, a: int, i: nat)
    requires i < |fs|
  {
    a < fs[i].off && forall j :: 0 <= j < i ==> fs[j].off <= a
  }

  lemma StandsOnce(fs: seq<Fn>, a: int, t: Target, u: Target)
    requires Ordered(fs) && Stands(fs, a, t) && Stands(fs, a, u)
    ensures t == u
  {
  }

  function Holder(fs: seq<Fn>, a: int): Option<Target> {
    if fs == [] then None else if fs[0].Holds(a) then Some(InFn(fs[0], a)) else Holder(fs[1..], a)
  }

  function Next(fs: seq<Fn>, a: int): Option<Target> {
    if fs == [] then None else if fs[0].off > a then Some(Target(fs[0].sym, a - fs[0].off)) else Next(fs[1..], a)
  }

  /** The first function that holds the byte, else the first that starts after it. */
  function TextTarget(fs: seq<Fn>, a: int): Option<Target> {
    if Holder(fs, a).Some? then Holder(fs, a) else Next(fs, a)
  }

  lemma {:induction false} HolderStands(fs: seq<Fn>, a: int) returns (i: nat)
    ensures Holder(fs, a).None? ==> forall j :: 0 <= j < |fs| ==> !fs[j].Holds(a)
    ensures Holder(fs, a).Some? ==> i < |fs| && fs[i].Holds(a) && Holder(fs, a).value == InFn(fs[i], a)
  {
    i := 0;
    if fs != [] && !fs[0].Holds(a) {
      i := HolderStands(fs[1..], a);
      assert forall j :: 0 < j < |fs| ==> fs[j] == fs[1..][j - 1];
      i := i + 1;
    }
  }

  lemma {:induction false} NextStands(fs: seq<Fn>, a: int) returns (i: nat)
    ensures Next(fs, a).None? ==> forall j :: 0 <= j < |fs| ==> fs[j].off <= a
    ensures Next(fs, a).Some? ==> i < |fs| && a < fs[i].off && Next(fs, a).value == Target(fs[i].sym, a - fs[i].off)
    ensures Next(fs, a).Some? ==> forall j :: 0 <= j < i ==> fs[j].off <= a
  {
    i := 0;
    if fs != [] && fs[0].off <= a {
      i := NextStands(fs[1..], a);
      assert forall j :: 0 < j < |fs| ==> fs[j] == fs[1..][j - 1];
      i := i + 1;
    }
  }

  /** It is where the byte stands, and there is none exactly when the byte stands nowhere. */
  lemma TextTargetStands(fs: seq<Fn>, a: int)
    ensures TextTarget(fs, a).Some? ==> Stands(fs, a, TextTarget(fs, a).value)
    ensures TextTarget(fs, a).None? ==> forall t :: !Stands(fs, a, t)
  {
    var i := HolderStands(fs, a);
    var j := NextStands(fs, a);
  }

  method ResolveText(fs: seq<Fn>, a: nat) returns (r: Option<Target>)
    ensures r == TextTarget(fs, a)
  {
    for i := 0 to |fs|
      invariant Holder(fs, a) == Holder(fs[i..], a)
    {
      if fs[i].off <= a < fs[i].off + fs[i].size { return Some(InFn(fs[i], a)); }
    }
    for i := 0 to |fs|
      invariant Next(fs, a) == Next(fs[i..], a)
    {
      if fs[i].off > a { return Some(Target(fs[i].sym, -(fs[i].off - a))); }
    }
    return None;
  }

  // ----- the target of a relocation -----

  /** The byte a relocation refers to, relative to its symbol: PC-relative x86
      fields count from their own end. */
  function Reach(r: Rela): int { r.add + if PcRel(r.typ) then 4 else 0 }

  /** `t` is where that byte will be. */
  ghost predicate Refers(inp: Input, r: Rela, t: Target) {
    && 0 < r.sym <= |inp.syms|
    && match inp.syms[r.sym - 1]
       case Undefined(named) => t == Target(named, Reach(r))
       case InText(sec, value) => sec in inp.text && value + Reach(r) >= 0 && Stands(inp.text[sec], value + Reach(r), t)
       case InData(sec, value) =>
         if r.sym - 1 in inp.named then t == Target(inp.named[r.sym - 1], Reach(r))
         else sec in inp.whole && t == Target(inp.whole[sec], value + Reach(r))
  }

  /** The target the converter finds. */
  function TargetOf(inp: Input, r: Rela): Option<Target> {
    if r.sym == 0 || r.sym > |inp.syms| then None
    else
      match inp.syms[r.sym - 1]
      case Undefined(named) => Some(Target(named, Reach(r)))
      case InText(sec, value) =>
        if value + Reach(r) < 0 || sec !in inp.text then None else TextTarget(inp.text[sec], value + Reach(r))
      case InData(sec, value) =>
        if r.sym - 1 in inp.named then Some(Target(inp.named[r.sym - 1], Reach(r)))
        else if sec in inp.whole then Some(Target(inp.whole[sec], value + Reach(r))) else None
  }

  /** It is what the relocation refers to, and there is none exactly when it
      refers to nothing. */
  lemma TargetRefers(inp: Input, r: Rela)
    ensures TargetOf(inp, r).Some? ==> Refers(inp, r, TargetOf(inp, r).value)
    ensures TargetOf(inp, r).None? ==> forall t :: !Refers(inp, r, t)
  {
    if 0 < r.sym <= |inp.syms| && inp.syms[r.sym - 1].InText? && inp.syms[r.sym - 1].sec in inp.text {
      TextTargetStands(inp.text[inp.syms[r.sym - 1].sec], inp.syms[r.sym - 1].value + Reach(r));
    }
  }

  method ResolveTarget(inp: Input, r: Rela) returns (t: Option<Target>)
    ensures t == TargetOf(inp, r)
  {
    var abs := r.add;
    if PcRel(r.typ) { abs := abs + 4; }
    if r.sym == 0 || r.sym - 1 >= |inp.syms| { return None; }
    match inp.syms[r.sym - 1] {
      case Undefined(named) => return Some(Target(named, abs));
      case InText(sec, value) =>
        var addr := value + abs;
        if addr < 0 || sec !in inp.text { return None; }
        t := ResolveText(inp.text[sec], addr);
      case InData(sec, value) =>
        if r.sym - 1 in inp.named { return Some(Target(inp.named[r.sym - 1], abs)); }
        if sec in inp.whole { return Some(Target(inp.whole[sec], value + abs)); }
        return None;
    }
  }

  // ----- fields -----

  /** What the Go linker writes: its PC-relative forms subtract the field's end. */
  function GoField(pl: Placement, g: GoReloc, at: int): int {
    match g.typ
    case R_ADDR => g.target.At(pl)
    case _ => g.target.At(pl) - (at + g.size)
  }

  /** What the ELF relocation asks for when the byte it refers to is at `byte`:
      S + A - P, with S + A the byte's address less the 4 of `Reach`; or S + A. */
  function ElfField(t: ElfType, byte: int, at: int): int { if PcRel(t) then byte - 4 - at else byte }

  /** The bytes of the field: R_X86_64_64 has eight, the others have four. */
  function ElfWidth(t: ElfType): nat { if t.Abs64? then 8 else 4 }

  /** The byte at address a after v was written at `at` in `width` bytes, modulo 256^width. */
  function Patched(mem: int -> int, at: int, width: nat, v: int, a: int): int {
    if at <= a < at + width then v / Pow256(a - at) % 256 else mem(a)
  }

  /** Whatever memory holds, applying g inside `host` writes the `width` bytes of v
      there, and no other byte. */
  ghost predicate Image(pl: Placement, g: GoReloc, host: Sym, width: nat, v: int) {
    var at := pl(host) + g.off;
    SameWrite(at, g.size, GoField(pl, g, at), width, v)
  }

  ghost predicate SameWrite(at: int, size: nat, u: int, width: nat, v: int) {
    forall mem: int -> int, a: int :: Patched(mem, at, size, u, a) == Patched(mem, at, width, v, a)
  }

  /** An image has the width of the field. */
  lemma ImageWidth(pl: Placement, g: GoReloc, host: Sym, width: nat, v: int)
    requires Image(pl, g, host, width, v)
    ensures g.size == width
  {
    var at := pl(host) + g.off;
    if g.size < width { OtherByte(pl, g, host, width, v, at + g.size, v / Pow256(g.size) % 256); }
    if width < g.size { OtherByte(pl, g, host, width, v, at + width, GoField(pl, g, at) / Pow256(width) % 256); }
  }

  /** A byte that only one of the two writes would have to be there before. */
  lemma OtherByte(pl: Placement, g: GoReloc, host: Sym, width: nat, v: int, a: int, w: int)
    requires Image(pl, g, host, width, v)
    ensures var at, mem := pl(host) + g.off, (b: int) => w + 1;
      Patched(mem, at, g.size, GoField(pl, g, at), a) == Patched(mem, at, width, v, a)
  {
  }

  function TextType(t: ElfType): Option<GoType> {
    match t
    case Pc32 => Some(R_PCREL)
    case Plt32 => Some(R_PCREL)
    case Abs32 => Some(R_ADDR)
    case Abs32S => Some(R_ADDR)
    case _ => None
  }

  function DataType(t: ElfType): Option<(GoType, nat)> {
    match t
    case Abs64 => Some((R_ADDR, 8))
    case Abs32 => Some((R_ADDR, 4))
    case Abs32S => Some((R_ADDR, 4))
    case Pc32 => Some((R_PCREL, 4))
    case Plt32 => Some((R_PCREL, 4))
    case _ => None
  }

  const INT32_MIN := -0x8000_0000
  const INT32_MAX := 0x7fff_ffff

  // ----- named functions: when the addend may not leave the function -----

  /** Symbols of functions and of their C entries are all different. */
  ghost predicate Unshared(fs: seq<Fn>) {
    && (forall i, j :: 0 <= i < j < |fs| ==> fs[i].sym != fs[j].sym)
    && (forall i, j :: 0 <= i < |fs| && 0 <= j < |fs| ==> fs[i].entry != Some(fs[j].sym))
  }

  /** Byte `a` of the section goes where function i goes. */
  ghost predicate Beside(fs: seq<Fn>, i: nat, a: int)
    requires i < |fs|
  {
    || (fs[i].Holds(a) && !Start(fs[i], a))
    || (a < fs[i].off && (forall j :: 0 <= j < i ==> fs[j].off + fs[j].size <= a))
  }

  /** A reference to a place in function i plus a distance keeps that distance
      under every placement exactly when it ends in the same function or in the
      padding right before it. */
  lemma DistanceKeptIff(fs: seq<Fn>, i: nat, value: nat, reach: int, t: Target)
    requires Ordered(fs) && Unshared(fs) && i < |fs| && Stands(fs, value + reach, t)
    ensures (forall pl: Placement :: t.At(pl) == pl(fs[i].sym) + (value - fs[i].off) + reach) <==>
      Beside(fs, i, value + reach)
  {
    var a, x := value + reach, fs[i].sym;
    if Beside(fs, i, a) {
      StandsBeside(fs, i, a, t);
    } else {
      StandsElsewhere(fs, i, a, t);
      var pl: Placement := (s: Sym) => if s == x then 1 - (value - fs[i].off) - reach + t.add else 0;
      assert t.At(pl) == t.add && pl(x) + (value - fs[i].off) + reach == t.add + 1;
    }
  }

  lemma StandsBeside(fs: seq<Fn>, i: nat, a: int, t: Target)
    requires Ordered(fs) && i < |fs| && Stands(fs, a, t) && Beside(fs, i, a)
    ensures t == Target(fs[i].sym, a - fs[i].off)
  {
    var u := Target(fs[i].sym, a - fs[i].off);
    assert Stands(fs, a, u);
    StandsOnce(fs, a, t, u);
  }

  /** Only what goes where function i goes is reached through its symbol. */
  lemma StandsElsewhere(fs: seq<Fn>, i: nat, a: int, t: Target)
    requires Ordered(fs) && Unshared(fs) && i < |fs| && Stands(fs, a, t)
    ensures t.sym == fs[i].sym ==> Beside(fs, i, a)
  {
    if k :| 0 <= k < |fs| && fs[k].Holds(a) && t == InFn(fs[k], a) {
      assert t.sym == fs[i].sym ==> k == i && !Start(fs[k], a);
    } else {
      var k :| 0 <= k < |fs| && FirstAfter(fs, a, k) && t == Target(fs[k].sym, a - fs[k].off);
      forall j | 0 <= j < k
        ensures fs[j].off + fs[j].size <= a
      {
        assert !fs[j].Holds(a);
      }
      assert t.sym == fs[i].sym ==> k == i;
    }
  }

  // ----- data -----

  /** A global's part of a data section, which lives in a symbol of its own. */
  datatype Range = Range(start: nat, end: nat, sym: Sym)

  /** The symbol that holds byte `off` of a section, and the offset in it. */
  function Host(rs: seq<Range>, section: Sym, off: int): Target {
    if rs == [] then Target(section, off)
    else if rs[0].start <= off < rs[0].end then Target(rs[0].sym, off - rs[0].start)
    else Host(rs[1..], section, off)
  }

  method FindHost(rs: seq<Range>, section: Sym, off: nat) returns (h: Target)
    ensures h == Host(rs, section, off)
  {
    for i := 0 to |rs|
      invariant Host(rs, section, off) == Host(rs[i..], section, off)
    {
      if rs[i].start <= off < rs[i].end { return Target(rs[i].sym, off - rs[i].start); }
    }
    return Target(section, off);
  }

  /** An ordinary data relocation is refused exactly if it refers to nothing or
      its type has no Go counterpart. */
  predicate DataRefused(inp: Input, r: Rela) {
    (r.sym != 0 && TargetOf(inp, r).None?) || r.typ.GotPcRel? || r.typ.Unknown?
  }

  /** The field of host `h` at g.off says for every placement what r asks for. */
  ghost predicate FieldRight(inp: Input, r: Rela, h: Target, g: GoReloc) {
    && g.off == h.add && TargetOf(inp, r).Some? && Refers(inp, r, TargetOf(inp, r).value)
    && forall pl: Placement ::
      Image(pl, g, h.sym, ElfWidth(r.typ), ElfField(r.typ, TargetOf(inp, r).value.At(pl), pl(h.sym) + g.off))
  }

  /** A field without a symbol: the addend is taken from the section's start, and
      PC-relative forms count from the field's end. */
  ghost predicate SectionRight(r: Rela, section: Sym, h: Target, g: GoReloc) {
    g.off == h.add && forall pl: Placement ::
      Image(pl, g, h.sym, ElfWidth(r.typ), pl(section) + r.add - if PcRel(r.typ) then pl(h.sym) + g.off + 4 else 0)
  }

  /** An ordinary relocation of a data section. One without a symbol is taken
      relative to the section. */
  method DataReloc(inp: Input, rs: seq<Range>, section: Sym, r: Rela) returns (host: Sym, g: Option<GoReloc>)
    ensures host == Host(rs, section, r.off).sym && (g.None? <==> DataRefused(inp, r))
    ensures g.Some? && r.sym != 0 ==> FieldRight(inp, r, Host(rs, section, r.off), g.value)
    ensures g.Some? && r.sym == 0 ==> SectionRight(r, section, Host(rs, section, r.off), g.value)
  {
    var h := FindHost(rs, section, r.off);
    host := h.sym;
    var t := Some(Target(section, r.add));
    if r.sym != 0 { t := ResolveTarget(inp, r); }
    if t.None? { return host, None; }
    var d := DataType(r.typ);
    if d.None? { return host, None; }
    g := Some(GoReloc(h.add, d.value.1, d.value.0, t.value));
    TargetRefers(inp, r);
  }

  // ----- jump tables -----

  /** The start of a jump table and the function whose code refers to it. */
  datatype Base = Base(off: nat, owner: Sym)

  ghost predicate Sorted(ts: seq<Base>) { forall i, j :: 0 <= i < j < |ts| ==> ts[i].off <= ts[j].off }

  /** The last table that starts at or before `off`. */
  method Locate(ts: seq<Base>, off: nat) returns (j: int)
    requires Sorted(ts)
    ensures -1 <= j < |ts| && (j >= 0 ==> ts[j].off <= off) && forall k :: j < k < |ts| ==> ts[k].off > off
  {
    var lo, hi := 0, |ts|;
    while lo < hi
      invariant 0 <= lo <= hi <= |ts|
      invariant (forall k :: 0 <= k < lo ==> ts[k].off <= off) && forall k :: hi <= k < |ts| ==> ts[k].off > off
    {
      var mid := (lo + hi) / 2;
      if ts[mid].off > off { hi := mid; } else { lo := mid + 1; }
    }
    return lo - 1;
  }

  /** The table an entry at `off` belongs to. */
  ghost predicate LastTable(ts: seq<Base>, off: nat, j: nat) {
    j < |ts| && ts[j].off <= off && forall k :: j < k < |ts| ==> ts[k].off > off
  }

  /** Adding the entry to the table's address gives the goal's, for every placement. */
  ghost predicate JumpsTo(g: GoReloc, host: Sym, table: Target, goal: Target) {
    forall pl: Placement :: Image(pl, g, host, 4, goal.At(pl) - table.At(pl))
  }

  /** Each global has a symbol of its own. */
  ghost predicate OwnSymbols(rs: seq<Range>, section: Sym) {
    && (forall i, j :: 0 <= i < j < |rs| ==> rs[i].sym != rs[j].sym)
    && forall i :: 0 <= i < |rs| ==> rs[i].sym != section
  }

  lemma {:induction false} HostIsOneOf(rs: seq<Range>, section: Sym, off: int)
    ensures var h := Host(rs, section, off).sym; h == section || exists i :: 0 <= i < |rs| && h == rs[i].sym
  {
    if rs != [] && !(rs[0].start <= off < rs[0].end) { HostIsOneOf(rs[1..], section, off); }
  }

  /** Two bytes with the same host keep their distance. */
  lemma {:induction false} HostKeepsDistance(rs: seq<Range>, section: Sym, a: int, b: int)
    requires OwnSymbols(rs, section) && Host(rs, section, a).sym == Host(rs, section, b).sym
    ensures Host(rs, section, a).add - a == Host(rs, section, b).add - b
  {
    if rs != [] {
      var ina, inb := rs[0].start <= a < rs[0].end, rs[0].start <= b < rs[0].end;
      if !ina && !inb { HostKeepsDistance(rs[1..], section, a, b); }
      else if ina && !inb { HostIsOneOf(rs[1..], section, b); }
      else if !ina { HostIsOneOf(rs[1..], section, a); }
    }
  }

  predicate CaseRefused(fs: seq<Fn>, a: int, owner: Sym) {
    a < 0 || TextTarget(fs, a).None? || TextTarget(fs, a).value.sym != owner
  }

  /** An entry is refused exactly if no table starts at or before it, or its case
      is not in the function that owns the table. */
  ghost predicate EntryRefused(fs: seq<Fn>, value: nat, r: Rela, ts: seq<Base>) {
    forall j: nat :: LastTable(ts, r.off, j) ==> CaseRefused(fs, value + r.add - (r.off - ts[j].off), ts[j].owner)
  }

  /** Entry g of the table that r belongs to: it keeps working wherever function
      and data go -- if table and entry are in one data symbol, and (the code
      being another symbol) only then. */
  ghost predicate EntryRight(fs: seq<Fn>, value: nat, rs: seq<Range>, section: Sym, r: Rela, ts: seq<Base>,
      g: GoReloc) {
    exists j: nat :: LastTable(ts, r.off, j) && GoalReached(fs, value, rs, section, r, ts, g, j)
  }

  ghost predicate GoalReached(fs: seq<Fn>, value: nat, rs: seq<Range>, section: Sym, r: Rela, ts: seq<Base>,
      g: GoReloc, j: nat)
    requires j < |ts|
  {
    var goal, h, table := TextTarget(fs, value + r.add - (r.off - ts[j].off)), Host(rs, section, r.off),
      Host(rs, section, ts[j].off);
    && g.off == h.add && goal.Some? && goal.value.sym == ts[j].owner
    && (h.sym != goal.value.sym ==> (JumpsTo(g, h.sym, table, goal.value) <==> table.sym == h.sym))
  }

  /** An entry of a jump table: a PC-relative field against text whose addend is
      the case plus the field's distance from the table. */
  method TableEntry(fs: seq<Fn>, value: nat, rs: seq<Range>, section: Sym, r: Rela, ts: seq<Base>)
      returns (host: Sym, g: Option<GoReloc>)
    requires Sorted(ts) && OwnSymbols(rs, section)
    ensures host == Host(rs, section, r.off).sym && (g.None? <==> EntryRefused(fs, value, r, ts))
    ensures g.Some? ==> EntryRight(fs, value, rs, section, r, ts, g.value)
  {
    var h := FindHost(rs, section, r.off);
    host := h.sym;
    g := None;
    var n := Locate(ts, r.off);
    if n < 0 {
      assert forall j: nat :: !LastTable(ts, r.off, j);
      return;
    }
    assert LastTable(ts, r.off, n) && forall j: nat :: LastTable(ts, r.off, j) ==> j == n;
    var idx := r.off - ts[n].off;
    var actual := value + r.add - idx;
    if actual < 0 { return; }
    var t := ResolveText(fs, actual);
    if t.None? || t.value.sym != ts[n].owner { return; }
    g := Some(GoReloc(h.add, 4, R_PCREL, Target(t.value.sym, t.value.add + idx + 4)));
    ghost var table, goal := Host(rs, section, ts[n].off), t.value;
    if table.sym == host { HostKeepsDistance(rs, section, ts[n].off, r.off); }
    else if host != goal.sym { NotSameHost(g.value, host, table, goal); }
    assert GoalReached(fs, value, rs, section, r, ts, g.value, n);
  }

  lemma NotSameHost(g: GoReloc, host: Sym, table: Target, goal: Target)
    requires g.typ == R_PCREL && table.sym != host && host != goal.sym && g.target.sym == goal.sym
    ensures !JumpsTo(g, host, table, goal)
  {
    var there: Placement := (s: Sym) => 0;
    var moved: Placement := (s: Sym) => if s == host then 1 else 0;
    assert GoField(there, g, there(host) + g.off) == GoField(moved, g, moved(host) + g.off) + 1;
    assert table.At(there) == table.At(moved) && goal.At(there) == goal.At(moved);
    if JumpsTo(g, host, table, goal) {
      LowByte(there, g, host, goal.At(there) - table.At(there));
      LowByte(moved, g, host, goal.At(moved) - table.At(moved));
    }
  }

  lemma LowByte(pl: Placement, g: GoReloc, host: Sym, v: int)
    requires Image(pl, g, host, 4, v)
    ensures GoField(pl, g, pl(host) + g.off) % 256 == v % 256
  {
    ImageWidth(pl, g, host, 4, v);
    var at, mem := pl(host) + g.off, (b: int) => 0;
    assert Patched(mem, at, g.size, GoField(pl, g, at), at) == Patched(mem, at, 4, v, at);
    assert Pow256(0) == 1;
  }

  // ----- a data section -----

  /** A PC-relative word against text is an entry of a jump table. */
  predicate IsEntry(inp: Input, r: Rela) { r.typ.Pc32? && 0 < r.sym <= |inp.syms| && inp.syms[r.sym - 1].InText? }

  function TextOf(inp: Input, sec: nat): seq<Fn> { if sec in inp.text then inp.text[sec] else [] }

  ghost predicate Refused(inp: Input, ts: seq<Base>, r: Rela) {
    if IsEntry(inp, r) then
      EntryRefused(TextOf(inp, inp.syms[r.sym - 1].sec), inp.syms[r.sym - 1].value, r, ts)
    else DataRefused(inp, r)
  }

  ghost predicate Right(inp: Input, ranges: seq<Range>, section: Sym, ts: seq<Base>, r: Rela, host: Sym, g: GoReloc) {
    && host == Host(ranges, section, r.off).sym
    && if IsEntry(inp, r) then
         EntryRight(TextOf(inp, inp.syms[r.sym - 1].sec), inp.syms[r.sym - 1].value, ranges, section, r, ts, g)
       else if r.sym == 0 then SectionRight(r, section, Host(ranges, section, r.off), g)
       else FieldRight(inp, r, Host(ranges, section, r.off), g)
  }

  /** The relocations of a data section: one for each, in order, or none at all
      exactly if one of them is refused. */
  method DataRelocs(inp: Input, ranges: seq<Range>, section: Sym, ts: seq<Base>, rs: seq<Rela>)
      returns (out: Option<seq<(Sym, GoReloc)>>)
    requires Sorted(ts) && OwnSymbols(ranges, section)
    ensures out.None? <==> exists k :: 0 <= k < |rs| && Refused(inp, ts, rs[k])
    ensures out.Some? ==> |out.value| == |rs|
    ensures out.Some? ==>
      forall k :: 0 <= k < |rs| ==> Right(inp, ranges, section, ts, rs[k], out.value[k].0, out.value[k].1)
  {
    hide EntryRefused, EntryRight, FieldRight, DataRefused, Host;
    var gs: seq<(Sym, GoReloc)> := [];
    for n := 0 to |rs|
      invariant |gs| == n && forall k :: 0 <= k < n ==>
        !Refused(inp, ts, rs[k]) && Right(inp, ranges, section, ts, rs[k], gs[k].0, gs[k].1)
    {
      var r, host, g := rs[n], section, None;
      if IsEntry(inp, r) {
        var es := inp.syms[r.sym - 1];
        host, g := TableEntry(TextOf(inp, es.sec), es.value, ranges, section, r, ts);
      } else {
        host, g := DataReloc(inp, ranges, section, r);
      }
      if g.None? {
        assert Refused(inp, ts, rs[n]);
        return None;
      }
      gs := gs + [(host, g.value)];
    }
    return Some(gs);
  }
}
