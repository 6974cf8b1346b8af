/** The relocations of text sections. Each function gets one Go relocation for
    every ELF relocation it holds; references through a global offset table go
    through data words made for the purpose. */
module RelocText {
  import opened Options
  import opened Relocations

  // ----- words that stand in for a global offset table -----

  predicate Kept(c: char) { c == '_' || c == '.' || c == '$' || 'a' <= c <= 'z' || 'A' <= c <= 'Z' || '0' <= c <= '9' }

  function Sanitized(s: string): string { seq(|s|, i requires 0 <= i < |s| => if Kept(s[i]) then s[i] else '_') }

  /** The word for a target is named after the target's symbol alone ... */
  function WordFor(prefix: string, t: Target): Sym { Sym(prefix + Sanitized(t.sym.name), false) }

  /** ... but found again by name and addend, whatever the ABI. */
  function Key(t: Target): (string, int) { (t.sym.name, t.add) }

  /** The first reference of the same name and addend. */
  function First(ts: seq<Target>, k: nat): (j: nat)
    requires k < |ts|
    ensures j <= k && Key(ts[j]) == Key(ts[k]) && forall i :: 0 <= i < j ==> Key(ts[i]) != Key(ts[k])
  {
    FirstFrom(ts, k, 0)
  }

  function FirstFrom(ts: seq<Target>, k: nat, i: nat): (j: nat)
    requires i <= k < |ts| && forall h :: 0 <= h < i ==> Key(ts[h]) != Key(ts[k])
    ensures i <= j <= k && Key(ts[j]) == Key(ts[k]) && forall h :: 0 <= h < j ==> Key(ts[h]) != Key(ts[k])
    decreases k - i
  {
    if Key(ts[i]) == Key(ts[k]) then i else FirstFrom(ts, k, i + 1)
  }

  lemma FirstIsFirst(ts: seq<Target>, j: nat, k: nat)
    requires j < |ts| && k < |ts| && Key(ts[j]) == Key(ts[k])
    ensures First(ts, j) == First(ts, k)
  {
  }

  /** The references cannot all get a word: the name of one is taken, or two that
      need words of their own would give them the same name. */
  ghost predicate Clash(prefix: string, taken: set<Sym>, ts: seq<Target>) {
    || (exists k :: 0 <= k < |ts| && WordFor(prefix, ts[k]) in taken)
    || exists j, k :: 0 <= j < k < |ts| && Key(ts[j]) != Key(ts[k]) && WordFor(prefix, ts[j]) == WordFor(prefix, ts[k])
  }

  /** A word that the linker fills with an address. */
  function AddressOf(t: Target): GoReloc { GoReloc(0, 8, R_ADDR, t) }

  /** All its eight bytes, and nothing else. */
  lemma AddressHeld(word: Sym, t: Target, pl: Placement)
    ensures Image(pl, AddressOf(t), word, 8, t.At(pl))
  {
  }

  /** The word of reference k, holding the first target of its name and addend. */
  ghost predicate Served(prefix: string, ts: seq<Target>, k: nat, words: map<Sym, GoReloc>)
    requires k < |ts|
  {
    WordFor(prefix, ts[k]) in words && words[WordFor(prefix, ts[k])] == AddressOf(ts[First(ts, k)])
  }

  /** The slots are those of the references' keys. */
  ghost predicate Named(prefix: string, ts: seq<Target>, slots: map<(string, int), Sym>) {
    && (forall k :: 0 <= k < |ts| ==> Key(ts[k]) in slots && slots[Key(ts[k])] == WordFor(prefix, ts[k]))
    && forall key :: key in slots ==> exists k :: 0 <= k < |ts| && Key(ts[k]) == key
  }

  ghost predicate Asked(prefix: string, ts: seq<Target>, ws: set<Sym>) {
    forall w :: w in ws ==> exists k :: 0 <= k < |ts| && WordFor(prefix, ts[k]) == w
  }

  lemma NamedMore(prefix: string, ts: seq<Target>, slots: map<(string, int), Sym>, t: Target)
    requires Named(prefix, ts, slots) && (Key(t) in slots ==> slots[Key(t)] == WordFor(prefix, t))
    ensures Named(prefix, ts + [t], slots[Key(t) := WordFor(prefix, t)])
  {
    hide WordFor, Key;
    var now, more := ts + [t], slots[Key(t) := WordFor(prefix, t)];
    assert now[|ts|] == t;
    forall key | key in more
      ensures exists k :: 0 <= k < |now| && Key(now[k]) == key
    {
      if key in slots {
        var k :| 0 <= k < |ts| && Key(ts[k]) == key;
        assert now[k] == ts[k];
      }
    }
  }

  lemma AskedMore(prefix: string, ts: seq<Target>, ws: set<Sym>, t: Target)
    requires Asked(prefix, ts, ws)
    ensures Asked(prefix, ts + [t], ws) && Asked(prefix, ts + [t], ws + {WordFor(prefix, t)})
  {
    hide WordFor;
    var now := ts + [t];
    assert now[|ts|] == t;
    forall w | w in ws
      ensures exists k :: 0 <= k < |now| && WordFor(prefix, now[k]) == w
    {
      var k :| 0 <= k < |ts| && WordFor(prefix, ts[k]) == w;
      assert now[k] == ts[k];
    }
  }

  class Got {
    const prefix: string
    ghost const taken: set<Sym>
    ghost var asked: seq<Target>
    var slots: map<(string, int), Sym>
    var words: map<Sym, GoReloc>
    var declared: set<Sym>

    ghost predicate Valid() reads this {
      && !Clash(prefix, taken, asked)
      && declared == taken + words.Keys
      && (forall k :: 0 <= k < |asked| ==> Served(prefix, asked, k, words))
      && Named(prefix, asked, slots) && Asked(prefix, asked, words.Keys)
    }

    constructor (prefix: string, declared: set<Sym>)
      ensures Valid() && this.prefix == prefix && taken == declared && asked == []
    {
      this.prefix, this.declared, taken := prefix, declared, declared;
      slots, words, asked := map[], map[], [];
    }

    /** The word for a target: the known one, or a new word that holds its address. */
    method Slot(t: Target) returns (s: Option<Sym>)
      requires Valid()
      modifies this
      ensures Valid()
      ensures s.None? <==> Clash(prefix, taken, old(asked) + [t])
      ensures s.Some? ==> s.value == WordFor(prefix, t) && asked == old(asked) + [t]
    {
      hide Sanitized, WordFor, Clash, Served, Asked;
      var key, word := Key(t), WordFor(prefix, t);
      AskedMore(prefix, asked, words.Keys, t);
      if key in slots {
        KnownWord(prefix, taken, asked, t, words);
        NamedMore(prefix, asked, slots, t);
        assert slots[key := word] == slots;
        asked := asked + [t];
        return Some(slots[key]);
      }
      if word in declared {
        TakenWord(prefix, taken, asked, t, words.Keys);
        return None;
      }
      NewWord(prefix, taken, asked, t, words);
      NamedMore(prefix, asked, slots, t);
      declared := declared + {word};
      assert words[word := AddressOf(t)].Keys == words.Keys + {word};
      words := words[word := AddressOf(t)];
      slots := slots[key := word];
      asked := asked + [t];
      return Some(word);
    }
  }

  lemma FirstMore(ts: seq<Target>, t: Target, k: nat)
    requires k < |ts|
    ensures First(ts + [t], k) == First(ts, k)
  {
    var now := ts + [t];
    assert forall i :: 0 <= i < |ts| ==> now[i] == ts[i];
  }

  lemma KnownWord(prefix: string, taken: set<Sym>, ts: seq<Target>, t: Target, words: map<Sym, GoReloc>)
    requires !Clash(prefix, taken, ts) && exists k :: 0 <= k < |ts| && Key(ts[k]) == Key(t)
    requires forall k :: 0 <= k < |ts| ==> Served(prefix, ts, k, words)
    ensures !Clash(prefix, taken, ts + [t])
    ensures forall k :: 0 <= k < |ts + [t]| ==> Served(prefix, ts + [t], k, words)
    ensures forall k :: 0 <= k < |ts| && Key(ts[k]) == Key(t) ==> WordFor(prefix, ts[k]) == WordFor(prefix, t)
  {
    var now := ts + [t];
    var j :| 0 <= j < |ts| && Key(ts[j]) == Key(t);
    assert WordFor(prefix, ts[j]) == WordFor(prefix, t);
    hide WordFor, Key, First;
    forall k | 0 <= k < |now|
      ensures Served(prefix, now, k, words)
    {
      var h := if k < |ts| then k else j;
      assert Served(prefix, ts, h, words);
      FirstMore(ts, t, h);
      FirstIsFirst(now, h, k);
    }
  }

  lemma NewWord(prefix: string, taken: set<Sym>, ts: seq<Target>, t: Target, words: map<Sym, GoReloc>)
    requires !Clash(prefix, taken, ts) && forall k :: 0 <= k < |ts| ==> Key(ts[k]) != Key(t)
    requires WordFor(prefix, t) !in taken && WordFor(prefix, t) !in words
    requires forall k :: 0 <= k < |ts| ==> Served(prefix, ts, k, words)
    ensures !Clash(prefix, taken, ts + [t])
    ensures var now, more := ts + [t], words[WordFor(prefix, t) := AddressOf(t)];
      forall k :: 0 <= k < |now| ==> Served(prefix, now, k, more)
  {
    var now := ts + [t];
    hide WordFor, Key;
    forall k | 0 <= k < |ts|
      ensures Served(prefix, now, k, words[WordFor(prefix, t) := AddressOf(t)])
        && WordFor(prefix, ts[k]) != WordFor(prefix, t)
    {
      assert Served(prefix, ts, k, words);
      FirstMore(ts, t, k);
    }
    assert First(now, |ts|) == |ts|;
  }

  lemma TakenWord(prefix: string, taken: set<Sym>, ts: seq<Target>, t: Target, ws: set<Sym>)
    requires (forall k :: 0 <= k < |ts| ==> Key(ts[k]) != Key(t)) && Asked(prefix, ts, ws)
    requires WordFor(prefix, t) in taken + ws
    ensures Clash(prefix, taken, ts + [t])
  {
    var now := ts + [t];
    assert now[|ts|] == t;
    if WordFor(prefix, t) !in taken {
      var k :| 0 <= k < |ts| && WordFor(prefix, ts[k]) == WordFor(prefix, t);
      assert now[k] == ts[k];
    }
  }

  lemma ClashGrows(prefix: string, taken: set<Sym>, ts: seq<Target>, more: seq<Target>)
    requires Clash(prefix, taken, ts) && ts <= more
    ensures Clash(prefix, taken, more)
  {
    if k :| 0 <= k < |ts| && WordFor(prefix, ts[k]) in taken {
      assert more[k] == ts[k];
    } else {
      var j, k :| 0 <= j < k < |ts| && Key(ts[j]) != Key(ts[k]) && WordFor(prefix, ts[j]) == WordFor(prefix, ts[k]);
      assert more[j] == ts[j] && more[k] == ts[k];
    }
  }

  // ----- which GOT references reach their own target -----

  /** No two references agree in name and addend and differ in ABI. */
  ghost predicate OneAbi(ts: seq<Target>) {
    forall j, k :: 0 <= j < |ts| && 0 <= k < |ts| && Key(ts[j]) == Key(ts[k]) ==>
      ts[j].sym.internal == ts[k].sym.internal
  }

  /** Exactly then every reference gets its own target. */
  lemma OwnTargetIff(ts: seq<Target>)
    ensures (forall k :: 0 <= k < |ts| ==> ts[First(ts, k)] == ts[k]) <==> OneAbi(ts)
  {
    if forall k :: 0 <= k < |ts| ==> ts[First(ts, k)] == ts[k] {
      forall j, k | 0 <= j < |ts| && 0 <= k < |ts| && Key(ts[j]) == Key(ts[k])
        ensures ts[j].sym.internal == ts[k].sym.internal
      {
        FirstIsFirst(ts, j, k);
      }
    }
  }

  /** Two ABIs of one function: the second reference gets the first one's word. */
  lemma SharedSlot(name: string)
    ensures var ts := [Target(Sym(name, true), 0), Target(Sym(name, false), 0)]; ts[First(ts, 1)] == ts[0] != ts[1]
  {
  }

  /** Two addends on one symbol cannot be translated: both words would bear one name. */
  lemma TwoAddendsClash(prefix: string, taken: set<Sym>, s: Sym, a: int, b: int)
    ensures Clash(prefix, taken, [Target(s, a), Target(s, b)]) <==> WordFor(prefix, Target(s, 0)) in taken || a != b
  {
    var ts := [Target(s, a), Target(s, b)];
    assert WordFor(prefix, ts[0]) == WordFor(prefix, ts[1]) == WordFor(prefix, Target(s, 0));
  }

  /** The word in a slot is the symbol's own address exactly when the relocation
      carries the usual addend; ELF applies any other to the slot instead. */
  lemma GotAddend(inp: Input, r: Rela, t: Target, pl: Placement)
    requires r.typ.GotPcRel? && Refers(inp, r, t) && inp.syms[r.sym - 1].Undefined?
    ensures t.At(pl) == pl(inp.syms[r.sym - 1].named) <==> r.add == -4
  {
  }

  // ----- one relocation -----

  /** The relocation `g` of function x does for every placement what `r` asks
      for, if the byte referred to is at `t`. */
  ghost predicate Faithful(x: Fn, r: Rela, t: Target, g: GoReloc) {
    g.off == r.off - x.off && forall pl: Placement ::
      Image(pl, g, x.sym, ElfWidth(r.typ), ElfField(r.typ, t.At(pl), pl(x.sym) + g.off))
  }

  /** A load through the field reads the slot's own address. */
  ghost predicate Through(x: Fn, r: Rela, slot: Sym, g: GoReloc) {
    g.off == r.off - x.off && forall pl: Placement :: Image(pl, g, x.sym, 4, pl(slot) - (pl(x.sym) + g.off + 4))
  }

  /** A function and the offsets at which the tables list a call. */
  datatype Code = Code(x: Fn, calls: set<nat>) {
    predicate Calls(r: Rela) { r.off >= x.off && r.off - x.off in calls }
  }

  /** A relocation that has no Go counterpart whatever words there are: it refers
      to nothing, is of an unknown type, calls into the middle of a symbol, or
      has a wide addend. */
  predicate Bad(inp: Input, c: Code, r: Rela) {
    var t := TargetOf(inp, r);
    || t.None?
    || r.typ.Abs64? || r.typ.Unknown?
    || ((r.typ.Pc32? || r.typ.Plt32?) && c.Calls(r) && t.value.add != 0)
    || !(INT32_MIN <= r.add <= INT32_MAX)
  }

  /** g is the Go counterpart of r. */
  ghost predicate Right(inp: Input, prefix: string, c: Code, r: Rela, g: GoReloc) {
    var t := TargetOf(inp, r);
    && t.Some? && Refers(inp, r, t.value)
    && (g.typ.R_CALL? <==> PcRel(r.typ) && c.Calls(r))
    && if r.typ.GotPcRel? then g.target.sym == WordFor(prefix, t.value) && Through(c.x, r, g.target.sym, g)
       else Faithful(c.x, r, t.value, g)
  }

  /** The targets of the references through the table, in order. */
  function Targets(inp: Input, rs: seq<Rela>): seq<Target> {
    if rs == [] then []
    else Targets(inp, rs[..|rs| - 1]) + GotTarget(inp, rs[|rs| - 1])
  }

  function GotTarget(inp: Input, r: Rela): seq<Target> {
    if r.typ.GotPcRel? && TargetOf(inp, r).Some? then [TargetOf(inp, r).value] else []
  }

  method TextReloc(inp: Input, c: Code, r: Rela, got: Got) returns (g: Option<GoReloc>)
    requires got.Valid()
    modifies got
    ensures got.Valid()
    ensures g.None? <==> Bad(inp, c, r) || Clash(got.prefix, got.taken, old(got.asked) + GotTarget(inp, r))
    ensures g.Some? ==> Right(inp, got.prefix, c, r, g.value) && got.asked == old(got.asked) + GotTarget(inp, r)
  {
    assert !Clash(got.prefix, got.taken, got.asked) && got.asked + [] == got.asked;
    hide Got.Valid, Refers, Clash;
    var t := ResolveTarget(inp, r);
    if t.None? { return None; }
    TargetRefers(inp, r);
    var target, typ := t.value, r.typ;
    if r.typ.GotPcRel? {
      var slot := got.Slot(target);
      if slot.None? { return None; }
      target, typ := Target(slot.value, 0), Pc32;
    }
    var go := TextType(typ);
    if go.None? { return None; }
    var kind := go.value;
    if (typ.Plt32? || typ.Pc32?) && c.Calls(r) {
      kind := R_CALL;
      if target.add != 0 { return None; }
    }
    if r.add < INT32_MIN || r.add > INT32_MAX { return None; }
    g := Some(GoReloc(r.off - c.x.off, 4, kind, target));
  }

  // ----- all text sections -----

  /** A text section: its functions and its relocations. */
  datatype Section = Section(fns: seq<Code>, relas: seq<Rela>)

  /** A function and the relocations of its section that lie in it. */
  datatype Unit = Unit(code: Code, rs: seq<Rela>)

  function Held(x: Fn, rs: seq<Rela>): seq<Rela> {
    if rs == [] then []
    else Held(x, rs[..|rs| - 1]) + if x.Holds(rs[|rs| - 1].off) then [rs[|rs| - 1]] else []
  }

  function UnitsOf(s: Section): seq<Unit> {
    seq(|s.fns|, i requires 0 <= i < |s.fns| => Unit(s.fns[i], Held(s.fns[i].x, s.relas)))
  }

  function Units(ss: seq<Section>): seq<Unit> {
    if ss == [] then [] else Units(ss[..|ss| - 1]) + UnitsOf(ss[|ss| - 1])
  }

  function AllTargets(inp: Input, us: seq<Unit>): seq<Target> {
    if us == [] then [] else AllTargets(inp, us[..|us| - 1]) + Targets(inp, us[|us| - 1].rs)
  }

  /** One Go relocation for each relocation of the function, in order. */
  ghost predicate UnitRight(inp: Input, prefix: string, u: Unit, gs: seq<GoReloc>) {
    |gs| == |u.rs| && forall k :: 0 <= k < |gs| ==> Right(inp, prefix, u.code, u.rs[k], gs[k])
  }

  ghost predicate UnitBad(inp: Input, u: Unit) { exists k :: 0 <= k < |u.rs| && Bad(inp, u.code, u.rs[k]) }

  ghost predicate AllRight(inp: Input, prefix: string, us: seq<Unit>, out: seq<seq<GoReloc>>) {
    |out| == |us| && forall n :: 0 <= n < |out| ==> UnitRight(inp, prefix, us[n], out[n])
  }

  ghost predicate AnyBad(inp: Input, us: seq<Unit>) { exists n :: 0 <= n < |us| && UnitBad(inp, us[n]) }

  lemma {:induction false} HeldGrows(x: Fn, rs: seq<Rela>, n: nat)
    requires n <= |rs|
    ensures Held(x, rs[..n]) <= Held(x, rs)
    decreases |rs|
  {
    if n < |rs| {
      HeldGrows(x, rs[..|rs| - 1], n);
      assert rs[..|rs| - 1][..n] == rs[..n];
    } else {
      assert rs[..n] == rs;
    }
  }

  lemma {:induction false} TargetsGrow(inp: Input, rs: seq<Rela>, more: seq<Rela>)
    requires rs <= more
    ensures Targets(inp, rs) <= Targets(inp, more)
    decreases |more|
  {
    if rs != more { TargetsGrow(inp, rs, more[..|more| - 1]); }
  }

  lemma {:induction false} AllTargetsGrow(inp: Input, us: seq<Unit>, more: seq<Unit>)
    requires us <= more
    ensures AllTargets(inp, us) <= AllTargets(inp, more)
    decreases |more|
  {
    if us != more { AllTargetsGrow(inp, us, more[..|more| - 1]); }
  }

  lemma HeldNext(x: Fn, rs: seq<Rela>, n: nat)
    requires n < |rs|
    ensures Held(x, rs[..n + 1]) == Held(x, rs[..n]) + if x.Holds(rs[n].off) then [rs[n]] else []
  {
    assert rs[..n + 1][..n] == rs[..n];
  }

  /** A relocation in the function comes after those before it. */
  lemma HeldHere(x: Fn, rs: seq<Rela>, n: nat, h: nat)
    requires n < |rs| && x.Holds(rs[n].off) && h == |Held(x, rs[..n])|
    ensures h < |Held(x, rs)| && Held(x, rs)[h] == rs[n] && |Held(x, rs[..n + 1])| == h + 1
  {
    HeldNext(x, rs, n);
    HeldGrows(x, rs, n + 1);
  }

  lemma TargetsTo(inp: Input, rs: seq<Rela>, k: nat)
    requires k < |rs|
    ensures Targets(inp, rs[..k + 1]) == Targets(inp, rs[..k]) + GotTarget(inp, rs[k])
  {
    assert rs[..k] + [rs[k]] == rs[..k + 1];
    TargetsNext(inp, rs[..k], rs[k]);
  }

  lemma TargetsNext(inp: Input, rs: seq<Rela>, r: Rela)
    ensures Targets(inp, rs + [r]) == Targets(inp, rs) + GotTarget(inp, r)
  {
    assert (rs + [r])[..|rs|] == rs;
  }

  lemma AllTargetsNext(inp: Input, us: seq<Unit>, u: Unit)
    ensures AllTargets(inp, us + [u]) == AllTargets(inp, us) + Targets(inp, u.rs)
  {
    assert (us + [u])[..|us|] == us;
  }

  /** A function's relocations, when `asked` are the references before it: none
      exactly if one of them is bad or there cannot be words for all. */
  ghost predicate FnDone(inp: Input, prefix: string, taken: set<Sym>, asked: seq<Target>, u: Unit,
      out: Option<seq<GoReloc>>) {
    && (out.None? <==> UnitBad(inp, u) || Clash(prefix, taken, asked + Targets(inp, u.rs)))
    && (out.Some? ==> UnitRight(inp, prefix, u, out.value))
  }

  lemma RelocRefused(inp: Input, prefix: string, taken: set<Sym>, asked: seq<Target>, u: Unit, n: nat)
    requires n < |u.rs|
    requires Bad(inp, u.code, u.rs[n])
      || Clash(prefix, taken, asked + Targets(inp, u.rs[..n]) + GotTarget(inp, u.rs[n]))
    ensures FnDone(inp, prefix, taken, asked, u, None)
  {
    hide Clash, GotTarget, Bad, Targets;
    if !Bad(inp, u.code, u.rs[n]) {
      TargetsNext(inp, u.rs[..n], u.rs[n]);
      assert u.rs[..n] + [u.rs[n]] == u.rs[..n + 1];
      TargetsGrow(inp, u.rs[..n + 1], u.rs);
      ClashGrows(prefix, taken, asked + Targets(inp, u.rs[..n]) + GotTarget(inp, u.rs[n]), asked + Targets(inp, u.rs));
    }
  }

  lemma UnitRefused(inp: Input, prefix: string, taken: set<Sym>, us: seq<Unit>, n: nat)
    requires n < |us|
    requires UnitBad(inp, us[n]) || Clash(prefix, taken, AllTargets(inp, us[..n]) + Targets(inp, us[n].rs))
    ensures AnyBad(inp, us) || Clash(prefix, taken, AllTargets(inp, us))
  {
    hide Clash, UnitBad, AllTargets, Targets;
    if !UnitBad(inp, us[n]) {
      AllTargetsNext(inp, us[..n], us[n]);
      assert us[..n] + [us[n]] == us[..n + 1];
      AllTargetsGrow(inp, us[..n + 1], us);
      ClashGrows(prefix, taken, AllTargets(inp, us[..n + 1]), AllTargets(inp, us));
    }
  }

  /** As far as `gs` goes, each is right and none is refused. */
  ghost predicate PartRight(inp: Input, prefix: string, u: Unit, gs: seq<GoReloc>) {
    && |gs| <= |u.rs|
    && forall k :: 0 <= k < |gs| ==> !Bad(inp, u.code, u.rs[k]) && Right(inp, prefix, u.code, u.rs[k], gs[k])
  }

  /** After the first n relocations of the section. */
  ghost predicate SoFar(inp: Input, prefix: string, asked: seq<Target>, now: seq<Target>, c: Code, rs: seq<Rela>,
      n: nat,
      gs: seq<GoReloc>)
    requires n <= |rs|
  {
    var u := Unit(c, Held(c.x, rs));
    |gs| == |Held(c.x, rs[..n])| && PartRight(inp, prefix, u, gs) && now == asked + Targets(inp, u.rs[..|gs|])
  }

  lemma NoneSoFar(inp: Input, prefix: string, asked: seq<Target>, c: Code, rs: seq<Rela>)
    ensures SoFar(inp, prefix, asked, asked, c, rs, 0, [])
  {
  }

  lemma SkipSoFar(inp: Input, prefix: string, asked: seq<Target>, now: seq<Target>, c: Code, rs: seq<Rela>, n: nat,
      gs: seq<GoReloc>)
    requires n < |rs| && SoFar(inp, prefix, asked, now, c, rs, n, gs) && !c.x.Holds(rs[n].off)
    ensures SoFar(inp, prefix, asked, now, c, rs, n + 1, gs)
  {
    hide Held, Targets, PartRight;
    HeldNext(c.x, rs, n);
  }

  lemma MoreSoFar(inp: Input, prefix: string, asked: seq<Target>, now: seq<Target>, c: Code, rs: seq<Rela>, n: nat,
      gs: seq<GoReloc>, g: GoReloc)
    requires n < |rs| && SoFar(inp, prefix, asked, now, c, rs, n, gs) && c.x.Holds(rs[n].off)
    requires !Bad(inp, c, rs[n]) && Right(inp, prefix, c, rs[n], g)
    ensures SoFar(inp, prefix, asked, now + GotTarget(inp, rs[n]), c, rs, n + 1, gs + [g])
  {
    var u := Unit(c, Held(c.x, rs));
    hide Held, Targets, GotTarget, Bad, Right;
    HeldHere(c.x, rs, n, |gs|);
    TargetsTo(inp, u.rs, |gs|);
  }

  lemma StopSoFar(inp: Input, prefix: string, taken: set<Sym>, asked: seq<Target>, now: seq<Target>, c: Code,
      rs: seq<Rela>,
      n: nat, gs: seq<GoReloc>)
    requires n < |rs| && SoFar(inp, prefix, asked, now, c, rs, n, gs) && c.x.Holds(rs[n].off)
    requires Bad(inp, c, rs[n]) || Clash(prefix, taken, now + GotTarget(inp, rs[n]))
    ensures FnDone(inp, prefix, taken, asked, Unit(c, Held(c.x, rs)), None)
  {
    var u := Unit(c, Held(c.x, rs));
    hide Held, Targets, GotTarget, Bad, Right, Clash, FnDone;
    HeldHere(c.x, rs, n, |gs|);
    RelocRefused(inp, prefix, taken, asked, u, |gs|);
  }

  lemma AllSoFar(inp: Input, prefix: string, taken: set<Sym>, asked: seq<Target>, now: seq<Target>, c: Code,
      rs: seq<Rela>,
      gs: seq<GoReloc>)
    requires SoFar(inp, prefix, asked, now, c, rs, |rs|, gs) && !Clash(prefix, taken, now)
    ensures FnDone(inp, prefix, taken, asked, Unit(c, Held(c.x, rs)), Some(gs))
    ensures now == asked + Targets(inp, Held(c.x, rs))
  {
    var u := Unit(c, Held(c.x, rs));
    hide Held, Targets, Bad, Right, Clash;
    assert rs[..|rs|] == rs && u.rs[..|gs|] == u.rs;
  }

  /** The relocations of one function. */
  method FnRelocs(inp: Input, c: Code, rs: seq<Rela>, got: Got) returns (out: Option<seq<GoReloc>>)
    requires got.Valid()
    modifies got
    ensures got.Valid()
    ensures FnDone(inp, got.prefix, got.taken, old(got.asked), Unit(c, Held(c.x, rs)), out)
    ensures out.Some? ==> got.asked == old(got.asked) + Targets(inp, Held(c.x, rs))
  {
    hide Clash, FnDone, GotTarget, Held, Targets, Right, Bad, SoFar, Named, Asked, Served;
    var gs: seq<GoReloc> := [];
    ghost var asked := got.asked;
    NoneSoFar(inp, got.prefix, asked, c, rs);
    for n := 0 to |rs|
      invariant got.Valid() && SoFar(inp, got.prefix, asked, got.asked, c, rs, n, gs)
    {
      var r := rs[n];
      ghost var now := got.asked;
      if r.off < c.x.off || r.off >= c.x.off + c.x.size {
        SkipSoFar(inp, got.prefix, asked, now, c, rs, n, gs);
        continue;
      }
      var g := TextReloc(inp, c, r, got);
      if g.None? {
        StopSoFar(inp, got.prefix, got.taken, asked, now, c, rs, n, gs);
        return None;
      }
      MoreSoFar(inp, got.prefix, asked, now, c, rs, n, gs, g.value);
      gs := gs + [g.value];
    }
    AllSoFar(inp, got.prefix, got.taken, asked, got.asked, c, rs, gs);
    return Some(gs);
  }

  lemma {:induction false} UnitsGrow(ss: seq<Section>, i: nat)
    requires i <= |ss|
    ensures Units(ss[..i]) <= Units(ss)
    decreases |ss|
  {
    if i < |ss| {
      UnitsGrow(ss[..|ss| - 1], i);
      assert ss[..|ss| - 1][..i] == ss[..i];
    } else {
      assert ss[..i] == ss;
    }
  }

  /** Function j of section i is the unit after those of the sections before. */
  lemma UnitHere(ss: seq<Section>, i: nat, j: nat)
    requires i < |ss| && j < |ss[i].fns|
    ensures |Units(ss[..i])| + j < |Units(ss)|
    ensures Units(ss)[|Units(ss[..i])| + j] == Unit(ss[i].fns[j], Held(ss[i].fns[j].x, ss[i].relas))
  {
    UnitsNext(ss, i);
    UnitsGrow(ss, i + 1);
    var here := Units(ss[..i]) + UnitsOf(ss[i]);
    assert here[|Units(ss[..i])| + j] == UnitsOf(ss[i])[j];
  }

  lemma UnitsNext(ss: seq<Section>, i: nat)
    requires i < |ss|
    ensures Units(ss[..i + 1]) == Units(ss[..i]) + UnitsOf(ss[i])
  {
    assert ss[..i + 1][..i] == ss[..i];
  }

  /** After the first |out| functions. */
  ghost predicate TextSoFar(inp: Input, prefix: string, now: seq<Target>, us: seq<Unit>, out: seq<seq<GoReloc>>) {
    && |out| <= |us| && now == AllTargets(inp, us[..|out|])
    && forall n :: 0 <= n < |out| ==> !UnitBad(inp, us[n]) && UnitRight(inp, prefix, us[n], out[n])
  }

  /** The text of all sections: nothing exactly if a relocation is bad or there
      cannot be words for all references through the table. */
  ghost predicate TextDone(inp: Input, prefix: string, taken: set<Sym>, us: seq<Unit>, out: Option<seq<seq<GoReloc>>>) {
    && (out.None? <==> AnyBad(inp, us) || Clash(prefix, taken, AllTargets(inp, us)))
    && (out.Some? ==> AllRight(inp, prefix, us, out.value))
  }

  lemma NextFn(inp: Input, prefix: string, taken: set<Sym>, now: seq<Target>, us: seq<Unit>, out: seq<seq<GoReloc>>,
      gs: Option<seq<GoReloc>>)
    requires |out| < |us| && TextSoFar(inp, prefix, now, us, out) && FnDone(inp, prefix, taken, now, us[|out|], gs)
    ensures gs.None? ==> TextDone(inp, prefix, taken, us, None)
    ensures gs.Some? ==> TextSoFar(inp, prefix, now + Targets(inp, us[|out|].rs), us, out + [gs.value])
  {
    hide Targets, AllTargets, UnitBad, UnitRight, Clash;
    var n := |out|;
    if gs.None? {
      UnitRefused(inp, prefix, taken, us, n);
    } else {
      AllTargetsNext(inp, us[..n], us[n]);
      assert us[..n] + [us[n]] == us[..n + 1];
    }
  }

  lemma AllFns(inp: Input, prefix: string, taken: set<Sym>, now: seq<Target>, us: seq<Unit>, out: seq<seq<GoReloc>>)
    requires |out| == |us| && TextSoFar(inp, prefix, now, us, out) && !Clash(prefix, taken, now)
    ensures TextDone(inp, prefix, taken, us, Some(out)) && now == AllTargets(inp, us)
  {
    hide Targets, AllTargets, UnitBad, UnitRight, Clash;
    assert us[..|us|] == us;
  }

  /** Each reference through the table reads the address it refers to. */
  ghost predicate ReadOwn(inp: Input, us: seq<Unit>, out: seq<seq<GoReloc>>, words: map<Sym, GoReloc>) {
    forall n, k :: 0 <= n < |us| && 0 <= k < |us[n].rs| && us[n].rs[k].typ.GotPcRel? ==>
      ReadsOwn(inp, us[n], out, n, k, words)
  }

  ghost predicate ReadsOwn(inp: Input, u: Unit, out: seq<seq<GoReloc>>, n: nat, k: nat, words: map<Sym, GoReloc>)
    requires k < |u.rs|
  {
    && n < |out| && k < |out[n]| && out[n][k].target.sym in words
    && TargetOf(inp, u.rs[k]).Some? && words[out[n][k].target.sym] == AddressOf(TargetOf(inp, u.rs[k]).value)
  }

  /** All text sections, in order of their index: one relocation for each, all
      right; and every reference through the table reads its own target exactly
      when none of them differ in ABI alone. */
  method TextRelocs(inp: Input, ss: seq<Section>, prefix: string, declared: set<Sym>)
      returns (out: Option<seq<seq<GoReloc>>>, words: map<Sym, GoReloc>)
    ensures TextDone(inp, prefix, declared, Units(ss), out)
    ensures out.Some? ==> (ReadOwn(inp, Units(ss), out.value, words) <==> OneAbi(AllTargets(inp, Units(ss))))
  {
    hide FnDone, TextDone, TextSoFar, Units, UnitsOf, Held, Targets, AllTargets, ReadOwn, OneAbi, Named, Asked, Clash;
    var got := new Got(prefix, declared);
    ghost var us := Units(ss);
    out, words := None, map[];
    var rows: seq<seq<GoReloc>> := [];
    NoFns(inp, prefix, us);
    for i := 0 to |ss|
      invariant fresh(got) && got.Valid() && got.prefix == prefix && got.taken == declared
      invariant |rows| == |Units(ss[..i])| && TextSoFar(inp, prefix, got.asked, us, rows)
    {
      for j := 0 to |ss[i].fns|
        invariant fresh(got) && got.Valid() && got.prefix == prefix && got.taken == declared
        invariant |rows| == |Units(ss[..i])| + j && TextSoFar(inp, prefix, got.asked, us, rows)
      {
        UnitHere(ss, i, j);
        ghost var now := got.asked;
        var gs := FnRelocs(inp, ss[i].fns[j], ss[i].relas, got);
        NextFn(inp, prefix, declared, now, us, rows, gs);
        if gs.None? { return; }
        rows := rows + [gs.value];
      }
      UnitsNext(ss, i);
      UnitsOfLength(ss[i]);
    }
    assert ss[..|ss|] == ss;
    AllFns(inp, prefix, declared, got.asked, us, rows);
    out, words := Some(rows), got.words;
    OwnWords(inp, prefix, declared, us, rows, words);
  }

  lemma NoFns(inp: Input, prefix: string, us: seq<Unit>)
    ensures TextSoFar(inp, prefix, [], us, []) && Units([]) == []
  {
  }

  lemma UnitsOfLength(s: Section)
    ensures |UnitsOf(s)| == |s.fns|
  {
  }

  // ----- the words' contents -----

  lemma {:induction false} InTargets(inp: Input, rs: seq<Rela>, k: nat)
    requires k < |rs| && rs[k].typ.GotPcRel? && TargetOf(inp, rs[k]).Some?
    ensures TargetOf(inp, rs[k]).value in Targets(inp, rs)
  {
    TargetsTo(inp, rs, k);
    TargetsGrow(inp, rs[..k + 1], rs);
    var ts := Targets(inp, rs[..k + 1]);
    assert ts[|ts| - 1] == TargetOf(inp, rs[k]).value && ts[|ts| - 1] == Targets(inp, rs)[|ts| - 1];
  }

  lemma {:induction false} FromTargets(inp: Input, rs: seq<Rela>, t: Target) returns (k: nat)
    requires t in Targets(inp, rs)
    ensures k < |rs| && rs[k].typ.GotPcRel? && TargetOf(inp, rs[k]) == Some(t)
  {
    var n := |rs| - 1;
    if t in GotTarget(inp, rs[n]) {
      k := n;
    } else {
      k := FromTargets(inp, rs[..n], t);
    }
  }

  lemma InAllTargets(inp: Input, us: seq<Unit>, n: nat, t: Target)
    requires n < |us| && t in Targets(inp, us[n].rs)
    ensures t in AllTargets(inp, us)
  {
    AllTargetsNext(inp, us[..n], us[n]);
    assert us[..n] + [us[n]] == us[..n + 1];
    AllTargetsGrow(inp, us[..n + 1], us);
    assert t in AllTargets(inp, us[..n + 1]);
  }

  lemma {:induction false} FromAllTargets(inp: Input, us: seq<Unit>, t: Target) returns (n: nat, k: nat)
    requires t in AllTargets(inp, us)
    ensures n < |us| && k < |us[n].rs| && us[n].rs[k].typ.GotPcRel? && TargetOf(inp, us[n].rs[k]) == Some(t)
  {
    n := |us| - 1;
    if t in Targets(inp, us[n].rs) {
      k := FromTargets(inp, us[n].rs, t);
    } else {
      n, k := FromAllTargets(inp, us[..n], t);
    }
  }

  /** A reference through the table goes to the word of its target. */
  lemma GoesThrough(inp: Input, prefix: string, taken: set<Sym>, us: seq<Unit>, out: seq<seq<GoReloc>>, n: nat, k: nat)
      returns (t: Target, j: nat)
    requires TextDone(inp, prefix, taken, us, Some(out)) && n < |us| && k < |us[n].rs| && us[n].rs[k].typ.GotPcRel?
    ensures n < |out| && k < |out[n]| && out[n][k].target.sym == WordFor(prefix, t)
      && TargetOf(inp, us[n].rs[k]) == Some(t)
    ensures j < |AllTargets(inp, us)| && AllTargets(inp, us)[j] == t
  {
    hide AllTargets, Targets, Clash, AnyBad, WordFor;
    assert UnitRight(inp, prefix, us[n], out[n]);
    assert Right(inp, prefix, us[n].code, us[n].rs[k], out[n][k]);
    t := TargetOf(inp, us[n].rs[k]).value;
    InTargets(inp, us[n].rs, k);
    InAllTargets(inp, us, n, t);
    j :| 0 <= j < |AllTargets(inp, us)| && AllTargets(inp, us)[j] == t;
  }

  lemma OwnWords(inp: Input, prefix: string, taken: set<Sym>, us: seq<Unit>, out: seq<seq<GoReloc>>, words: map<Sym,
      GoReloc>)
    requires TextDone(inp, prefix, taken, us, Some(out))
    requires var ts := AllTargets(inp, us); forall k :: 0 <= k < |ts| ==> Served(prefix, ts, k, words)
    ensures ReadOwn(inp, us, out, words) <==> OneAbi(AllTargets(inp, us))
  {
    var ts := AllTargets(inp, us);
    hide TextDone, AllTargets, OneAbi, WordFor, First;
    OwnTargetIff(ts);
    if OneAbi(ts) {
      forall n, k | 0 <= n < |us| && 0 <= k < |us[n].rs| && us[n].rs[k].typ.GotPcRel?
        ensures ReadsOwn(inp, us[n], out, n, k, words)
      {
        var t, j := GoesThrough(inp, prefix, taken, us, out, n, k);
        assert Served(prefix, ts, j, words);
      }
    }
    if ReadOwn(inp, us, out, words) {
      forall j | 0 <= j < |ts|
        ensures ts[First(ts, j)] == ts[j]
      {
        var n, k := FromAllTargets(inp, us, ts[j]);
        var t, i := GoesThrough(inp, prefix, taken, us, out, n, k);
        assert Served(prefix, ts, j, words) && ReadsOwn(inp, us[n], out, n, k, words);
      }
    }
  }
}
