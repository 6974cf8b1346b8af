/** The numbers of a Go object's symbols: the block of each, the order in every
    block, when numbering is refused, and where a reference leads. */
module GoNumbers {
  import opened Options
  import opened ByteType
  import opened GoSymbols
  import GoObject

  datatype Pkg = Self | NoPkg | Hashed64 | Hashed | BuiltinPkg

  datatype Ref = Ref(pkg: Pkg, idx: nat)

  /** The blocks of symbol records. */
  datatype Blocks = Blocks(defs: seq<nat>, hashed64: seq<nat>, hashed: seq<nat>, nonpkgdefs: seq<nat>,
                           nonpkgrefs: seq<nat>)

  /** The package words of a release. */
  datatype Codes = Codes(self: nat, none: nat, hashed64: nat, hashed: nat, builtin: nat) {
    function Of(p: Pkg): nat {
      match p
      case Self => self
      case NoPkg => none
      case Hashed64 => hashed64
      case Hashed => hashed
      case BuiltinPkg => builtin
    }
  }

  /** The state of numbering: the contents of the FuncInfo symbols come with it. */
  datatype St = St(index: map<nat, Ref>, b: Blocks, ok: bool, infos: seq<seq<Byte>>)

  const EMPTY := St(map[], Blocks([], [], [], [], []), true, [])

  // ----- one symbol -----

  /** The block of a definition. */
  function BlockOf(x: Sym): Pkg {
    if x.hashed then (if x.size <= 8 && x.relocs == [] && !x.pcTable then Hashed64 else Hashed)
    else if !x.unexported then NoPkg else Self
  }

  /** The records of a block of definitions. */
  function Defs(b: Blocks, p: Pkg): seq<nat> {
    match p
    case Self => b.defs
    case Hashed64 => b.hashed64
    case Hashed => b.hashed
    case NoPkg => b.nonpkgdefs
    case BuiltinPkg => []
  }

  function Put(b: Blocks, p: Pkg, s: nat): Blocks {
    match p
    case Self => b.(defs := b.defs + [s])
    case Hashed64 => b.(hashed64 := b.hashed64 + [s])
    case Hashed => b.(hashed := b.hashed + [s])
    case NoPkg => b.(nonpkgdefs := b.nonpkgdefs + [s])
    case BuiltinPkg => b
  }

  /** A content-addressable symbol must be a pc-value table. */
  predicate Hashable(x: Sym) { x.hashed ==> x.pcTable }

  function Defining(l: Link, st: St, s: nat): St
    requires s < |l.syms|
  {
    var p := BlockOf(l.syms[s]);
    st.(index := st.index[s := Ref(p, |Defs(st.b, p)|)], b := Put(st.b, p, s), ok := st.ok && Hashable(l.syms[s]))
  }

  /** The last builtin of that name, if its ABI is the one asked for. */
  function BuiltinIdx(l: Link, name: Name, abi: nat): (r: Option<nat>)
    ensures r.Some? ==> r.value < |l.builtins| && l.builtins[r.value].name == name
    ensures r.Some? && l.wrappers ==> l.builtins[r.value].abi == abi
    ensures r.Some? ==> forall k :: r.value < k < |l.builtins| ==> l.builtins[k].name != name
    ensures r.None? ==> forall k :: 0 <= k < |l.builtins| && l.builtins[k].name == name ==>
      (exists j :: k < j < |l.builtins| && l.builtins[j].name == name) || (l.wrappers && l.builtins[k].abi != abi)
  {
    var k := LastOf(l.builtins, name);
    if k.None? || (l.wrappers && l.builtins[k.value].abi != abi) then None else k
  }

  function LastOf(bs: seq<Builtin>, name: Name): (r: Option<nat>)
    ensures r.Some? ==> r.value < |bs| && bs[r.value].name == name
    ensures r.Some? ==> forall k :: r.value < k < |bs| ==> bs[k].name != name
    ensures r.None? ==> forall k :: 0 <= k < |bs| ==> bs[k].name != name
  {
    if bs == [] then None
    else if bs[|bs| - 1].name == name then Some(|bs| - 1)
    else LastOf(bs[..|bs| - 1], name)
  }

  function BuiltinOf(l: Link, x: Sym): Option<nat> { BuiltinIdx(l, x.name, x.abi) }

  function Referring(l: Link, st: St, s: nat): St
    requires s < |l.syms|
  {
    var x := l.syms[s];
    if s in st.index then st
    else if BuiltinOf(l, x).Some? then st.(index := st.index[s := Ref(BuiltinPkg, BuiltinOf(l, x).value)])
    else
      st.(index := st.index[s := Ref(NoPkg, |st.b.nonpkgdefs| + |st.b.nonpkgrefs|)],
          b := st.b.(nonpkgrefs := st.b.nonpkgrefs + [s]), ok := st.ok && !x.hashed)
  }

  /** A number among the package's own definitions, whatever the symbol had before. */
  function Owning(st: St, s: nat): St {
    st.(index := st.index[s := Ref(Self, |st.b.defs|)], b := st.b.(defs := st.b.defs + [s]))
  }

  // ----- all symbols -----

  function DefiningAll(l: Link, st: St, ids: seq<nat>): St
    requires Known(l, ids)
  {
    if ids == [] then st else Defining(l, DefiningAll(l, st, ids[..|ids| - 1]), ids[|ids| - 1])
  }

  function ReferringAll(l: Link, st: St, ids: seq<nat>): St
    requires Known(l, ids)
  {
    if ids == [] then st else Referring(l, ReferringAll(l, st, ids[..|ids| - 1]), ids[|ids| - 1])
  }

  function OwningAll(st: St, ids: seq<nat>): St {
    if ids == [] then st else Owning(OwningAll(st, ids[..|ids| - 1]), ids[|ids| - 1])
  }

  /** One traversal of the definitions, then one of the references. */
  ghost function Numbered(l: Link): St
    requires LinkOk(l)
  {
    VisitsKnown(l);
    ReferringAll(l, DefiningAll(l, EMPTY, Visits(l, DEFS)), Visits(l, REFS))
  }

  lemma VisitsKnown(l: Link)
    requires LinkOk(l)
    ensures Known(l, Visits(l, DEFS)) && Known(l, Visits(l, REFS)) && Known(l, Visits(l, ALL))
  {
    KnownVisits(l, DEFS, l.text + l.data);
    KnownVisits(l, REFS, l.text + l.data);
    KnownVisits(l, ALL, l.text + l.data);
  }

  /** The words of a reference: 0 and 0 for none. An unnumbered symbol would stop
      the writer; `GoRead` shows that every symbol referred to has a number. */
  function RefWords(c: Codes, index: map<nat, Ref>, t: Option<nat>): (nat, nat) {
    if t.Some? && t.value in index then (c.Of(index[t.value].pkg), index[t.value].idx) else (0, 0)
  }

  function InlWords(c: Codes, index: map<nat, Ref>, n: Inl): GoObject.InlNode {
    var w := RefWords(c, index, n.func);
    GoObject.InlNode(n.parent, n.file, n.line, w.0, w.1, n.parentPc)
  }

  /** What a FuncInfo symbol says. */
  function InfoOf(c: Codes, index: map<nat, Ref>, f: Func): GoObject.Info {
    GoObject.Info(f.args, f.locals, f.id, f.flag, f.startLine, f.fileNos,
                  seq(|f.inl|, k requires 0 <= k < |f.inl| => InlWords(c, index, f.inl[k])))
  }

  /** FuncInfo k is symbol |syms| + k; it and the function's DWARF symbols become
      definitions of the package. */
  function Informing(l: Link, c: Codes, st: St, k: nat): St {
    match TextFunc(l, k)
    case None => st
    case Some(f) =>
      var said := st.(infos := st.infos + [GoObject.PutInfo(InfoOf(c, st.index, f), l.startLines)]);
      OwningAll(Owning(said, |l.syms| + k), Dwarf(l, f))
  }

  function InformingAll(l: Link, c: Codes, st: St, n: nat): St {
    if n == 0 then st else Informing(l, c, InformingAll(l, c, st, n - 1), n - 1)
  }

  /** The numbering of the whole object. */
  ghost function Final(l: Link, c: Codes): St
    requires LinkOk(l)
  {
    InformingAll(l, c, Numbered(l), |l.text|)
  }

  // ----- as the writer does it -----

  class Numbering {
    const l: Link
    const c: Codes
    var index: map<nat, Ref>
    var b: Blocks
    var ok: bool
    var infos: seq<seq<Byte>>

    function State(): St reads this { St(index, b, ok, infos) }

    constructor (l: Link, c: Codes)
      ensures this.l == l && this.c == c && State() == EMPTY
    {
      this.l, this.c := l, c;
      index, b, ok, infos := map[], Blocks([], [], [], [], []), true, [];
    }

    /** A definition gets the next number of its block, again on every visit; a
        content-addressable symbol that is no pc-value table refuses the object. */
    method Define(s: nat)
      requires s < |l.syms|
      modifies this
      ensures var x := l.syms[s];
        && ok == (old(ok) && (x.hashed ==> x.pcTable)) && infos == old(infos)
        && if x.hashed && x.size <= 8 && x.relocs == [] && !x.pcTable then
             && index == old(index)[s := Ref(Hashed64, |old(b.hashed64)|)]
             && b == old(b).(hashed64 := old(b.hashed64) + [s])
           else if x.hashed then
             index == old(index)[s := Ref(Hashed, |old(b.hashed)|)] && b == old(b).(hashed := old(b.hashed) + [s])
           else if x.unexported then
             index == old(index)[s := Ref(Self, |old(b.defs)|)] && b == old(b).(defs := old(b.defs) + [s])
           else
             && index == old(index)[s := Ref(NoPkg, |old(b.nonpkgdefs)|)]
             && b == old(b).(nonpkgdefs := old(b.nonpkgdefs) + [s])
      ensures State() == Defining(l, old(State()), s)
    {
      var x := l.syms[s];
      if x.hashed {
        if !x.pcTable { ok := false; }
        if x.size <= 8 && x.relocs == [] && !x.pcTable {
          index := index[s := Ref(Hashed64, |b.hashed64|)];
          b := b.(hashed64 := b.hashed64 + [s]);
        } else {
          index := index[s := Ref(Hashed, |b.hashed|)];
          b := b.(hashed := b.hashed + [s]);
        }
      } else if !x.unexported {
        index := index[s := Ref(NoPkg, |b.nonpkgdefs|)];
        b := b.(nonpkgdefs := b.nonpkgdefs + [s]);
      } else {
        index := index[s := Ref(Self, |b.defs|)];
        b := b.(defs := b.defs + [s]);
      }
    }

    /** A symbol without a number gets its builtin's, if it has one, and else the
        next one after all definitions without package. */
    method Refer(s: nat)
      requires s < |l.syms|
      modifies this
      ensures s in old(index) ==> State() == old(State())
      ensures s !in old(index) && BuiltinOf(l, l.syms[s]).Some? ==>
        && index == old(index)[s := Ref(BuiltinPkg, BuiltinOf(l, l.syms[s]).value)]
        && b == old(b) && ok == old(ok) && infos == old(infos)
      ensures s !in old(index) && BuiltinOf(l, l.syms[s]).None? ==>
        && index == old(index)[s := Ref(NoPkg, |old(b.nonpkgdefs)| + |old(b.nonpkgrefs)|)]
        && b == old(b).(nonpkgrefs := old(b.nonpkgrefs) + [s])
        && ok == (old(ok) && !l.syms[s].hashed) && infos == old(infos)
    {
      if s in index { return; }
      var k := BuiltinIdx(l, l.syms[s].name, l.syms[s].abi);
      if k.Some? {
        index := index[s := Ref(BuiltinPkg, k.value)];
        return;
      }
      if l.syms[s].hashed { ok := false; }
      index := index[s := Ref(NoPkg, |b.nonpkgdefs| + |b.nonpkgrefs|)];
      b := b.(nonpkgrefs := b.nonpkgrefs + [s]);
    }

    method DefineAll(ids: seq<nat>)
      requires Known(l, ids)
      modifies this
      ensures State() == DefiningAll(l, old(State()), ids)
    {
      for n := 0 to |ids|
        invariant State() == DefiningAll(l, old(State()), ids[..n])
      {
        assert ids[..n + 1][..n] == ids[..n];
        Define(ids[n]);
      }
      assert ids[..|ids|] == ids;
    }

    method ReferAll(ids: seq<nat>)
      requires Known(l, ids)
      modifies this
      ensures State() == ReferringAll(l, old(State()), ids)
    {
      hide BuiltinOf;
      for n := 0 to |ids|
        invariant State() == ReferringAll(l, old(State()), ids[..n])
      {
        assert ids[..n + 1][..n] == ids[..n];
        Refer(ids[n]);
      }
      assert ids[..|ids|] == ids;
    }

    /** Both traversals. */
    method Number()
      requires LinkOk(l) && State() == EMPTY
      modifies this
      ensures State() == Numbered(l)
    {
      hide Visits, SymKnown, DefiningAll, ReferringAll;
      VisitsKnown(l);
      var defs := Traverse(l, DEFS);
      DefineAll(defs);
      var refs := Traverse(l, REFS);
      ReferAll(refs);
    }

    method Own(s: nat)
      modifies this
      ensures State() == Owning(old(State()), s)
    {
      index := index[s := Ref(Self, |b.defs|)];
      b := b.(defs := b.defs + [s]);
    }

    method OwnAll(ids: seq<nat>)
      modifies this
      ensures State() == OwningAll(old(State()), ids)
    {
      for n := 0 to |ids|
        invariant State() == OwningAll(old(State()), ids[..n])
      {
        assert ids[..n + 1][..n] == ids[..n];
        Own(ids[n]);
      }
      assert ids[..|ids|] == ids;
    }

    /** The FuncInfo symbols, with their contents, and the DWARF symbols. */
    method FuncInfos()
      requires LinkOk(l)
      modifies this
      ensures State() == InformingAll(l, c, old(State()), |l.text|)
    {
      hide LinkOk, Dwarf, InfoOf, GoObject.PutInfo, OwningAll, FuncKnown;
      for n := 0 to |l.text|
        invariant State() == InformingAll(l, c, old(State()), n)
      {
        TextKnown(l, n);
        var f := l.syms[l.text[n]].func.value;
        infos := infos + [GoObject.PutInfo(InfoOf(c, index, f), l.startLines)];
        Own(|l.syms| + n);
        OwnAll(Dwarf(l, f));
      }
    }
  }

  // ----- every number leads to its symbol -----

  predicate At(list: seq<nat>, k: int, s: nat) { 0 <= k < |list| && list[k] == s }

  /** A reader that looks the reference up finds the record of s, or a builtin of
      its name. References to no package count through the definitions and then
      the references. */
  predicate Denotes(l: Link, b: Blocks, r: Ref, s: nat) {
    match r.pkg
    case NoPkg =>
      if r.idx < |b.nonpkgdefs| then b.nonpkgdefs[r.idx] == s else At(b.nonpkgrefs, r.idx - |b.nonpkgdefs|, s)
    case BuiltinPkg => s < |l.syms| && BuiltinOf(l, l.syms[s]) == Some(r.idx)
    case _ => At(Defs(b, r.pkg), r.idx, s)
  }

  ghost predicate Resolves(l: Link, st: St) { forall s :: s in st.index ==> Denotes(l, st.b, st.index[s], s) }

  lemma DefiningResolves(l: Link, st: St, s: nat)
    requires s < |l.syms| && Resolves(l, st) && st.b.nonpkgrefs == []
    ensures Resolves(l, Defining(l, st, s)) && Defining(l, st, s).b.nonpkgrefs == []
  {
  }

  lemma ReferringResolves(l: Link, st: St, s: nat)
    requires s < |l.syms| && Resolves(l, st)
    ensures Resolves(l, Referring(l, st, s))
  {
  }

  lemma OwningResolves(l: Link, st: St, s: nat)
    requires Resolves(l, st)
    ensures Resolves(l, Owning(st, s))
  {
  }

  lemma {:induction false} DefinedResolve(l: Link, ids: seq<nat>)
    requires Known(l, ids)
    ensures Resolves(l, DefiningAll(l, EMPTY, ids)) && DefiningAll(l, EMPTY, ids).b.nonpkgrefs == []
  {
    hide Defining, Resolves;
    if ids == [] {
      assert Resolves(l, EMPTY) by { NothingYet(l); }
    } else {
      DefinedResolve(l, ids[..|ids| - 1]);
      DefiningResolves(l, DefiningAll(l, EMPTY, ids[..|ids| - 1]), ids[|ids| - 1]);
    }
  }

  lemma NothingYet(l: Link)
    ensures Resolves(l, EMPTY)
  {
  }

  lemma {:induction false} ReferredResolve(l: Link, st: St, ids: seq<nat>)
    requires Known(l, ids) && Resolves(l, st)
    ensures Resolves(l, ReferringAll(l, st, ids))
  {
    hide Referring, Resolves;
    if ids != [] {
      ReferredResolve(l, st, ids[..|ids| - 1]);
      ReferringResolves(l, ReferringAll(l, st, ids[..|ids| - 1]), ids[|ids| - 1]);
    }
  }

  lemma {:induction false} OwnedResolve(l: Link, st: St, ids: seq<nat>)
    requires Resolves(l, st)
    ensures Resolves(l, OwningAll(st, ids))
  {
    hide Owning, Resolves;
    if ids != [] {
      OwnedResolve(l, st, ids[..|ids| - 1]);
      OwningResolves(l, OwningAll(st, ids[..|ids| - 1]), ids[|ids| - 1]);
    }
  }

  lemma InformingResolves(l: Link, c: Codes, st: St, k: nat)
    requires Resolves(l, st)
    ensures Resolves(l, Informing(l, c, st, k))
  {
    hide Resolves, OwningAll, Owning, GoObject.PutInfo, InfoOf;
    if TextFunc(l, k).Some? {
      var f := TextFunc(l, k).value;
      var said := st.(infos := st.infos + [GoObject.PutInfo(InfoOf(c, st.index, f), l.startLines)]);
      SameNumbers(l, st, said);
      OwningResolves(l, said, |l.syms| + k);
      OwnedResolve(l, Owning(said, |l.syms| + k), Dwarf(l, f));
    }
  }

  lemma {:induction false} InformedResolve(l: Link, c: Codes, st: St, n: nat)
    requires Resolves(l, st)
    ensures Resolves(l, InformingAll(l, c, st, n))
  {
    hide Resolves, Informing;
    if n > 0 {
      InformedResolve(l, c, st, n - 1);
      InformingResolves(l, c, InformingAll(l, c, st, n - 1), n - 1);
    }
  }

  lemma SameNumbers(l: Link, st: St, more: St)
    requires Resolves(l, st) && more.index == st.index && more.b == st.b
    ensures Resolves(l, more)
  {
  }

  /** Every number of the finished object leads to its own symbol. */
  lemma FinalResolves(l: Link, c: Codes)
    requires LinkOk(l)
    ensures Resolves(l, Numbered(l)) && Resolves(l, Final(l, c))
  {
    hide Resolves, SymKnown, Visits, DefiningAll, ReferringAll, InformingAll;
    VisitsKnown(l);
    DefinedResolve(l, Visits(l, DEFS));
    ReferredResolve(l, DefiningAll(l, EMPTY, Visits(l, DEFS)), Visits(l, REFS));
    InformedResolve(l, c, Numbered(l), |l.text|);
  }

  // ----- which number: block, order, refusal -----

  /** The visits that go to one block, in order. */
  function Select(l: Link, ids: seq<nat>, p: Pkg): seq<nat>
    requires Known(l, ids)
  {
    if ids == [] then []
    else Select(l, ids[..|ids| - 1], p) + if BlockOf(l.syms[ids[|ids| - 1]]) == p then [ids[|ids| - 1]] else []
  }

  /** After the definitions: each block holds its symbols in the order of the
      visits, each visited symbol is numbered in its own block, and nothing is
      refused exactly when every content-addressable symbol is a pc-value table. */
  ghost predicate Sorted(l: Link, st: St, ids: seq<nat>)
    requires Known(l, ids)
  {
    && (forall p :: p != BuiltinPkg ==> Defs(st.b, p) == Select(l, ids, p))
    && (forall s :: s in st.index <==> s in ids)
      && (forall s :: s in ids ==> s < |l.syms| && st.index[s].pkg == BlockOf(l.syms[s]))
    && (st.ok <==> forall s :: s in ids && s < |l.syms| ==> Hashable(l.syms[s]))
  }

  lemma {:induction false} DefinedSorted(l: Link, ids: seq<nat>)
    requires Known(l, ids)
    ensures Sorted(l, DefiningAll(l, EMPTY, ids), ids)
  {
    if ids != [] {
      var n := |ids| - 1;
      DefinedSorted(l, ids[..n]);
      SortedStep(l, DefiningAll(l, EMPTY, ids[..n]), ids[..n], ids[n]);
      assert ids[..n] + [ids[n]] == ids;
    }
  }

  lemma SortedStep(l: Link, st: St, ids: seq<nat>, s: nat)
    requires Known(l, ids) && Sorted(l, st, ids) && s < |l.syms|
    ensures Known(l, ids + [s]) && Sorted(l, Defining(l, st, s), ids + [s])
  {
    hide BlockOf, Hashable, Select;
    forall p | p != BuiltinPkg
      ensures Known(l, ids + [s]) && Defs(Defining(l, st, s).b, p) == Select(l, ids + [s], p)
    {
      BlocksAreReal(l.syms[s]);
      SelectStep(l, ids, s, p);
      assert Defs(st.b, p) == Select(l, ids, p);
    }
  }

  lemma SelectStep(l: Link, ids: seq<nat>, s: nat, p: Pkg)
    requires Known(l, ids) && s < |l.syms|
    ensures Known(l, ids + [s]) && Select(l, ids + [s], p) == Select(l, ids, p) + if BlockOf(l.syms[s]) == p then [s]
      else []
  {
    hide BlockOf;
    assert (ids + [s])[..|ids|] == ids;
  }

  lemma BlocksAreReal(x: Sym)
    ensures BlockOf(x) != BuiltinPkg
  {
  }

  /** After the references: definitions keep their numbers; a symbol that is only
      referred to has a builtin's number if it has a builtin, and else one after
      all definitions without package. */
  ghost predicate Completed(l: Link, st: St, more: St, ids: seq<nat>)
    requires Known(l, ids)
  {
    && (forall p :: p != BuiltinPkg ==> Defs(more.b, p) == Defs(st.b, p)) && more.infos == st.infos
    && (forall s :: s in more.index <==> s in st.index || s in ids)
      && (forall s :: s in st.index ==> more.index[s] == st.index[s])
    && (forall s :: s in ids && s !in st.index && s < |l.syms| ==>
      if BuiltinOf(l, l.syms[s]).Some? then more.index[s] == Ref(BuiltinPkg, BuiltinOf(l, l.syms[s]).value)
      else more.index[s].pkg == NoPkg && more.index[s].idx >= |st.b.nonpkgdefs|)
    && (more.ok <==> st.ok && forall s :: s in ids && s !in st.index && s < |l.syms| ==>
      BuiltinOf(l, l.syms[s]).Some? || !l.syms[s].hashed)
  }

  lemma CompletedStep(l: Link, st: St, now: St, ids: seq<nat>, s: nat)
    requires Known(l, ids) && Completed(l, st, now, ids) && s < |l.syms|
    ensures Known(l, ids + [s]) && Completed(l, st, Referring(l, now, s), ids + [s])
  {
    hide BuiltinOf;
    var next := Referring(l, now, s);
    forall p | p != BuiltinPkg
      ensures Defs(next.b, p) == Defs(st.b, p)
    {
      assert Defs(now.b, p) == Defs(st.b, p);
    }
    assert Defs(now.b, NoPkg) == Defs(st.b, NoPkg);
  }

  lemma {:induction false} ReferredCompleted(l: Link, st: St, ids: seq<nat>)
    requires Known(l, ids)
    ensures Completed(l, st, ReferringAll(l, st, ids), ids)
  {
    hide Completed, Referring;
    if ids == [] {
      assert Completed(l, st, st, []) by { CompletedNone(l, st); }
    } else {
      var n := |ids| - 1;
      ReferredCompleted(l, st, ids[..n]);
      CompletedStep(l, st, ReferringAll(l, st, ids[..n]), ids[..n], ids[n]);
      assert ids[..n] + [ids[n]] == ids;
    }
  }

  lemma CompletedNone(l: Link, st: St)
    ensures Completed(l, st, st, [])
  {
  }

  /** Numbering is refused exactly for a definition that is content-addressable
      without being a pc-value table, or for a reference to an undefined
      content-addressable symbol that is no builtin. */
  ghost predicate Numberable(l: Link)
    requires LinkOk(l)
  {
    && (forall s :: s in Visits(l, DEFS) && s < |l.syms| ==> (l.syms[s].hashed ==> l.syms[s].pcTable))
    && (forall s :: s in Visits(l, REFS) && s !in Visits(l, DEFS) && s < |l.syms| ==>
      BuiltinOf(l, l.syms[s]).Some? || !l.syms[s].hashed)
  }

  /** The whole numbering, symbol by symbol. */
  lemma NumberedExactly(l: Link)
    requires LinkOk(l)
    ensures Known(l, Visits(l, DEFS)) && forall p :: p != BuiltinPkg ==>
      Defs(Numbered(l).b, p) == Select(l, Visits(l, DEFS), p)
    ensures forall s :: s in Numbered(l).index <==> s in Visits(l, DEFS) || s in Visits(l, REFS)
    ensures forall s :: s in Visits(l, DEFS) ==> s < |l.syms| && Numbered(l).index[s].pkg == BlockOf(l.syms[s])
    ensures forall s :: s in Visits(l, REFS) && s !in Visits(l, DEFS) && s < |l.syms| ==>
      if BuiltinOf(l, l.syms[s]).Some? then Numbered(l).index[s] == Ref(BuiltinPkg, BuiltinOf(l, l.syms[s]).value)
      else Numbered(l).index[s].pkg == NoPkg && Numbered(l).index[s].idx >= |Numbered(l).b.nonpkgdefs|
    ensures Numbered(l).ok <==> Numberable(l)
    ensures Numbered(l).infos == []
  {
    hide BuiltinOf, Visits, BlockOf, SymKnown, DefiningAll, ReferringAll, Select;
    VisitsKnown(l);
    var st := DefiningAll(l, EMPTY, Visits(l, DEFS));
    DefinedSorted(l, Visits(l, DEFS));
    ReferredCompleted(l, st, Visits(l, REFS));
    assert Defs(Numbered(l).b, NoPkg) == Defs(st.b, NoPkg);
    DefinedInfos(l, Visits(l, DEFS));
  }

  /** The definitions of one block, said by the symbols' own fields. */
  ghost predicate InBlock(x: Sym, p: Pkg) {
    match p
    case NoPkg => !x.hashed && !x.unexported
    case Self => !x.hashed && x.unexported
    case Hashed64 => x.hashed && x.size <= 8 && x.relocs == [] && !x.pcTable
    case Hashed => x.hashed && (x.size > 8 || x.relocs != [] || x.pcTable)
    case BuiltinPkg => false
  }

  lemma {:induction false} SelectFrom(l: Link, ids: seq<nat>, p: Pkg, s: nat)
    requires Known(l, ids)
    ensures s in Select(l, ids, p) <==> s in ids && s < |l.syms| && InBlock(l.syms[s], p)
  {
    if ids != [] { SelectFrom(l, ids[..|ids| - 1], p, s); }
  }

  /** Exported symbols are definitions without package, static ones the package's
      own, content-addressable ones go by size, relocations and kind. */
  lemma BlocksByFields(l: Link, s: nat, p: Pkg)
    requires LinkOk(l) && p != BuiltinPkg
    ensures s in Defs(Numbered(l).b, p) <==> s in Visits(l, DEFS) && s < |l.syms| && InBlock(l.syms[s], p)
  {
    hide Visits, SymKnown, Numbered, Select, InBlock;
    NumberedExactly(l);
    SelectFrom(l, Visits(l, DEFS), p, s);
  }

  lemma {:induction false} DefinedInfos(l: Link, ids: seq<nat>)
    requires Known(l, ids)
    ensures DefiningAll(l, EMPTY, ids).infos == []
  {
    if ids != [] { DefinedInfos(l, ids[..|ids| - 1]); }
  }

  // ----- FuncInfo and DWARF symbols -----

  /** The symbols of function k that become the package's own. */
  function InfoAt(l: Link, k: nat): seq<nat> {
    match TextFunc(l, k)
    case None => []
    case Some(f) => [|l.syms| + k] + Dwarf(l, f)
  }

  function InfoIds(l: Link, n: nat): seq<nat> { if n == 0 then [] else InfoIds(l, n - 1) + InfoAt(l, n - 1) }

  /** `ids` were made the package's own, after everything else. */
  ghost predicate Owned(st: St, now: St, ids: seq<nat>) {
    && now.b == st.b.(defs := st.b.defs + ids) && now.ok == st.ok
    && (forall s :: s in now.index <==> s in st.index || s in ids)
    && (forall s :: s in ids && s in now.index ==> now.index[s].pkg == Self)
    && (forall s :: s in st.index && s !in ids && s in now.index ==> now.index[s] == st.index[s])
  }

  lemma OwnedStep(st: St, now: St, ids: seq<nat>, s: nat)
    requires Owned(st, now, ids)
    ensures Owned(st, Owning(now, s), ids + [s])
  {
    assert st.b.defs + ids + [s] == st.b.defs + (ids + [s]);
  }

  lemma {:induction false} OwnedAll(st: St, now: St, ids: seq<nat>, more: seq<nat>)
    requires Owned(st, now, ids)
    ensures Owned(st, OwningAll(now, more), ids + more) && OwningAll(now, more).infos == now.infos
  {
    hide Owned;
    if more == [] {
      assert ids + more == ids;
    } else {
      var n := |more| - 1;
      OwnedAll(st, now, ids, more[..n]);
      OwnedStep(st, OwningAll(now, more[..n]), ids + more[..n], more[n]);
      assert ids + more[..n] + [more[n]] == ids + more;
    }
  }

  lemma OwnedSame(st: St, now: St, more: St, ids: seq<nat>)
    requires Owned(st, now, ids) && more.index == now.index && more.b == now.b && more.ok == now.ok
    ensures Owned(st, more, ids)
  {
  }

  lemma OwnedNone(st: St)
    ensures Owned(st, st, [])
  {
    assert st.b.defs + [] == st.b.defs;
  }

  lemma {:induction false} InformedOwns(l: Link, c: Codes, st: St, n: nat)
    ensures Owned(st, InformingAll(l, c, st, n), InfoIds(l, n))
  {
    hide Owned, Informing, InfoAt;
    if n == 0 {
      OwnedNone(st);
    } else {
      InformedOwns(l, c, st, n - 1);
      InformingOwns(l, c, st, InformingAll(l, c, st, n - 1), InfoIds(l, n - 1), n - 1);
    }
  }

  lemma InformingOwns(l: Link, c: Codes, st: St, now: St, ids: seq<nat>, k: nat)
    requires Owned(st, now, ids)
    ensures Owned(st, Informing(l, c, now, k), ids + InfoAt(l, k))
    ensures TextFunc(l, k).Some? ==>
      Informing(l, c, now, k).infos
        == now.infos + [GoObject.PutInfo(InfoOf(c, now.index, TextFunc(l, k).value), l.startLines)]
  {
    hide Owned, GoObject.PutInfo, InfoOf, OwningAll, Dwarf;
    if TextFunc(l, k).Some? {
      var f, id := TextFunc(l, k).value, |l.syms| + k;
      var said := now.(infos := now.infos + [GoObject.PutInfo(InfoOf(c, now.index, f), l.startLines)]);
      OwnedSame(st, now, said, ids);
      OwnedStep(st, said, ids, id);
      OwnedAll(st, Owning(said, id), ids + [id], Dwarf(l, f));
      assert ids + [id] + Dwarf(l, f) == ids + ([id] + Dwarf(l, f));
    } else {
      assert ids + [] == ids;
    }
  }

  /** What FuncInfo k says, with the numbers known when it was written. */
  ghost predicate Says(l: Link, c: Codes, st: St, infos: seq<seq<Byte>>, k: nat)
    requires k < |infos|
  {
    TextFunc(l, k).Some?
      && infos[k] == GoObject.PutInfo(InfoOf(c, InformingAll(l, c, st, k).index, TextFunc(l, k).value), l.startLines)
  }

  lemma {:induction false} InfosWritten(l: Link, c: Codes, st: St, n: nat)
    requires LinkOk(l) && n <= |l.text| && st.infos == []
    ensures var infos := InformingAll(l, c, st, n).infos; |infos| == n && forall k :: 0 <= k < n ==>
      Says(l, c, st, infos, k)
  {
    hide LinkOk, GoObject.PutInfo, InfoOf, Informing, Owned, InfoAt, TextFunc, InfoIds;
    if n > 0 {
      InfosWritten(l, c, st, n - 1);
      TextKnown(l, n - 1);
      InformedOwns(l, c, st, n - 1);
      InformingOwns(l, c, st, InformingAll(l, c, st, n - 1), InfoIds(l, n - 1), n - 1);
      forall k | 0 <= k < n
        ensures Says(l, c, st, InformingAll(l, c, st, n).infos, k)
      {
        if k < n - 1 { assert Says(l, c, st, InformingAll(l, c, st, n - 1).infos, k); }
      }
    }
  }

  /** A number stays right when the package's own definitions grow. */
  lemma DenotesGrows(l: Link, b: Blocks, more: seq<nat>, r: Ref, s: nat)
    requires Denotes(l, b, r, s)
    ensures Denotes(l, b.(defs := b.defs + more), r, s)
  {
  }

  lemma {:induction false} InfoPrefix(l: Link, n: nat, k: nat)
    requires k <= n
    ensures |InfoIds(l, k)| <= |InfoIds(l, n)| && InfoIds(l, n)[..|InfoIds(l, k)|] == InfoIds(l, k)
  {
    hide InfoAt;
    if k < n { InfoPrefix(l, n - 1, k); }
  }

  // ----- the reader's numbering -----

  /** All symbol records in the order of their blocks. */
  function Records(b: Blocks): seq<nat> { b.defs + b.hashed64 + b.hashed + b.nonpkgdefs + b.nonpkgrefs }

  /** Where a reader looks: it counts through the blocks. */
  function Position(b: Blocks, r: Ref): nat {
    match r.pkg
    case Self => r.idx
    case Hashed64 => |b.defs| + r.idx
    case Hashed => |b.defs| + |b.hashed64| + r.idx
    case _ => |b.defs| + |b.hashed64| + |b.hashed| + r.idx
  }

  lemma ReaderFinds(l: Link, b: Blocks, r: Ref, s: nat)
    requires Denotes(l, b, r, s) && r.pkg != BuiltinPkg
    ensures Position(b, r) < |Records(b)| && Records(b)[Position(b, r)] == s
  {
  }

  /** Two symbols share a reference only if they are the same builtin. */
  lemma ReferencesAreOwn(l: Link, st: St, s: nat, t: nat)
    requires Resolves(l, st) && s in st.index && t in st.index && st.index[s] == st.index[t]
    ensures s == t || (st.index[s].pkg == BuiltinPkg && s < |l.syms| && t < |l.syms|
      && l.syms[s].name == l.syms[t].name)
  {
    assert Denotes(l, st.b, st.index[s], s) && Denotes(l, st.b, st.index[t], t);
  }
}
