/** The symbols of a Go object under construction, what each refers to, and the
    order in which the writer's traversals visit them. */
module GoSymbols {
  import opened Options
  import opened ByteType
  import opened Counting

  type Name = seq<Byte>

  /** Symbols are named by their position in the link. Numbers are words as they
      will be written; `typ` is none for a relocation type the release lacks. */
  datatype Rel = Rel(off: nat, size: Byte, typ: Option<nat>, add: nat, target: Option<nat>)

  /** One inlined call; `fileSym` is the symbol of its source file. */
  datatype Inl = Inl(parent: nat, file: nat, line: nat, func: Option<nat>, parentPc: nat, fileSym: nat)

  /** `fileNos` and `fileSyms` are the files the function uses, in order. */
  datatype Func = Func(args: nat, locals: nat, id: Byte, flag: Byte, startLine: nat, fileNos: seq<nat>,
                       fileSyms: seq<nat>, inl: seq<Inl>, pcsp: Option<nat>, pcfile: Option<nat>, pcline: Option<nat>,
                       pcinline: Option<nat>, pcdata: seq<Option<nat>>, funcdata: seq<Option<nat>>,
                       ranges: Option<nat>, lines: Option<nat>, info: Option<nat>)

  /** The rest of a symbol's record; none if its kind or alignment has no rule. */
  datatype Head = Head(kind: Byte, flag: Byte, flag2: Byte, align: nat)

  /** `hashed` marks content-addressable symbols, `pcTable` pc-value tables. */
  datatype Sym = Sym(name: Name, abi: nat, unexported: bool, hashed: bool, pcTable: bool, head: Option<Head>,
                     size: nat, data: seq<Byte>, relocs: seq<Rel>, func: Option<Func>)

  datatype Builtin = Builtin(name: Name, abi: nat)

  /** `wrappers` makes builtins match by ABI too, `inlFiles` makes inlined calls
      refer to their files, `startLines` puts start lines into FuncInfos; `files`
      is the file table. */
  datatype Link = Link(syms: seq<Sym>, text: seq<nat>, data: seq<nat>, builtins: seq<Builtin>, wrappers: bool,
                       inlFiles: bool, startLines: bool, files: seq<Name>)

  function Present(os: seq<Option<nat>>): (s: seq<nat>)
    ensures forall x :: x in s <==> Some(x) in os
  {
    if os == [] then []
    else (if os[0].Some? then [os[0].value] else []) + Present(os[1..])
  }

  // ----- what a link mentions -----

  function Targets(rs: seq<Rel>): (ts: seq<nat>)
    ensures forall x :: x in ts <==> exists k :: 0 <= k < |rs| && rs[k].target == Some(x)
  {
    if rs == [] then [] else
      var n := |rs| - 1;
      var ts := Targets(rs[..n]) + if rs[n].target.Some? then [rs[n].target.value] else [];
      assert forall x :: x in ts ==> exists k :: 0 <= k < |rs| && rs[k].target == Some(x) by { Appending(rs); }
      ts
  }

  lemma Appending(rs: seq<Rel>)
    requires rs != []
    ensures forall k :: 0 <= k < |rs| - 1 ==> rs[..|rs| - 1][k] == rs[k]
  {
  }

  function PcTables(f: Func): seq<nat> { Present([f.pcsp, f.pcfile, f.pcline, f.pcinline] + f.pcdata) }

  function InlMentions(files: bool, ns: seq<Inl>): seq<nat> {
    if ns == [] then []
    else Present([ns[0].func]) + (if files then [ns[0].fileSym] else []) + InlMentions(files, ns[1..])
  }

  predicate Known(l: Link, ids: seq<nat>) { forall k :: 0 <= k < |ids| ==> ids[k] < |l.syms| }

  predicate FuncKnown(l: Link, f: Func) {
    && Known(l, PcTables(f)) && Known(l, Present(f.funcdata)) && Known(l, f.fileSyms)
      && Known(l, InlMentions(true, f.inl))
    && Known(l, Present([f.ranges, f.lines, f.info])) && |f.fileNos| == |f.fileSyms|
  }

  predicate SymKnown(l: Link, s: Sym) { Known(l, Targets(s.relocs)) && (s.func.Some? ==> FuncKnown(l, s.func.value)) }

  /** References stay inside the link, no symbol is declared twice, and exactly
      the functions are text. */
  ghost predicate LinkOk(l: Link) {
    && Known(l, l.text + l.data) && Distinct(l.text + l.data)
    && (forall s :: 0 <= s < |l.syms| ==> SymKnown(l, l.syms[s]))
    && (forall s :: 0 <= s < |l.syms| ==> (l.syms[s].func.Some? <==> s in l.text))
  }

  // ----- traversal -----

  datatype Flags = Flags(defs: bool, refs: bool, aux: bool, pcdata: bool)

  const DEFS := Flags(true, false, false, true)
  const REFS := Flags(false, true, true, false)
  const ALL := Flags(true, true, true, true)

  /** The DWARF symbols that have contents. */
  function Dwarf(l: Link, f: Func): (ds: seq<nat>)
    ensures Known(l, ds)
  {
    NonEmpty(l, [f.ranges, f.lines, f.info])
  }

  function NonEmpty(l: Link, os: seq<Option<nat>>): (ds: seq<nat>)
    ensures Known(l, ds) && forall d :: d in ds <==> Some(d) in os && d < |l.syms| && l.syms[d].size != 0
  {
    if os == [] then []
    else
      (if os[0].Some? && os[0].value < |l.syms| && l.syms[os[0].value].size != 0 then [os[0].value] else [])
      + NonEmpty(l, os[1..])
  }

  function DwarfVisits(l: Link, refs: bool, ds: seq<nat>): seq<nat>
    requires Known(l, ds)
  {
    if ds == [] then []
    else [ds[0]] + (if refs then Targets(l.syms[ds[0]].relocs) else []) + DwarfVisits(l, refs, ds[1..])
  }

  function AuxVisits(l: Link, refs: bool, f: Func): seq<nat> {
    Present(f.funcdata) + f.fileSyms + InlMentions(l.inlFiles, f.inl) + DwarfVisits(l, refs, Dwarf(l, f))
  }

  /** The symbols a traversal visits at s, in order. */
  function VisitsAt(l: Link, fl: Flags, s: nat): seq<nat>
    requires s < |l.syms|
  {
    var x := l.syms[s];
    (if fl.defs then [s] else []) + (if fl.refs then Targets(x.relocs) else [])
    + (if fl.aux && x.func.Some? then AuxVisits(l, fl.refs, x.func.value) else [])
    + (if fl.pcdata && x.func.Some? then PcTables(x.func.value) else [])
  }

  function VisitsOf(l: Link, fl: Flags, roots: seq<nat>): seq<nat>
    requires Known(l, roots)
  {
    if roots == [] then [] else
      var n := |roots| - 1;
      VisitsOf(l, fl, roots[..n]) + VisitsAt(l, fl, roots[n])
  }

  /** A traversal of the whole link: text first, then data. */
  function Visits(l: Link, fl: Flags): seq<nat>
    requires Known(l, l.text + l.data)
  {
    VisitsOf(l, fl, l.text + l.data)
  }

  lemma {:induction false} VisitedAt(l: Link, fl: Flags, roots: seq<nat>, k: nat, t: nat)
    requires Known(l, roots) && k < |roots|
    requires t in VisitsAt(l, fl, roots[k])
    ensures t in VisitsOf(l, fl, roots)
  {
    hide VisitsAt;
    if k < |roots| - 1 { VisitedAt(l, fl, roots[..|roots| - 1], k, t); }
  }

  lemma {:induction false} KnownDwarf(l: Link, refs: bool, ds: seq<nat>)
    requires Known(l, ds) && forall s :: 0 <= s < |l.syms| ==> SymKnown(l, l.syms[s])
    ensures Known(l, DwarfVisits(l, refs, ds))
  {
    if ds != [] {
      assert SymKnown(l, l.syms[ds[0]]);
      KnownDwarf(l, refs, ds[1..]);
    }
  }

  lemma {:induction false} FewerInl(l: Link, files: bool, ns: seq<Inl>)
    requires Known(l, InlMentions(true, ns))
    ensures Known(l, InlMentions(files, ns))
  {
    if ns != [] {
      var own, file, rest := Present([ns[0].func]), [ns[0].fileSym], InlMentions(true, ns[1..]);
      KnownParts(l, own + file, rest);
      KnownParts(l, own, file);
      FewerInl(l, files, ns[1..]);
    }
  }

  lemma KnownParts(l: Link, a: seq<nat>, b: seq<nat>)
    ensures Known(l, a + b) <==> Known(l, a) && Known(l, b)
  {
    if Known(l, a + b) {
      assert forall k :: 0 <= k < |a| ==> (a + b)[k] == a[k];
      assert forall k :: 0 <= k < |b| ==> (a + b)[|a| + k] == b[k];
    }
  }

  lemma KnownAux(l: Link, refs: bool, f: Func)
    requires FuncKnown(l, f) && forall s :: 0 <= s < |l.syms| ==> SymKnown(l, l.syms[s])
    ensures Known(l, AuxVisits(l, refs, f))
  {
    var a, b, c, d := Present(f.funcdata), f.fileSyms, InlMentions(l.inlFiles, f.inl),
      DwarfVisits(l, refs, Dwarf(l, f));
    KnownDwarf(l, refs, Dwarf(l, f));
    FewerInl(l, l.inlFiles, f.inl);
    hide Known;
    KnownParts(l, a, b);
    KnownParts(l, a + b, c);
    KnownParts(l, a + b + c, d);
  }

  lemma KnownAt(l: Link, fl: Flags, s: nat)
    requires s < |l.syms| && forall s :: 0 <= s < |l.syms| ==> SymKnown(l, l.syms[s])
    ensures Known(l, VisitsAt(l, fl, s))
  {
    var x := l.syms[s];
    assert SymKnown(l, x) && Known(l, [s]) && Known(l, []);
    var a := if fl.defs then [s] else [];
    var b := if fl.refs then Targets(x.relocs) else [];
    var c := if fl.aux && x.func.Some? then AuxVisits(l, fl.refs, x.func.value) else [];
    var d := if fl.pcdata && x.func.Some? then PcTables(x.func.value) else [];
    if x.func.Some? { KnownAux(l, fl.refs, x.func.value); }
    hide Known, AuxVisits, PcTables;
    KnownParts(l, a, b);
    KnownParts(l, a + b, c);
    KnownParts(l, a + b + c, d);
  }

  lemma {:induction false} KnownVisits(l: Link, fl: Flags, roots: seq<nat>)
    requires Known(l, roots) && forall s :: 0 <= s < |l.syms| ==> SymKnown(l, l.syms[s])
    ensures Known(l, VisitsOf(l, fl, roots))
  {
    hide VisitsAt, SymKnown;
    if roots != [] {
      KnownVisits(l, fl, roots[..|roots| - 1]);
      KnownAt(l, fl, roots[|roots| - 1]);
    }
  }

  /** The traversal as a loop over text and data. */
  method Traverse(l: Link, fl: Flags) returns (ids: seq<nat>)
    requires Known(l, l.text + l.data)
    ensures ids == Visits(l, fl)
  {
    hide VisitsAt;
    var roots := l.text + l.data;
    ids := [];
    for n := 0 to |roots|
      invariant ids == VisitsOf(l, fl, roots[..n])
    {
      assert roots[..n + 1][..n] == roots[..n];
      ids := ids + VisitsAt(l, fl, roots[n]);
    }
    assert roots[..|roots|] == roots;
  }

  // ----- what each traversal reaches -----

  lemma {:induction false} DwarfVisited(l: Link, refs: bool, ds: seq<nat>, d: nat)
    requires Known(l, ds) && d in ds
    ensures d < |l.syms| && d in DwarfVisits(l, refs, ds)
    ensures refs ==> forall t :: t in Targets(l.syms[d].relocs) ==> t in DwarfVisits(l, refs, ds)
  {
    if d != ds[0] { DwarfVisited(l, refs, ds[1..], d); }
  }

  /** Everything that is written about a root refers to visited symbols: the
      targets of its relocations, its auxiliary symbols with their relocations'
      targets, and its inlined functions. */
  lemma RootVisited(l: Link, k: nat, t: nat)
    requires LinkOk(l) && k < |l.text + l.data|
    ensures var s := (l.text + l.data)[k];
      && s < |l.syms| && s in Visits(l, DEFS)
      && (t in Targets(l.syms[s].relocs) ==> t in Visits(l, REFS))
      && (l.syms[s].func.Some? && t in PcTables(l.syms[s].func.value) ==> t in Visits(l, DEFS))
  {
    hide FuncKnown, AuxVisits, PcTables;
    var roots := l.text + l.data;
    var s := roots[k];
    assert SymKnown(l, l.syms[s]);
    VisitedAt(l, DEFS, roots, k, s);
    if t in Targets(l.syms[s].relocs) { VisitedAt(l, REFS, roots, k, t); }
    if l.syms[s].func.Some? && t in PcTables(l.syms[s].func.value) { VisitedAt(l, DEFS, roots, k, t); }
  }

  lemma {:induction false} InlVisited(files: bool, ns: seq<Inl>, k: nat)
    requires k < |ns| && ns[k].func.Some?
    ensures ns[k].func.value in InlMentions(files, ns)
  {
    if k == 0 {
      assert Some(ns[0].func.value) in [ns[0].func];
    } else {
      InlVisited(files, ns[1..], k - 1);
    }
  }

  /** The same for what a function refers to besides its own relocations. */
  lemma FuncVisited(l: Link, k: nat, t: nat)
    requires LinkOk(l) && k < |l.text|
    ensures l.text[k] < |l.syms| && l.syms[l.text[k]].func.Some?
    ensures var f := l.syms[l.text[k]].func.value;
      && FuncKnown(l, f)
      && (Some(t) in f.funcdata ==> t in Visits(l, REFS))
      && (t in Dwarf(l, f) ==> t in Visits(l, REFS))
      && (forall d :: d in Dwarf(l, f) && d < |l.syms| && t in Targets(l.syms[d].relocs) ==> t in Visits(l, REFS))
      && (forall j :: 0 <= j < |f.inl| && f.inl[j].func == Some(t) ==> t in Visits(l, REFS))
  {
    var s, roots := l.text[k], l.text + l.data;
    assert roots[k] == s && s in l.text;
    assert SymKnown(l, l.syms[s]);
    var f := l.syms[s].func.value;
    if t in AuxVisits(l, true, f) {
      assert t in VisitsAt(l, REFS, s);
      VisitedAt(l, REFS, roots, k, t);
    }
    InAux(l, f, t);
  }

  lemma InAux(l: Link, f: Func, t: nat)
    ensures Some(t) in f.funcdata ==> t in AuxVisits(l, true, f)
    ensures t in Dwarf(l, f) ==> t in AuxVisits(l, true, f)
    ensures forall d :: d in Dwarf(l, f) && d < |l.syms| && t in Targets(l.syms[d].relocs) ==>
      t in AuxVisits(l, true, f)
    ensures forall j :: 0 <= j < |f.inl| && f.inl[j].func == Some(t) ==> t in AuxVisits(l, true, f)
  {
    forall d | d in Dwarf(l, f) && d < |l.syms| && (d == t || t in Targets(l.syms[d].relocs))
      ensures t in AuxVisits(l, true, f)
    {
      DwarfVisited(l, true, Dwarf(l, f), d);
    }
    forall j | 0 <= j < |f.inl| && f.inl[j].func == Some(t)
      ensures t in AuxVisits(l, true, f)
    {
      InlVisited(l.inlFiles, f.inl, j);
    }
  }

  /** What a traversal of definitions visits: the roots and their pc-value tables. */
  ghost predicate DefinedBy(l: Link, roots: seq<nat>, k: nat, t: nat)
    requires Known(l, roots) && k < |roots|
  {
    t == roots[k] || (l.syms[roots[k]].func.Some? && t in PcTables(l.syms[roots[k]].func.value))
  }

  lemma {:induction false} DefsComeFrom(l: Link, roots: seq<nat>, t: nat) returns (k: nat)
    requires Known(l, roots) && t in VisitsOf(l, DEFS, roots)
    ensures k < |roots| && DefinedBy(l, roots, k, t)
  {
    hide PcTables;
    var n := |roots| - 1;
    if t in VisitsOf(l, DEFS, roots[..n]) {
      k := DefsComeFrom(l, roots[..n], t);
    } else {
      assert t in VisitsAt(l, DEFS, roots[n]);
      k := n;
    }
  }

  /** Function k of the text. */
  function TextFunc(l: Link, k: nat): Option<Func> {
    if k < |l.text| && l.text[k] < |l.syms| then l.syms[l.text[k]].func else None
  }

  lemma TextKnown(l: Link, k: nat)
    requires LinkOk(l) && k < |l.text|
    ensures l.text[k] < |l.syms| && TextFunc(l, k).Some? && l.syms[l.text[k]].func == TextFunc(l, k)
    ensures FuncKnown(l, TextFunc(l, k).value)
  {
    assert (l.text + l.data)[k] == l.text[k] && l.text[k] in l.text && SymKnown(l, l.syms[l.text[k]]);
  }
}
