/** What a reader gets back from a written link: every symbol's record,
    relocations, auxiliary symbols and contents return, and every reference in
    them leads to the record of the symbol it was written for, or to its builtin. */
module GoRead {
  import opened Options
  import opened ByteType
  import opened LittleEndian
  import opened Counting
  import opened GoSymbols
  import opened GoNumbers
  import opened GoOrder
  import opened GoWrite

  // ----- every reference that is written has a number -----

  /** Pc-value tables bring no references of their own, unless the object is refused. */
  ghost predicate PcTablesPlain(l: Link) {
    forall k, t :: 0 <= k < |l.text| && TextFunc(l, k).Some? && t in PcTables(TextFunc(l, k).value) && t < |l.syms| ==>
      l.syms[t].hashed || l.syms[t].relocs == []
  }

  lemma {:induction false} InfoFrom(l: Link, n: nat, s: nat) returns (k: nat)
    requires s in InfoIds(l, n)
    ensures k < n && s in InfoAt(l, k)
  {
    hide InfoAt;
    if s in InfoAt(l, n - 1) { k := n - 1; } else { k := InfoFrom(l, n - 1, s); }
  }

  lemma {:induction false} InfoInto(l: Link, n: nat, k: nat, s: nat)
    requires k < n && s in InfoAt(l, k)
    ensures s in InfoIds(l, n)
  {
    hide InfoAt;
    if k < n - 1 { InfoInto(l, n - 1, k, s); }
  }

  /** Numbered symbols stay numbered while FuncInfos are made. */
  lemma StaysNumbered(l: Link, c: Codes, k: nat, t: nat)
    requires LinkOk(l) && (t in Visits(l, DEFS) || t in Visits(l, REFS))
    ensures t in Numbered(l).index && t in InformingAll(l, c, Numbered(l), k).index && t in Final(l, c).index
  {
    hide LinkOk, Visits, Numbered, InformingAll, InfoIds;
    NumberedExactly(l);
    InformedOwns(l, c, Numbered(l), k);
    InformedOwns(l, c, Numbered(l), |l.text|);
  }

  lemma InfoNumbered(l: Link, c: Codes, k: nat, s: nat)
    requires LinkOk(l) && k < |l.text| && s in InfoAt(l, k)
    ensures s in Final(l, c).index && Final(l, c).index[s].pkg == Self
  {
    hide LinkOk, Numbered, InformingAll, InfoAt;
    InfoInto(l, |l.text|, k, s);
    InformedOwns(l, c, Numbered(l), |l.text|);
  }

  /** The blocks of the finished object. */
  lemma FinalBlocks(l: Link, c: Codes)
    requires LinkOk(l)
    ensures Known(l, Visits(l, DEFS))
    ensures Final(l, c).b.defs == Select(l, Visits(l, DEFS), Self) + InfoIds(l, |l.text|)
    ensures Final(l, c).b.hashed64 == Select(l, Visits(l, DEFS), Hashed64)
    ensures Final(l, c).b.hashed == Select(l, Visits(l, DEFS), Hashed)
    ensures Final(l, c).b.nonpkgdefs == Select(l, Visits(l, DEFS), NoPkg)
    ensures Final(l, c).b.nonpkgrefs == Numbered(l).b.nonpkgrefs
  {
    hide LinkOk, Visits, Numbered, InformingAll, InfoIds, Select;
    NumberedExactly(l);
    InformedOwns(l, c, Numbered(l), |l.text|);
    var b := Numbered(l).b;
    assert Defs(b, Self) == b.defs && Defs(b, Hashed64) == b.hashed64 && Defs(b, Hashed) == b.hashed
      && Defs(b, NoPkg) == b.nonpkgdefs;
  }

  /** A defined symbol is a visited definition, a FuncInfo or a DWARF symbol. */
  lemma DefinitionIs(l: Link, c: Codes, s: nat)
    requires LinkOk(l) && s in Definitions(Final(l, c).b)
    ensures s in Visits(l, DEFS) || s in InfoIds(l, |l.text|)
  {
    hide SymKnown, Visits, Final, InfoIds, Select;
    FinalBlocks(l, c);
    var ids := Visits(l, DEFS);
    SelectFrom(l, ids, Self, s);
    SelectFrom(l, ids, Hashed64, s);
    SelectFrom(l, ids, Hashed, s);
    SelectFrom(l, ids, NoPkg, s);
  }

  /** A pc-value table with relocations refuses the object. */
  lemma PcTableHasNone(rel: Release, l: Link, k: nat, s: nat)
    requires LinkOk(l) && Writable(rel, l) && PcTablesPlain(l) && k < |l.text| && TextFunc(l, k).Some?
    requires s in PcTables(TextFunc(l, k).value) && s in Visits(l, DEFS) && s < |l.syms|
    ensures l.syms[s].relocs == []
  {
    hide SymKnown, Visits, Final, InfoIds, Select, PcTables, Numberable;
    FinalBlocks(l, rel.codes);
    SelectFrom(l, Visits(l, DEFS), Hashed, s);
  }

  lemma TargetNumbered(rel: Release, l: Link, s: nat, t: nat)
    requires LinkOk(l) && Writable(rel, l) && PcTablesPlain(l) && s in Definitions(Final(l, rel.codes).b)
    requires s < |l.syms| && t in Targets(l.syms[s].relocs)
    ensures t in Final(l, rel.codes).index
  {
    hide Visits, Final, InfoIds, Writable, PcTablesPlain, SymKnown, Definitions, Targets, PcTables, Dwarf;
    DefinitionIs(l, rel.codes, s);
    if s in Visits(l, DEFS) {
      DefinedTarget(rel, l, s, t);
    } else {
      var k := InfoFrom(l, |l.text|, s);
      TextKnown(l, k);
      FuncVisited(l, k, t);
    }
    StaysNumbered(l, rel.codes, 0, t);
  }

  lemma DefinedTarget(rel: Release, l: Link, s: nat, t: nat)
    requires LinkOk(l) && Writable(rel, l) && PcTablesPlain(l) && s in Visits(l, DEFS)
    requires s < |l.syms| && t in Targets(l.syms[s].relocs)
    ensures t in Visits(l, REFS)
  {
    hide Final, InfoIds, Writable, PcTablesPlain, SymKnown, Targets, PcTables, VisitsOf;
    var roots := l.text + l.data;
    var k := DefsComeFrom(l, roots, s);
    RootVisited(l, k, t);
    if s != roots[k] {
      assert roots[k] in l.text;
      var j := IndexIn(l.text, roots[k]);
      TextKnown(l, j);
      PcTableHasNone(rel, l, j, s);
      NoTargets();
    }
  }

  lemma NoTargets()
    ensures Targets([]) == []
  {
  }

  lemma InGiven(l: Link, typ: Byte, o: Option<nat>, x: (Byte, Option<nat>))
    ensures x in Given(l, typ, o) ==> x.1 == o && o.Some? && o.value < |l.syms| && l.syms[o.value].size != 0
  {
  }

  lemma InEach(typ: Byte, os: seq<Option<nat>>, x: (Byte, Option<nat>))
    ensures x in Each(typ, os) ==> x.1 in os
  {
  }

  /** Where an auxiliary symbol comes from. */
  ghost predicate AuxFrom(l: Link, s: nat, f: Func, t: nat) {
    t == |l.syms| + IndexIn(l.text, s) || Some(t) in f.funcdata || t in Dwarf(l, f) || t in PcTables(f)
  }

  lemma AuxCome(rel: Release, l: Link, s: nat, x: (Byte, Option<nat>))
    requires x in AuxOf(rel, l, s) && x.1.Some?
    ensures s < |l.syms| && l.syms[s].func.Some? && AuxFrom(l, s, l.syms[s].func.value, x.1.value)
  {
    var f, t, a := l.syms[s].func.value, x.1.value, rel.aux;
    assert Some(t) in [f.ranges, f.lines, f.info] && t < |l.syms| && l.syms[t].size != 0 ==> t in Dwarf(l, f);
    assert Some(t) in [f.pcsp, f.pcfile, f.pcline, f.pcinline] + f.pcdata ==> t in PcTables(f);
    hide IndexIn, Given, Each, Dwarf, PcTables;
    InEach(a.funcdata, f.funcdata, x);
    InEach(a.pcdata, f.pcdata, x);
    InGiven(l, a.info, f.info, x);
    InGiven(l, a.ranges, f.ranges, x);
    InGiven(l, a.lines, f.lines, x);
    InGiven(l, a.pcsp, f.pcsp, x);
    InGiven(l, a.pcfile, f.pcfile, x);
    InGiven(l, a.pcline, f.pcline, x);
    InGiven(l, a.pcinline, f.pcinline, x);
  }

  lemma AuxNumbered(rel: Release, l: Link, s: nat, x: (Byte, Option<nat>))
    requires LinkOk(l) && x in AuxOf(rel, l, s) && x.1.Some?
    ensures x.1.value in Final(l, rel.codes).index
  {
    hide Final, InfoIds, SymKnown, PcTables, Dwarf, AuxOf, Visits;
    AuxCome(rel, l, s, x);
    var t, k := x.1.value, IndexIn(l.text, s);
    assert s in l.text;
    TextKnown(l, k);
    FuncVisited(l, k, t);
    RootVisited(l, k, t);
    assert (l.text + l.data)[k] == s;
    if t == |l.syms| + k { InfoNumbered(l, rel.codes, k, t); } else { StaysNumbered(l, rel.codes, 0, t); }
  }

  lemma InlNumbered(l: Link, c: Codes, k: nat, j: nat)
    requires LinkOk(l) && k < |l.text| && TextFunc(l, k).Some? && j < |TextFunc(l, k).value.inl|
    requires TextFunc(l, k).value.inl[j].func.Some?
    ensures TextFunc(l, k).value.inl[j].func.value in InformingAll(l, c, Numbered(l), k).index
  {
    hide SymKnown, PcTables, Dwarf, Visits, InformingAll, Numbered;
    TextKnown(l, k);
    var t := TextFunc(l, k).value.inl[j].func.value;
    FuncVisited(l, k, t);
    StaysNumbered(l, c, k, t);
  }

  // ----- every name that is written was added -----

  lemma {:induction false} VisitsCome(l: Link, fl: Flags, roots: seq<nat>, t: nat) returns (k: nat)
    requires Known(l, roots) && t in VisitsOf(l, fl, roots)
    ensures k < |roots| && t in VisitsAt(l, fl, roots[k])
  {
    hide VisitsAt;
    var n := |roots| - 1;
    if t in VisitsAt(l, fl, roots[n]) { k := n; } else { k := VisitsCome(l, fl, roots[..n], t); }
  }

  /** The full traversal visits what the others visit. */
  lemma VisitsAll(l: Link, fl: Flags, t: nat)
    requires Known(l, l.text + l.data) && (fl == DEFS || fl == REFS) && t in Visits(l, fl)
    ensures t in Visits(l, ALL)
  {
    hide VisitsOf, AuxVisits, Targets, PcTables;
    var k := VisitsCome(l, fl, l.text + l.data, t);
    VisitedAt(l, ALL, l.text + l.data, k, t);
  }

  lemma {:induction false} NameListed(rel: Release, l: Link, st: St, ids: seq<nat>, s: nat)
    requires s in ids && !(s in st.index && st.index[s].pkg == BuiltinPkg)
    ensures RecOf(rel, l, st, s).name in NamesOf(rel, l, st, ids)
  {
    hide RecOf;
    if ids[|ids| - 1] != s { NameListed(rel, l, st, ids[..|ids| - 1], s); }
  }

  /** References without definition are numbered as such. */
  lemma {:induction false} ReferredList(l: Link, st: St, ids: seq<nat>, s: nat)
    requires Known(l, ids) && st.b.nonpkgrefs == [] && s in ReferringAll(l, st, ids).b.nonpkgrefs
    ensures s in ids && s in ReferringAll(l, st, ids).index && ReferringAll(l, st, ids).index[s].pkg == NoPkg
  {
    hide BuiltinOf;
    var n := |ids| - 1;
    if s in ReferringAll(l, st, ids[..n]).b.nonpkgrefs { ReferredList(l, st, ids[..n], s); }
  }

  /** A symbol with a record is visited, or a FuncInfo, and is no builtin. */
  lemma RecordedIs(l: Link, c: Codes, s: nat)
    requires LinkOk(l) && s in Records(Final(l, c).b)
    ensures s in Final(l, c).index && Final(l, c).index[s].pkg != BuiltinPkg
    ensures s < |l.syms| ==> s in Visits(l, ALL)
  {
    hide SymKnown, Visits, InformingAll, InfoIds, Select;
    var st := Final(l, c);
    InformedOwns(l, c, Numbered(l), |l.text|);
    if s in Definitions(st.b) {
      DefinitionIs(l, c, s);
      if s in InfoIds(l, |l.text|) {
        var k := InfoFrom(l, |l.text|, s);
        InfoNumbered(l, c, k, s);
        if s < |l.syms| { DwarfIsVisited(l, k, s); }
      } else {
        DefinedBlock(l, c, s);
        VisitsAll(l, DEFS, s);
      }
    } else {
      FinalBlocks(l, c);
      OnlyReferred(l, s);
      VisitsAll(l, REFS, s);
    }
  }

  lemma DwarfIsVisited(l: Link, k: nat, s: nat)
    requires LinkOk(l) && k < |l.text| && s in InfoAt(l, k) && s < |l.syms|
    ensures s in Visits(l, ALL)
  {
    hide SymKnown, Visits, Dwarf;
    TextKnown(l, k);
    FuncVisited(l, k, s);
    VisitsAll(l, REFS, s);
  }

  lemma DefinedBlock(l: Link, c: Codes, s: nat)
    requires LinkOk(l) && s in Visits(l, DEFS)
    ensures s in Final(l, c).index && Final(l, c).index[s].pkg != BuiltinPkg
  {
    hide SymKnown, Visits, InformingAll, InfoIds, Select, Numbered, BlockOf;
    NumberedExactly(l);
    InformedOwns(l, c, Numbered(l), |l.text|);
    BlocksAreReal(l.syms[s]);
  }

  lemma OnlyReferred(l: Link, s: nat)
    requires LinkOk(l) && s in Numbered(l).b.nonpkgrefs
    ensures s in Visits(l, REFS) && s in Numbered(l).index && Numbered(l).index[s].pkg == NoPkg
  {
    hide SymKnown, Visits, DefiningAll, ReferringAll;
    VisitsKnown(l);
    DefinedResolve(l, Visits(l, DEFS));
    ReferredList(l, DefiningAll(l, EMPTY, Visits(l, DEFS)), Visits(l, REFS), s);
  }

  lemma NameAdded(rel: Release, l: Link, s: nat)
    requires LinkOk(l) && s in Records(Final(l, rel.codes).b)
    ensures RecOf(rel, l, Final(l, rel.codes), s).name in ObjOf(rel, l, Final(l, rel.codes)).strings
  {
    hide SymKnown, Visits, Final, Records, ItemsOf, RecsOf, HashOf, Hash64Of;
    RecordedIs(l, rel.codes, s);
    if s < |l.syms| { NameListed(rel, l, Final(l, rel.codes), Visits(l, ALL), s); }
  }

  // ----- sizes -----

  ghost predicate Word(v: nat) { v < Pow256(4) }

  ghost predicate RelFits(r: Rel) {
    Word(r.off) && (r.typ.Some? ==> r.typ.value < Pow256(2)) && r.add < Pow256(8)
  }

  ghost predicate FuncFits(f: Func) {
    && Word(f.args) && Word(f.locals) && Word(f.startLine) && Word(|f.fileNos|) && Word(|f.inl|)
    && (forall k :: 0 <= k < |f.fileNos| ==> Word(f.fileNos[k]))
    && (forall k :: 0 <= k < |f.inl| ==>
      Word(f.inl[k].parent) && Word(f.inl[k].file) && Word(f.inl[k].line) && Word(f.inl[k].parentPc))
  }

  /** The numbers of a symbol fit their fields. */
  ghost predicate SymFits(x: Sym) {
    && x.abi < Pow256(2) && Word(x.size) && (x.head.Some? ==> Word(x.head.value.align))
    && (forall k :: 0 <= k < |x.relocs| ==> RelFits(x.relocs[k])) && (x.func.Some? ==> FuncFits(x.func.value))
  }

  ghost predicate LinkFits(l: Link) { Word(|l.builtins|) && forall s :: 0 <= s < |l.syms| ==> SymFits(l.syms[s]) }

  /** The release's package words are different from each other and from 0. */
  ghost predicate ReleaseOk(rel: Release) {
    var c := rel.codes;
    && GoFile.FormatOk(rel.format) && rel.hiddenAbi < Pow256(2)
    && Word(c.self) && Word(c.none) && Word(c.hashed64) && Word(c.hashed) && Word(c.builtin)
    && Distinct([0, c.self, c.none, c.hashed64, c.hashed, c.builtin])
  }

  /** The file is smaller than 4 GB. */
  ghost predicate FileFits(rel: Release, l: Link)
    requires LinkOk(l)
  {
    Word(|GoFile.FileOf(rel.format, ObjOf(rel, l, Final(l, rel.codes)))|)
  }

  lemma RecordCount(rel: Release, l: Link, st: St)
    requires LinkOk(l)
    ensures |ObjOf(rel, l, st).Records()| == |Records(st.b)|
    ensures forall i :: 0 <= i < |Records(st.b)| ==>
      ObjOf(rel, l, st).Records()[i] == RecOf(rel, l, st, Records(st.b)[i])
  {
    hide SymKnown, Visits, RecOf, RelsOf, AuxOf, DataOf, NamesOf, HashOf, Hash64Of;
    GoFile.RecordsSplit(ObjOf(rel, l, st));
  }

  lemma ItemCount(rel: Release, l: Link, st: St)
    requires LinkOk(l)
    ensures ObjOf(rel, l, st).Items() == ItemsOf(rel, l, st, Definitions(st.b))
  {
    hide SymKnown, Visits, ItemOf, NamesOf, HashOf, Hash64Of;
  }

  lemma FewSymbols(rel: Release, l: Link)
    requires LinkOk(l) && FileFits(rel, l)
    ensures Word(|Records(Final(l, rel.codes).b)|)
  {
    hide SymKnown, Final, ObjOf, GoFile.FileOf, Pow256, GoFile.PutRec, GoFile.Strings, GoFile.Offset;
    var o, f := ObjOf(rel, l, Final(l, rel.codes)), rel.format;
    RecordCount(rel, l, Final(l, rel.codes));
    GoFile.SymbolsAt(f, o);
    var recs := GoFile.PutRecs(GoFile.Strings(f, o), o.Records());
    GoObject.FixedStart(recs, GoFile.SYM_SIZE, |recs|);
    assert recs[..|recs|] == recs;
  }

  lemma IdxSmall(rel: Release, l: Link, r: Ref, t: nat)
    requires LinkOk(l) && FileFits(rel, l) && LinkFits(l) && Denotes(l, Final(l, rel.codes).b, r, t)
    ensures Word(r.idx)
  {
    hide SymKnown, Final, ObjOf, GoFile.FileOf, Pow256, SymFits, FileFits;
    FewSymbols(rel, l);
    if r.pkg != BuiltinPkg { ReaderFinds(l, Final(l, rel.codes).b, r, t); }
  }

  lemma CodeFits(rel: Release, p: Pkg)
    requires ReleaseOk(rel)
    ensures Word(rel.codes.Of(p))
  {
  }

  /** The words of a reference fit, numbered or not. */
  lemma RefFits(rel: Release, l: Link, t: Option<nat>)
    requires LinkOk(l) && FileFits(rel, l) && LinkFits(l) && ReleaseOk(rel)
    ensures var w := RefWords(rel.codes, Final(l, rel.codes).index, t); Word(w.0) && Word(w.1)
  {
    hide SymKnown, Final, ObjOf, GoFile.FileOf, SymFits, FileFits, ReleaseOk, Word, LinkFits, Denotes;
    ZeroFits();
    var st := Final(l, rel.codes);
    if t.Some? && t.value in st.index {
      FinalResolves(l, rel.codes);
      IdxSmall(rel, l, st.index[t.value], t.value);
      CodeFits(rel, st.index[t.value].pkg);
    }
  }

  lemma ZeroFits()
    ensures Word(0)
  {
  }

  lemma DataSmall(rel: Release, l: Link, i: nat)
    requires LinkOk(l) && FileFits(rel, l) && i < |Definitions(Final(l, rel.codes).b)|
    ensures Word(|DataOf(l, Final(l, rel.codes), Definitions(Final(l, rel.codes).b)[i])|)
  {
    hide SymKnown, Final, GoFile.FileOf, Pow256, GoFile.Strings, GoFile.Offset, NamesOf, Visits, DataOf, RecOf, RelsOf,
      AuxOf;
    var st, f := Final(l, rel.codes), rel.format;
    var o := ObjOf(rel, l, st);
    ItemCount(rel, l, st);
    GoFile.PieceAt(f, o, GoFile.DataBlk);
    var parts := GoFile.DataParts(o.Items());
    GoObject.FlatSlice(parts, i);
    assert parts[i] == DataOf(l, st, Definitions(st.b)[i]);
  }

  lemma RecFits(rel: Release, l: Link, i: nat)
    requires LinkOk(l) && FileFits(rel, l) && LinkFits(l) && ReleaseOk(rel) && i < |Records(Final(l, rel.codes).b)|
    ensures GoFile.RecOk(RecOf(rel, l, Final(l, rel.codes), Records(Final(l, rel.codes).b)[i]))
  {
    hide SymKnown, Final, GoFile.FileOf, ObjOf, FileFits, DataOf, Shown, GoFile.FormatOk;
    var st := Final(l, rel.codes);
    var s := Records(st.b)[i];
    if s < |l.syms| {
      assert SymFits(l.syms[s]);
    } else {
      InfoIsDefined(l, rel.codes, i);
      DataSmall(rel, l, i);
    }
  }

  /** FuncInfos are definitions. */
  lemma InfoIsDefined(l: Link, c: Codes, i: nat)
    requires LinkOk(l) && i < |Records(Final(l, c).b)| && Records(Final(l, c).b)[i] >= |l.syms|
    ensures i < |Definitions(Final(l, c).b)| && Definitions(Final(l, c).b)[i] == Records(Final(l, c).b)[i]
  {
    hide SymKnown, Final, Visits, Numbered, Select, InfoIds;
    var st := Final(l, c);
    if i >= |Definitions(st.b)| {
      FinalBlocks(l, c);
      var s := Records(st.b)[i];
      assert s in Numbered(l).b.nonpkgrefs;
      OnlyReferred(l, s);
      VisitsKnown(l);
    }
  }

  lemma RelocFits(rel: Release, l: Link, r: Rel)
    requires LinkOk(l) && FileFits(rel, l) && LinkFits(l) && ReleaseOk(rel) && RelFits(r)
    ensures GoObject.RelocOk(RelocWords(rel, Final(l, rel.codes), r))
  {
    hide SymKnown, Final, FileFits, LinkFits, ReleaseOk, RefWords;
    RefFits(rel, l, r.target);
  }

  lemma ItemFits(rel: Release, l: Link, i: nat)
    requires LinkOk(l) && FileFits(rel, l) && LinkFits(l) && ReleaseOk(rel) && i < |Definitions(Final(l, rel.codes).b)|
    ensures GoFile.ItemOk(ItemOf(rel, l, Final(l, rel.codes), Definitions(Final(l, rel.codes).b)[i]))
  {
    hide SymKnown, Final, FileFits, ReleaseOk, RefWords, RecOf, GoFile.RecOk, GoObject.RelocOk, RelFits, AuxOf,
      StableSort, DataOf;
    var st := Final(l, rel.codes);
    var s := Definitions(st.b)[i];
    assert Records(st.b)[i] == s;
    RecFits(rel, l, i);
    var rs, xs := RelsOf(rel, l, s), AuxOf(rel, l, s);
    forall k | 0 <= k < |rs|
      ensures GoObject.RelocOk(RelocWords(rel, st, rs[k]))
    {
      assert SymFits(l.syms[s]);
      SortedSame(l.syms[s].relocs, rs[k]);
      RelocFits(rel, l, rs[k]);
    }
    forall k | 0 <= k < |xs|
      ensures GoObject.AuxOk(AuxWords(rel, st, xs[k]))
    {
      RefFits(rel, l, xs[k].1);
    }
  }

  /** The object can be read back. */
  lemma ObjectFits(rel: Release, l: Link)
    requires LinkOk(l) && FileFits(rel, l) && LinkFits(l) && ReleaseOk(rel)
    ensures GoFile.ObjOk(ObjOf(rel, l, Final(l, rel.codes)))
  {
    hide SymKnown, Final, FileFits, ReleaseOk, LinkFits, RecOf, GoFile.RecOk, GoFile.ItemOk, ItemOf, Visits, NamesOf,
      HashOf, Hash64Of,
      GoFile.Recs;
    var st := Final(l, rel.codes);
    var o := ObjOf(rel, l, st);
    ItemCount(rel, l, st);
    RecordCount(rel, l, st);
    forall i | 0 <= i < |o.Items()|
      ensures GoFile.ItemOk(o.Items()[i])
    {
      ItemFits(rel, l, i);
    }
    forall i | 0 <= i < |o.nonpkgrefs|
      ensures GoFile.RecOk(o.nonpkgrefs[i])
    {
      assert Records(st.b)[|Definitions(st.b)| + i] == st.b.nonpkgrefs[i];
      RecFits(rel, l, |Definitions(st.b)| + i);
    }
    forall i | 0 <= i < |o.Records()|
      ensures o.Records()[i].name in o.strings
    {
      NameAdded(rel, l, Records(st.b)[i]);
    }
  }

  // ----- where a reference leads -----

  datatype Found = Record(i: nat) | BuiltinFn(k: nat) | Nothing

  /** A reader looks up a reference: package word and number. */
  function Resolve(f: GoFile.Format, c: Codes, b: seq<Byte>, pkg: nat, idx: nat): Found {
    match GoFile.ReadSizes(f, b)
    case None => Nothing
    case Some(z) =>
      var nonpkg := z.defs + z.hashed64 + z.hashed;
      var ndef := nonpkg + z.nonpkgdefs;
      if pkg == c.none then (if nonpkg + idx < ndef + z.nonpkgrefs then Record(nonpkg + idx) else Nothing)
      else if pkg == c.self then (if idx < ndef then Record(idx) else Nothing)
      else if pkg == c.hashed64 then Record(z.defs + idx)
      else if pkg == c.hashed then Record(z.defs + z.hashed64 + idx)
      else if pkg == c.builtin then BuiltinFn(idx) else Nothing
  }

  /** The two words lead to t: to its own record, or to the builtin of its name
      and ABI; and nowhere if there is no t. */
  ghost predicate Leads(rel: Release, l: Link, file: seq<Byte>, pkg: nat, idx: nat, t: Option<nat>)
    requires LinkOk(l)
  {
    var st := Final(l, rel.codes);
    match Resolve(rel.format, rel.codes, file, pkg, idx)
    case Nothing => t.None?
    case Record(i) =>
      t.Some? && At(Records(st.b), i, t.value)
        && GoFile.ReadSym(rel.format, file, i) == Some(RecOf(rel, l, st, t.value))
    case BuiltinFn(k) =>
      && t.Some? && t.value < |l.syms| && k < |l.builtins| && l.builtins[k].name == l.syms[t.value].name
      && (l.wrappers ==> l.builtins[k].abi == l.syms[t.value].abi)
  }

  lemma BlockSizes(rel: Release, l: Link)
    requires LinkOk(l) && FileFits(rel, l) && ReleaseOk(rel)
    ensures var b := Final(l, rel.codes).b;
      GoFile.ReadSizes(rel.format, GoFile.FileOf(rel.format, ObjOf(rel, l, Final(l, rel.codes))))
        == Some(GoFile.Sizes(|b.defs|, |b.hashed64|, |b.hashed|, |b.nonpkgdefs|, |b.nonpkgrefs|))
  {
    hide SymKnown, Final, GoFile.FileOf, GoFile.ReadSizes, GoFile.FormatOk, Visits, ItemOf, RecOf, NamesOf, HashOf,
      Hash64Of;
    GoFile.SizesBack(rel.format, ObjOf(rel, l, Final(l, rel.codes)));
  }

  /** The codes tell the packages apart. */
  lemma CodesDiffer(rel: Release, p: Pkg)
    requires ReleaseOk(rel)
    ensures rel.codes.Of(p) != 0
    ensures forall q: Pkg :: rel.codes.Of(p) == rel.codes.Of(q) ==> p == q
  {
    hide GoFile.FormatOk, Word;
    var c := rel.codes;
    var ws := [0, c.self, c.none, c.hashed64, c.hashed, c.builtin];
    assert ws[0] == 0 && ws[1] == c.self && ws[2] == c.none && ws[3] == c.hashed64 && ws[4] == c.hashed
      && ws[5] == c.builtin;
  }

  lemma ResolveFinds(rel: Release, l: Link, r: Ref, t: nat)
    requires LinkOk(l) && FileFits(rel, l) && ReleaseOk(rel) && Denotes(l, Final(l, rel.codes).b, r, t)
    ensures var file := GoFile.FileOf(rel.format, ObjOf(rel, l, Final(l, rel.codes)));
      Resolve(rel.format, rel.codes, file, rel.codes.Of(r.pkg), r.idx)
        == if r.pkg == BuiltinPkg then BuiltinFn(r.idx) else Record(Position(Final(l, rel.codes).b, r))
  {
    hide SymKnown, Final, GoFile.FileOf, GoFile.ReadSizes, ObjOf, ReleaseOk, FileFits;
    BlockSizes(rel, l);
    CodesDiffer(rel, r.pkg);
    var c := rel.codes;
    assert c.Of(NoPkg) == c.none && c.Of(Self) == c.self && c.Of(Hashed64) == c.hashed64 && c.Of(Hashed) == c.hashed
      && c.Of(BuiltinPkg) == c.builtin;
  }

  lemma RecordReads(rel: Release, l: Link, i: nat)
    requires LinkOk(l) && FileFits(rel, l) && LinkFits(l) && ReleaseOk(rel) && i < |Records(Final(l, rel.codes).b)|
    ensures GoFile.ReadSym(rel.format, GoFile.FileOf(rel.format, ObjOf(rel, l, Final(l, rel.codes))), i)
      == Some(RecOf(rel, l, Final(l, rel.codes), Records(Final(l, rel.codes).b)[i]))
  {
    hide SymKnown, Final, GoFile.FileOf, GoFile.ReadSym, ObjOf, LinkFits, GoFile.FormatOk, RecOf, Records, GoFile.RecOk;
    var st := Final(l, rel.codes);
    var o := ObjOf(rel, l, st);
    RecordCount(rel, l, st);
    RecFits(rel, l, i);
    NameAdded(rel, l, Records(st.b)[i]);
    GoFile.SymBack(rel.format, o, i);
  }

  /** Any number that denotes t leads to t. */
  lemma RefLeads(rel: Release, l: Link, r: Ref, t: nat)
    requires LinkOk(l) && FileFits(rel, l) && LinkFits(l) && ReleaseOk(rel) && Denotes(l, Final(l, rel.codes).b, r, t)
    ensures Leads(rel, l, GoFile.FileOf(rel.format, ObjOf(rel, l, Final(l, rel.codes))), rel.codes.Of(r.pkg), r.idx,
      Some(t))
  {
    hide SymKnown, Final, GoFile.FileOf, GoFile.ReadSym, ObjOf, LinkFits, ReleaseOk, RecOf, Resolve, FileFits;
    ResolveFinds(rel, l, r, t);
    if r.pkg != BuiltinPkg {
      ReaderFinds(l, Final(l, rel.codes).b, r, t);
      RecordReads(rel, l, Position(Final(l, rel.codes).b, r));
    }
  }

  lemma NoneLeads(rel: Release, l: Link)
    requires LinkOk(l) && FileFits(rel, l) && ReleaseOk(rel)
    ensures Leads(rel, l, GoFile.FileOf(rel.format, ObjOf(rel, l, Final(l, rel.codes))), 0, 0, None)
  {
    hide SymKnown, Final, GoFile.FileOf, GoFile.ReadSym, ObjOf, ReleaseOk, GoFile.ReadSizes, FileFits;
    BlockSizes(rel, l);
    CodesDiffer(rel, Self);
    CodesDiffer(rel, NoPkg);
    CodesDiffer(rel, Hashed64);
    CodesDiffer(rel, Hashed);
    CodesDiffer(rel, BuiltinPkg);
  }

  /** The words written for a numbered symbol, or for none, lead to it. */
  lemma WordsLead(rel: Release, l: Link, t: Option<nat>)
    requires LinkOk(l) && FileFits(rel, l) && LinkFits(l) && ReleaseOk(rel)
    requires t.Some? ==> t.value in Final(l, rel.codes).index
    ensures var w := RefWords(rel.codes, Final(l, rel.codes).index, t);
      Leads(rel, l, GoFile.FileOf(rel.format, ObjOf(rel, l, Final(l, rel.codes))), w.0, w.1, t)
  {
    hide SymKnown, Final, GoFile.FileOf, ObjOf, LinkFits, ReleaseOk, FileFits, Leads, Denotes;
    if t.Some? {
      FinalResolves(l, rel.codes);
      RefLeads(rel, l, Final(l, rel.codes).index[t.value], t.value);
    } else {
      NoneLeads(rel, l);
    }
  }

  // ----- the round trip -----

  /** A relocation as it was given, whose reference leads to its target. */
  ghost predicate RelocBack(rel: Release, l: Link, file: seq<Byte>, g: GoObject.Reloc, r: Rel)
    requires LinkOk(l)
  {
    && g.off == r.off && g.size == r.size && r.typ == Some(g.typ) && g.add == r.add
    && Leads(rel, l, file, g.pkg, g.idx, r.target)
  }

  ghost predicate AuxBack(rel: Release, l: Link, file: seq<Byte>, g: GoObject.Aux, x: (Byte, Option<nat>))
    requires LinkOk(l)
  {
    g.typ == x.0 && Leads(rel, l, file, g.pkg, g.idx, x.1)
  }

  /** Symbol s, as the link has it. */
  ghost predicate ItemBack(rel: Release, l: Link, file: seq<Byte>, x: GoFile.Item, s: nat)
    requires LinkOk(l)
  {
    var st, rs, xs := Final(l, rel.codes), RelsOf(rel, l, s), AuxOf(rel, l, s);
    && x.rec == RecOf(rel, l, st, s) && x.data == DataOf(l, st, s)
    && |x.relocs| == |rs| && (forall k :: 0 <= k < |rs| ==> RelocBack(rel, l, file, x.relocs[k], rs[k]))
    && |x.aux| == |xs| && (forall k :: 0 <= k < |xs| ==> AuxBack(rel, l, file, x.aux[k], xs[k]))
  }

  /** What is assumed of a link and a release. */
  ghost predicate Ready(rel: Release, l: Link) {
    LinkOk(l) && Writable(rel, l) && PcTablesPlain(l) && LinkFits(l) && ReleaseOk(rel) && FileFits(rel, l)
  }

  lemma RelocComesBack(rel: Release, l: Link, s: nat, k: nat)
    requires Ready(rel, l) && s in Definitions(Final(l, rel.codes).b) && k < |RelsOf(rel, l, s)|
    ensures RelocBack(rel, l, GoFile.FileOf(rel.format, ObjOf(rel, l, Final(l, rel.codes))),
                      RelocWords(rel, Final(l, rel.codes), RelsOf(rel, l, s)[k]), RelsOf(rel, l, s)[k])
  {
    hide SymKnown, Final, GoFile.FileOf, ObjOf, LinkFits, ReleaseOk, FileFits, Leads, Definitions, RefWords, StableSort,
      PcTablesPlain,
      Numberable, Recordable;
    var rs := RelsOf(rel, l, s);
    SortedSame(l.syms[s].relocs, rs[k]);
    if rs[k].target.Some? { TargetNumbered(rel, l, s, rs[k].target.value); }
    WordsLead(rel, l, rs[k].target);
  }

  lemma AuxComesBack(rel: Release, l: Link, s: nat, k: nat)
    requires Ready(rel, l) && k < |AuxOf(rel, l, s)|
    ensures AuxBack(rel, l, GoFile.FileOf(rel.format, ObjOf(rel, l, Final(l, rel.codes))),
                    AuxWords(rel, Final(l, rel.codes), AuxOf(rel, l, s)[k]), AuxOf(rel, l, s)[k])
  {
    hide SymKnown, Final, GoFile.FileOf, ObjOf, LinkFits, ReleaseOk, FileFits, Leads, RefWords, PcTablesPlain, Writable,
      AuxOf;
    var x := AuxOf(rel, l, s)[k];
    if x.1.Some? { AuxNumbered(rel, l, s, x); }
    WordsLead(rel, l, x.1);
  }

  /** Every defined symbol is read back with its record, its contents, its
      relocations and its auxiliary symbols, and every reference in them leads to
      the symbol it was written for. */
  lemma SymbolComesBack(rel: Release, l: Link, i: nat)
    requires Ready(rel, l) && i < |Definitions(Final(l, rel.codes).b)|
    ensures var file := GoFile.FileOf(rel.format, ObjOf(rel, l, Final(l, rel.codes)));
      var x := GoFile.ReadItem(rel.format, file, i);
      x.Some? && ItemBack(rel, l, file, x.value, Definitions(Final(l, rel.codes).b)[i])
  {
    hide SymKnown, Final, GoFile.FileOf, LinkFits, FileFits, Writable, PcTablesPlain, GoFile.ReadItem, RecOf, DataOf,
      AuxOf, RelsOf,
      RelocBack, AuxBack, GoFile.FormatOk, Definitions, RelocWords, AuxWords, ObjOf, GoFile.ObjOk;
    var st := Final(l, rel.codes);
    var o, s := ObjOf(rel, l, st), Definitions(st.b)[i];
    ObjectFits(rel, l);
    ItemCount(rel, l, st);
    FileWord(rel, l);
    GoFile.ItemBack(rel.format, o, i);
    forall k | 0 <= k < |RelsOf(rel, l, s)|
      ensures RelocBack(rel, l, GoFile.FileOf(rel.format, o), RelocWords(rel, st, RelsOf(rel, l, s)[k]),
        RelsOf(rel, l, s)[k])
    {
      RelocComesBack(rel, l, s, k);
    }
    forall k | 0 <= k < |AuxOf(rel, l, s)|
      ensures AuxBack(rel, l, GoFile.FileOf(rel.format, o), AuxWords(rel, st, AuxOf(rel, l, s)[k]), AuxOf(rel, l, s)[k])
    {
      AuxComesBack(rel, l, s, k);
    }
  }

  lemma FileWord(rel: Release, l: Link)
    requires LinkOk(l) && FileFits(rel, l)
    ensures |GoFile.FileOf(rel.format, ObjOf(rel, l, Final(l, rel.codes)))| < Pow256(4)
  {
  }

  // ----- FuncInfo contents -----

  /** A number given early is still right in the finished object. */
  lemma EarlyNumber(l: Link, c: Codes, k: nat, t: nat)
    requires LinkOk(l) && k <= |l.text| && t in InformingAll(l, c, Numbered(l), k).index
    ensures Denotes(l, Final(l, c).b, InformingAll(l, c, Numbered(l), k).index[t], t)
  {
    hide SymKnown, Numbered, InformingAll, InfoIds, Denotes;
    FinalResolves(l, c);
    InformedResolve(l, c, Numbered(l), k);
    InformedOwns(l, c, Numbered(l), k);
    InformedOwns(l, c, Numbered(l), |l.text|);
    InfoPrefix(l, |l.text|, k);
    var b, ids, all := Numbered(l).b, InfoIds(l, k), InfoIds(l, |l.text|);
    var rest := all[|ids|..];
    assert b.defs + all == b.defs + ids + rest;
    DenotesGrows(l, b.(defs := b.defs + ids), rest, InformingAll(l, c, Numbered(l), k).index[t], t);
  }

  /** What the FuncInfo of f says: its numbers, and references that lead to its
      inlined functions. */
  ghost predicate InfoBack(rel: Release, l: Link, file: seq<Byte>, g: GoObject.Info, f: Func)
    requires LinkOk(l)
  {
    && g.args == f.args && g.locals == f.locals && g.id == f.id && g.flag == f.flag && g.files == f.fileNos
    && g.startLine == (if l.startLines then f.startLine else 0) && |g.inl| == |f.inl|
    && forall j :: 0 <= j < |f.inl| ==>
      && g.inl[j].parent == f.inl[j].parent && g.inl[j].file == f.inl[j].file && g.inl[j].line == f.inl[j].line
      && g.inl[j].parentPc == f.inl[j].parentPc && Leads(rel, l, file, g.inl[j].pkg, g.inl[j].idx, f.inl[j].func)
  }

  lemma InlLeads(rel: Release, l: Link, k: nat, j: nat)
    requires Ready(rel, l) && k < |l.text| && TextFunc(l, k).Some? && j < |TextFunc(l, k).value.inl|
    ensures var w := RefWords(rel.codes, InformingAll(l, rel.codes, Numbered(l), k).index,
      TextFunc(l, k).value.inl[j].func);
      && Word(w.0) && Word(w.1)
      && Leads(rel, l, GoFile.FileOf(rel.format, ObjOf(rel, l, Final(l, rel.codes))), w.0, w.1,
        TextFunc(l, k).value.inl[j].func)
  {
    hide SymKnown, Final, Numbered, InformingAll, GoFile.FileOf, ObjOf, LinkFits, ReleaseOk, FileFits, Leads, Denotes,
      Word, Writable,
      PcTablesPlain;
    var t, index := TextFunc(l, k).value.inl[j].func, InformingAll(l, rel.codes, Numbered(l), k).index;
    ZeroFits();
    if t.Some? {
      InlNumbered(l, rel.codes, k, j);
      EarlyNumber(l, rel.codes, k, t.value);
      RefLeads(rel, l, index[t.value], t.value);
      IdxSmall(rel, l, index[t.value], t.value);
      CodeFits(rel, index[t.value].pkg);
    } else {
      NoneLeads(rel, l);
    }
  }

  lemma InfoFits(rel: Release, l: Link, k: nat)
    requires Ready(rel, l) && k < |l.text| && TextFunc(l, k).Some?
    ensures GoObject.InfoOk(InfoOf(rel.codes, InformingAll(l, rel.codes, Numbered(l), k).index, TextFunc(l, k).value))
  {
    hide SymKnown, Final, Numbered, InformingAll, GoFile.FileOf, ObjOf, ReleaseOk, FileFits, Leads, Writable,
      PcTablesPlain, RefWords,
      Pow256;
    TextKnown(l, k);
    var f := TextFunc(l, k).value;
    assert SymFits(l.syms[l.text[k]]);
    forall j | 0 <= j < |f.inl|
      ensures GoObject.InlOk(InlWords(rel.codes, InformingAll(l, rel.codes, Numbered(l), k).index, f.inl[j]))
    {
      InlLeads(rel, l, k, j);
    }
  }

  lemma InfoSaid(l: Link, c: Codes, k: nat)
    requires LinkOk(l) && k < |l.text|
    ensures TextFunc(l, k).Some?
    ensures DataOf(l, Final(l, c), |l.syms| + k)
      == GoObject.PutInfo(InfoOf(c, InformingAll(l, c, Numbered(l), k).index, TextFunc(l, k).value), l.startLines)
  {
    hide SymKnown, Numbered, InformingAll, GoObject.PutInfo, InfoOf, TextFunc;
    TextKnown(l, k);
    NumberedExactly(l);
    InfosWritten(l, c, Numbered(l), |l.text|);
    assert Says(l, c, Numbered(l), Final(l, c).infos, k);
  }

  /** FuncInfo k, read from its contents. */
  ghost predicate InfoReads(rel: Release, l: Link, file: seq<Byte>, k: nat)
    requires LinkOk(l)
  {
    var g := GoObject.GetInfo(DataOf(l, Final(l, rel.codes), |l.syms| + k), l.startLines);
    TextFunc(l, k).Some? && g.Some? && InfoBack(rel, l, file, g.value, TextFunc(l, k).value)
  }

  /** The FuncInfo of every function decodes to what the function says. */
  lemma InfoComesBack(rel: Release, l: Link, k: nat)
    requires Ready(rel, l) && k < |l.text|
    ensures InfoReads(rel, l, GoFile.FileOf(rel.format, ObjOf(rel, l, Final(l, rel.codes))), k)
  {
    hide SymKnown, Numbered, InformingAll, GoFile.FileOf, ObjOf, ReleaseOk, FileFits, Leads, Writable, PcTablesPlain,
      RefWords,
      GoObject.PutInfo, GoObject.GetInfo, LinkFits, GoObject.InfoOk, TextFunc, Word, Final, DataOf;
    InfoSaid(l, rel.codes, k);
    var f, index := TextFunc(l, k).value, InformingAll(l, rel.codes, Numbered(l), k).index;
    InfoFits(rel, l, k);
    GoObject.InfoBack(InfoOf(rel.codes, index, f), l.startLines);
    forall j | 0 <= j < |f.inl|
      ensures var w := RefWords(rel.codes, index, f.inl[j].func);
        Leads(rel, l, GoFile.FileOf(rel.format, ObjOf(rel, l, Final(l, rel.codes))), w.0, w.1, f.inl[j].func)
    {
      InlLeads(rel, l, k, j);
    }
  }

  // ----- one statement -----

  /** Defined symbol i, with everything about it. */
  ghost predicate SymbolReads(rel: Release, l: Link, file: seq<Byte>, i: nat)
    requires LinkOk(l) && i < |Definitions(Final(l, rel.codes).b)|
  {
    var x := GoFile.ReadItem(rel.format, file, i);
    x.Some? && ItemBack(rel, l, file, x.value, Definitions(Final(l, rel.codes).b)[i])
  }

  /** The number of symbol t leads to it. */
  ghost predicate NumberLeads(rel: Release, l: Link, file: seq<Byte>, t: nat)
    requires LinkOk(l) && t in Final(l, rel.codes).index
  {
    var r := Final(l, rel.codes).index[t];
    Leads(rel, l, file, rel.codes.Of(r.pkg), r.idx, Some(t))
  }

  /** Everything about a written file: the file table, every defined symbol, every
      number, every FuncInfo. */
  ghost predicate ReadsBack(rel: Release, l: Link, file: seq<Byte>)
    requires LinkOk(l)
  {
    && GoFile.ReadFiles(rel.format, file) == Some(l.files)
    && (forall i :: 0 <= i < |Definitions(Final(l, rel.codes).b)| ==> SymbolReads(rel, l, file, i))
    && (forall t :: t in Final(l, rel.codes).index ==> NumberLeads(rel, l, file, t))
    && forall k :: 0 <= k < |l.text| ==> InfoReads(rel, l, file, k)
  }

  lemma LinkComesBack(rel: Release, l: Link)
    requires Ready(rel, l)
    ensures ReadsBack(rel, l, GoFile.FileOf(rel.format, ObjOf(rel, l, Final(l, rel.codes))))
  {
    hide SymKnown, Final, GoFile.FileOf, LinkFits, FileFits, Writable, PcTablesPlain, InfoReads, GoFile.ReadFiles,
      Definitions, ObjOf,
      GoFile.FormatOk, SymbolReads, NumberLeads, GoFile.ObjOk;
    var o := ObjOf(rel, l, Final(l, rel.codes));
    ObjectFits(rel, l);
    FileWord(rel, l);
    GoFile.FilesBack(rel.format, o);
    FilesAre(rel, l, Final(l, rel.codes));
    forall i | 0 <= i < |Definitions(Final(l, rel.codes).b)|
      ensures SymbolReads(rel, l, GoFile.FileOf(rel.format, o), i)
    {
      SymbolIsRead(rel, l, i);
    }
    forall t | t in Final(l, rel.codes).index
      ensures NumberLeads(rel, l, GoFile.FileOf(rel.format, o), t)
    {
      NumberIsRead(rel, l, t);
    }
    forall k | 0 <= k < |l.text|
      ensures InfoReads(rel, l, GoFile.FileOf(rel.format, o), k)
    {
      InfoComesBack(rel, l, k);
    }
  }

  lemma SymbolIsRead(rel: Release, l: Link, i: nat)
    requires Ready(rel, l) && i < |Definitions(Final(l, rel.codes).b)|
    ensures SymbolReads(rel, l, GoFile.FileOf(rel.format, ObjOf(rel, l, Final(l, rel.codes))), i)
  {
    hide Ready, LinkOk, Final, GoFile.FileOf, ObjOf, GoFile.ReadItem, ItemBack, Definitions;
    SymbolComesBack(rel, l, i);
  }

  lemma NumberIsRead(rel: Release, l: Link, t: nat)
    requires Ready(rel, l) && t in Final(l, rel.codes).index
    ensures NumberLeads(rel, l, GoFile.FileOf(rel.format, ObjOf(rel, l, Final(l, rel.codes))), t)
  {
    hide SymKnown, Final, GoFile.FileOf, ObjOf, Leads, Denotes, LinkFits, FileFits, Writable, PcTablesPlain, ReleaseOk;
    FinalResolves(l, rel.codes);
    RefLeads(rel, l, Final(l, rel.codes).index[t], t);
  }

  lemma FilesAre(rel: Release, l: Link, st: St)
    requires LinkOk(l)
    ensures ObjOf(rel, l, st).files == l.files
  {
  }

  /** Writing then reading an object is faithful. The writer refuses exactly the
      links that are not writable; any other file, opened behind its text header,
      gives back every symbol, and every reference leads to its symbol. */
  method WriteThenRead(rel: Release, l: Link, text: seq<Byte>) returns (file: Option<seq<Byte>>)
    requires LinkOk(l) && PcTablesPlain(l) && LinkFits(l) && ReleaseOk(rel) && GoFile.TextOk(rel.format, text)
    ensures file.None? <==> !Writable(rel, l)
    ensures file.Some? && FileFits(rel, l) ==>
      var b := GoFile.Open(rel.format, file.value); b.Some? && ReadsBack(rel, l, b.value)
  {
    hide SymKnown, Final, GoFile.FileOf, ObjOf, LinkFits, FileFits, Writable, PcTablesPlain, ReadsBack, GoFile.TextOk,
      GoFile.Open;
    var b := WriteLink(rel, l);
    if b.None? { return None; }
    file := Some(text + GoFile.MARK + b.value);
    GoFile.OpenBack(rel.format, ObjOf(rel, l, Final(l, rel.codes)), text);
    if FileFits(rel, l) { LinkComesBack(rel, l); }
  }
}
