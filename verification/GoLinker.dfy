/** What a linker sees of a written object: which names it defines, what each
    record says, and which auxiliary symbols of each type a function has. */
module GoLinker {
  import opened Options
  import opened ByteType
  import opened GoSymbols
  import opened GoNumbers
  import opened GoOrder
  import opened GoWrite
  import opened GoRead

  /** The bytes written for a link. */
  ghost function Bytes(rel: Release, l: Link): seq<Byte>
    requires LinkOk(l)
  {
    GoFile.FileOf(rel.format, ObjOf(rel, l, Final(l, rel.codes)))
  }

  // ----- names -----

  /** Record i is a definition that other objects refer to by its name. */
  ghost predicate DefinedByName(f: GoFile.Format, file: seq<Byte>, i: nat, v: Name, abi: nat) {
    match GoFile.ReadSizes(f, file)
    case None => false
    case Some(z) =>
      var first, rec := z.defs + z.hashed64 + z.hashed, GoFile.ReadSym(f, file, i);
      first <= i < first + z.nonpkgdefs && rec.Some? && rec.value.name == v && rec.value.abi == abi
  }

  /** Symbol s defines the name for everybody: it is neither static nor content-addressable. */
  ghost predicate Exports(rel: Release, l: Link, s: nat, v: Name, abi: nat)
    requires LinkOk(l)
  {
    && s in Visits(l, DEFS) && s < |l.syms| && !l.syms[s].hashed && !l.syms[s].unexported
    && Shown(rel, l.syms[s].name) == v && l.syms[s].abi == abi
  }

  lemma ExportedBlock(l: Link, c: Codes, s: nat)
    requires LinkOk(l)
    ensures s in Final(l, c).b.nonpkgdefs <==>
      s in Visits(l, DEFS) && s < |l.syms| && !l.syms[s].hashed && !l.syms[s].unexported
  {
    hide SymKnown, Visits, Final, Select;
    FinalBlocks(l, c);
    SelectFrom(l, Visits(l, DEFS), NoPkg, s);
  }

  /** A reference from another object by name and ABI finds a definition exactly
      if the link exports one. */
  lemma NamedIff(rel: Release, l: Link, v: Name, abi: nat)
    requires Ready(rel, l)
    ensures (exists i: nat :: DefinedByName(rel.format, Bytes(rel, l), i, v, abi)) <==>
      exists s: nat :: Exports(rel, l, s, v, abi)
  {
    hide Visits, Final, Bytes, GoFile.ReadSizes, GoFile.ReadSym, LinkOk, LinkFits, Writable, FileFits, ReleaseOk,
      PcTablesPlain;
    var b := Final(l, rel.codes).b;
    var first := |b.defs| + |b.hashed64| + |b.hashed|;
    SizesOf(rel, l);
    if i: nat :| DefinedByName(rel.format, Bytes(rel, l), i, v, abi) {
      Listed(b, i - first);
      ExportedBlock(l, rel.codes, Records(b)[i]);
      SaysName(rel, l, i);
      assert Exports(rel, l, Records(b)[i], v, abi);
    }
    if s: nat :| Exports(rel, l, s, v, abi) {
      ExportedBlock(l, rel.codes, s);
      var k :| 0 <= k < |b.nonpkgdefs| && b.nonpkgdefs[k] == s;
      Listed(b, k);
      SaysName(rel, l, first + k);
      assert DefinedByName(rel.format, Bytes(rel, l), first + k, v, abi);
    }
  }

  lemma Listed(b: Blocks, k: int)
    requires 0 <= k < |b.nonpkgdefs|
    ensures var i := |b.defs| + |b.hashed64| + |b.hashed| + k; i < |Records(b)| && Records(b)[i] == b.nonpkgdefs[k]
  {
  }

  lemma SizesOf(rel: Release, l: Link)
    requires Ready(rel, l)
    ensures var b := Final(l, rel.codes).b;
      GoFile.ReadSizes(rel.format, Bytes(rel, l))
        == Some(GoFile.Sizes(|b.defs|, |b.hashed64|, |b.hashed|, |b.nonpkgdefs|, |b.nonpkgrefs|))
  {
    hide SymKnown, Final, GoFile.FileOf, GoFile.ReadSizes, LinkFits, Writable, FileFits, ReleaseOk, PcTablesPlain,
      ObjOf;
    BlockSizes(rel, l);
  }

  // ----- records -----

  /** What the record of a symbol says, field by field: a static symbol has the
      hidden ABI, a name may lose its inline marker. */
  ghost predicate Says(rel: Release, x: Sym, rec: GoFile.Rec) {
    && rec.name == (if rel.trims then Trimmed(x.name) else x.name)
      && rec.abi == (if x.unexported then rel.hiddenAbi else x.abi)
    && rec.size == x.size && x.head == Some(Head(rec.kind, rec.flag, rec.flag2, rec.align))
  }

  /** Every record that is no FuncInfo says what its symbol has. */
  lemma RecordSays(rel: Release, l: Link, i: nat)
    requires Ready(rel, l) && i < |Records(Final(l, rel.codes).b)| && Records(Final(l, rel.codes).b)[i] < |l.syms|
    ensures var rec := GoFile.ReadSym(rel.format, Bytes(rel, l), i);
      rec.Some? && Says(rel, l.syms[Records(Final(l, rel.codes).b)[i]], rec.value)
  {
    hide SymKnown, Final, GoFile.FileOf, GoFile.ReadSym, LinkFits, FileFits, ReleaseOk, PcTablesPlain, ObjOf,
      Numberable;
    RecordReads(rel, l, i);
    assert Recordable(rel, l, Records(Final(l, rel.codes).b)[i]);
  }

  lemma SaysName(rel: Release, l: Link, i: nat)
    requires Ready(rel, l) && i < |Records(Final(l, rel.codes).b)| && Records(Final(l, rel.codes).b)[i] < |l.syms|
    ensures var rec, x := GoFile.ReadSym(rel.format, Bytes(rel, l), i), l.syms[Records(Final(l, rel.codes).b)[i]];
      rec.Some? && rec.value.name == Shown(rel, x.name) && (!x.unexported ==> rec.value.abi == x.abi)
  {
    hide Ready, Final, Bytes, GoFile.ReadSym;
    RecordSays(rel, l, i);
  }

  /** Every defined symbol that is no FuncInfo has its own contents. */
  lemma ContentsAre(rel: Release, l: Link, i: nat)
    requires Ready(rel, l) && i < |Definitions(Final(l, rel.codes).b)|
      && Definitions(Final(l, rel.codes).b)[i] < |l.syms|
    ensures var x := GoFile.ReadItem(rel.format, Bytes(rel, l), i);
      x.Some? && x.value.data == l.syms[Definitions(Final(l, rel.codes).b)[i]].data
  {
    hide Ready, LinkOk, Final, GoFile.FileOf, ObjOf, GoFile.ReadItem, Definitions;
    SymbolComesBack(rel, l, i);
  }

  // ----- references -----

  /** Root s mentions t besides its pc tables: as the target of a relocation of
      its own or of its DWARF, as funcdata, source file, inlined function or DWARF. */
  ghost predicate Mentions(l: Link, s: nat, t: nat)
    requires s < |l.syms|
  {
    || t in Targets(l.syms[s].relocs)
    || (l.syms[s].func.Some? && var f := l.syms[s].func.value;
        || Some(t) in f.funcdata || t in f.fileSyms || t in InlMentions(l.inlFiles, f.inl) || t in Dwarf(l, f)
        || exists d :: d in Dwarf(l, f) && d < |l.syms| && t in Targets(l.syms[d].relocs))
  }

  lemma {:induction false} DwarfOnly(l: Link, ds: seq<nat>, t: nat)
    requires Known(l, ds) && t in DwarfVisits(l, true, ds)
    ensures t in ds || exists d :: d in ds && d < |l.syms| && t in Targets(l.syms[d].relocs)
  {
    if t != ds[0] && t !in Targets(l.syms[ds[0]].relocs) { DwarfOnly(l, ds[1..], t); }
  }

  /** The traversal of references visits nothing else. */
  lemma ReferredOnly(l: Link, t: nat) returns (s: nat)
    requires Known(l, l.text + l.data) && t in Visits(l, REFS)
    ensures s in l.text + l.data && s < |l.syms| && Mentions(l, s, t)
  {
    var k := VisitsCome(l, REFS, l.text + l.data, t);
    s := (l.text + l.data)[k];
    if l.syms[s].func.Some? && t in DwarfVisits(l, true, Dwarf(l, l.syms[s].func.value)) {
      DwarfOnly(l, Dwarf(l, l.syms[s].func.value), t);
    }
  }

  // ----- auxiliary symbols -----

  /** The symbols of one type, in order. */
  function OfType(xs: seq<(Byte, Option<nat>)>, typ: Byte): seq<Option<nat>> {
    if xs == [] then []
    else OfType(xs[..|xs| - 1], typ) + if xs[|xs| - 1].0 == typ then [xs[|xs| - 1].1] else []
  }

  lemma {:induction false} OfTypeJoin(xs: seq<(Byte, Option<nat>)>, ys: seq<(Byte, Option<nat>)>, typ: Byte)
    ensures OfType(xs + ys, typ) == OfType(xs, typ) + OfType(ys, typ)
    decreases |ys|
  {
    if ys == [] {
      assert xs + ys == xs;
    } else {
      var n := |ys| - 1;
      OfTypeJoin(xs, ys[..n], typ);
      assert (xs + ys)[..|xs + ys| - 1] == xs + ys[..n];
    }
  }

  lemma {:induction false} OfTypeEach(typ: Byte, os: seq<Option<nat>>, t: Byte)
    ensures OfType(Each(typ, os), t) == if t == typ then os else []
  {
    if os != [] {
      OfTypeEach(typ, os[..|os| - 1], t);
      assert Each(typ, os)[..|os| - 1] == Each(typ, os[..|os| - 1]);
      assert os == os[..|os| - 1] + [os[|os| - 1]];
    }
  }

  /** A symbol that is there and has contents. */
  function IfFilled(l: Link, o: Option<nat>): seq<Option<nat>> {
    if o.Some? && o.value < |l.syms| && l.syms[o.value].size != 0 then [o] else []
  }

  /** Symbols of one type each. */
  datatype Group = Group(typ: Byte, syms: seq<Option<nat>>)

  function Joined(gs: seq<Group>): seq<(Byte, Option<nat>)> {
    if gs == [] then [] else Joined(gs[..|gs| - 1]) + Each(gs[|gs| - 1].typ, gs[|gs| - 1].syms)
  }

  ghost predicate TypesDiffer(gs: seq<Group>) { forall i, j :: 0 <= i < j < |gs| ==> gs[i].typ != gs[j].typ }

  /** Types that differ keep their symbols apart. */
  lemma {:induction false} JoinedType(gs: seq<Group>, typ: Byte)
    requires TypesDiffer(gs)
    ensures forall i :: 0 <= i < |gs| && gs[i].typ == typ ==> OfType(Joined(gs), typ) == gs[i].syms
    ensures (forall i :: 0 <= i < |gs| ==> gs[i].typ != typ) ==> OfType(Joined(gs), typ) == []
  {
    if gs != [] {
      var n := |gs| - 1;
      JoinedType(gs[..n], typ);
      OfTypeJoin(Joined(gs[..n]), Each(gs[n].typ, gs[n].syms), typ);
      OfTypeEach(gs[n].typ, gs[n].syms, typ);
      forall i | 0 <= i < n && gs[i].typ == typ
        ensures gs[n].typ != typ && OfType(Joined(gs), typ) == gs[i].syms
      {
        assert gs[..n][i] == gs[i];
      }
      if gs[n].typ == typ {
        assert forall i :: 0 <= i < n ==> gs[..n][i].typ != typ;
        assert OfType(Joined(gs), typ) == [] + gs[n].syms == gs[n].syms;
      }
    }
  }

  /** What a function must have of each type: its own FuncInfo, all its funcdata
      and pcdata, and its DWARF and pc symbols that have contents. */
  function Wanted(l: Link, a: AuxTypes, k: nat, f: Func): seq<Group> {
    [Group(a.funcInfo, [Some(|l.syms| + k)]), Group(a.funcdata, f.funcdata), Group(a.info, IfFilled(l, f.info)),
     Group(a.ranges, IfFilled(l, f.ranges)), Group(a.lines, IfFilled(l, f.lines)), Group(a.pcsp, IfFilled(l, f.pcsp)),
     Group(a.pcfile, IfFilled(l, f.pcfile)), Group(a.pcline, IfFilled(l, f.pcline)),
     Group(a.pcinline, IfFilled(l, f.pcinline)), Group(a.pcdata, f.pcdata)]
  }

  lemma GivenIsEach(l: Link, typ: Byte, o: Option<nat>)
    ensures Given(l, typ, o) == Each(typ, IfFilled(l, o))
  {
  }

  function EachOf(g: Group): seq<(Byte, Option<nat>)> { Each(g.typ, g.syms) }

  lemma FirstFive(gs: seq<Group>)
    requires |gs| == 10
    ensures Joined(gs[..5]) == EachOf(gs[0]) + EachOf(gs[1]) + EachOf(gs[2]) + EachOf(gs[3]) + EachOf(gs[4])
  {
    assert gs[..0] == [] && Joined([]) == [] && [] + EachOf(gs[0]) == EachOf(gs[0]);
    hide Joined, EachOf;
    JoinedTo(gs, 0);
    JoinedTo(gs, 1);
    JoinedTo(gs, 2);
    JoinedTo(gs, 3);
    JoinedTo(gs, 4);
  }

  lemma TenJoined(gs: seq<Group>)
    requires |gs| == 10
    ensures Joined(gs) == EachOf(gs[0]) + EachOf(gs[1]) + EachOf(gs[2]) + EachOf(gs[3]) + EachOf(gs[4]) + EachOf(gs[5])
      + EachOf(gs[6]) + EachOf(gs[7]) + EachOf(gs[8]) + EachOf(gs[9])
  {
    hide Joined, EachOf;
    FirstFive(gs);
    JoinedTo(gs, 5);
    JoinedTo(gs, 6);
    JoinedTo(gs, 7);
    JoinedTo(gs, 8);
    JoinedTo(gs, 9);
    assert gs[..10] == gs;
  }

  /** The list as it is built. */
  lemma AuxParts(rel: Release, l: Link, k: nat)
    requires LinkOk(l) && k < |l.text| && TextFunc(l, k).Some?
    ensures var f, a := TextFunc(l, k).value, rel.aux;
      AuxOf(rel, l, l.text[k]) == Each(a.funcInfo, [Some(|l.syms| + k)]) + Each(a.funcdata, f.funcdata)
        + Given(l, a.info, f.info) + Given(l, a.ranges, f.ranges) + Given(l, a.lines, f.lines) +
          Given(l, a.pcsp, f.pcsp)
        + Given(l, a.pcfile, f.pcfile) + Given(l, a.pcline, f.pcline) + Given(l, a.pcinline, f.pcinline)
        + Each(a.pcdata, f.pcdata)
  {
    var a := rel.aux;
    TextOnce(l, k);
    assert Each(a.funcInfo, [Some(|l.syms| + k)]) == [(a.funcInfo, Some(|l.syms| + k))];
    hide LinkOk, Given, Each, IndexIn;
  }

  lemma WantedJoined(rel: Release, l: Link, k: nat)
    requires LinkOk(l) && k < |l.text| && TextFunc(l, k).Some?
    ensures AuxOf(rel, l, l.text[k]) == Joined(Wanted(l, rel.aux, k, TextFunc(l, k).value))
  {
    hide LinkOk, Given, Each, IfFilled, IndexIn, Joined, AuxOf, TextFunc;
    AuxParts(rel, l, k);
    var f, a := TextFunc(l, k).value, rel.aux;
    GivenIsEach(l, a.info, f.info);
    GivenIsEach(l, a.ranges, f.ranges);
    GivenIsEach(l, a.lines, f.lines);
    GivenIsEach(l, a.pcsp, f.pcsp);
    GivenIsEach(l, a.pcfile, f.pcfile);
    GivenIsEach(l, a.pcline, f.pcline);
    GivenIsEach(l, a.pcinline, f.pcinline);
    TenListed(Group(a.funcInfo, [Some(|l.syms| + k)]), Group(a.funcdata, f.funcdata),
      Group(a.info, IfFilled(l, f.info)),
      Group(a.ranges, IfFilled(l, f.ranges)), Group(a.lines, IfFilled(l, f.lines)), Group(a.pcsp, IfFilled(l, f.pcsp)),
      Group(a.pcfile, IfFilled(l, f.pcfile)), Group(a.pcline, IfFilled(l, f.pcline)),
      Group(a.pcinline, IfFilled(l, f.pcinline)), Group(a.pcdata, f.pcdata));
  }

  lemma TenListed(g0: Group, g1: Group, g2: Group, g3: Group, g4: Group, g5: Group, g6: Group, g7: Group, g8: Group,
      g9: Group)
    ensures Joined([g0, g1, g2, g3, g4, g5, g6, g7, g8, g9]) == EachOf(g0) + EachOf(g1) + EachOf(g2) + EachOf(g3)
      + EachOf(g4) + EachOf(g5) + EachOf(g6) + EachOf(g7) + EachOf(g8) + EachOf(g9)
  {
    hide Joined, EachOf;
    TenJoined([g0, g1, g2, g3, g4, g5, g6, g7, g8, g9]);
  }

  lemma JoinedTo(gs: seq<Group>, n: nat)
    requires n < |gs|
    ensures Joined(gs[..n + 1]) == Joined(gs[..n]) + EachOf(gs[n])
  {
    assert gs[..n + 1][..n] == gs[..n];
  }

  /** Function k has exactly that of each type. */
  lemma AuxByType(rel: Release, l: Link, k: nat, i: nat)
    requires LinkOk(l) && k < |l.text| && TextFunc(l, k).Some?
    requires TypesDiffer(Wanted(l, rel.aux, k, TextFunc(l, k).value)) && i < 10
    ensures var g := Wanted(l, rel.aux, k, TextFunc(l, k).value)[i]; OfType(AuxOf(rel, l, l.text[k]), g.typ) == g.syms
  {
    WantedJoined(rel, l, k);
    JoinedType(Wanted(l, rel.aux, k, TextFunc(l, k).value), Wanted(l, rel.aux, k, TextFunc(l, k).value)[i].typ);
  }

  lemma TextOnce(l: Link, k: nat)
    requires LinkOk(l) && k < |l.text|
    ensures IndexIn(l.text, l.text[k]) == k && l.text[k] < |l.syms|
  {
    var roots, j := l.text + l.data, IndexIn(l.text, l.text[k]);
    assert roots[k] == l.text[k] && roots[j] == l.text[j];
  }

  // ----- inline markers -----

  /** A name loses the first twelve characters between two hash signs, if it has
      hash signs there, and nothing else. */
  lemma MarkerTrimmed(before: Name, marker: Name, after: Name)
    requires HASH !in before && |marker| == 12
    ensures Trimmed(before + [HASH] + marker + [HASH] + after) == before + after && Trimmed(before) == before
  {
    var v := before + [HASH] + marker + [HASH] + after;
    FirstAt(before, [HASH] + marker + [HASH] + after);
    assert v == before + ([HASH] + marker + [HASH] + after);
    var rest := v[|before| + 1..];
    assert rest == marker + [HASH] + after && v[..|before|] == before && rest[13..] == after;
    FirstAt(before, []);
    assert before + [] == before;
  }

  lemma OtherKept(before: Name, rest: Name)
    requires HASH !in before && (|rest| < 13 || rest[12] != HASH)
    ensures Trimmed(before + [HASH] + rest) == before + [HASH] + rest
  {
    var v := before + [HASH] + rest;
    assert v == before + ([HASH] + rest);
    FirstAt(before, [HASH] + rest);
    assert v[|before| + 1..] == rest;
  }

  lemma {:induction false} FirstAt(before: Name, rest: Name)
    requires HASH !in before && (rest != [] ==> rest[0] == HASH)
    ensures FirstHash(before + rest) == |before|
  {
    if before != [] {
      assert before[0] in before;
      assert (before + rest)[1..] == before[1..] + rest;
      FirstAt(before[1..], rest);
    } else {
      assert before + rest == rest;
    }
  }
}
