/** Writing a link as a Go object: what is recorded about each symbol, when an
    object is refused, and the bytes of any other. */
module GoWrite {
  import opened Options
  import opened ByteType
  import opened Counting
  import opened GoSymbols
  import opened GoNumbers
  import opened GoOrder
  import GoFile

  datatype AuxTypes = AuxTypes(funcInfo: Byte, funcdata: Byte, info: Byte, ranges: Byte, lines: Byte, pcsp: Byte,
                               pcfile: Byte, pcline: Byte, pcinline: Byte, pcdata: Byte)

  /** What a release fixes about its objects. `digest` is its content hash. */
  datatype Release = Release(format: GoFile.Format, codes: Codes, aux: AuxTypes, dataKind: Option<Byte>, hiddenAbi: nat,
                             sorts: bool, trims: bool, hash64Size: nat, digest: Sym -> seq<Byte>)

  function Shown(rel: Release, v: Name): Name { if rel.trims then Trimmed(v) else v }

  function InOrder(rel: Release, rs: seq<Rel>): (ss: seq<Rel>)
    ensures |ss| == |rs|
  {
    if rel.sorts then StableSort(rs) else rs
  }

  // ----- what is written about each symbol -----

  /** The record of symbol s; symbols from |syms| on are FuncInfos. */
  function RecOf(rel: Release, l: Link, st: St, s: nat): GoFile.Rec {
    if s < |l.syms| then
      var x := l.syms[s];
      var h := if x.head.Some? then x.head.value else Head(0, 0, 0, 0);
      GoFile.Rec(Shown(rel, x.name), if x.unexported then rel.hiddenAbi
        else x.abi, h.kind, h.flag, h.flag2, x.size, h.align)
    else
      GoFile.Rec([], 0, if rel.dataKind.Some? then rel.dataKind.value else 0, 0, 0, |DataOf(l, st, s)|, 0)
  }

  function DataOf(l: Link, st: St, s: nat): seq<Byte> {
    if s < |l.syms| then l.syms[s].data else if s - |l.syms| < |st.infos| then st.infos[s - |l.syms|] else []
  }

  function RelsOf(rel: Release, l: Link, s: nat): seq<Rel> {
    if s < |l.syms| then InOrder(rel, l.syms[s].relocs) else []
  }

  function RelocWords(rel: Release, st: St, r: Rel): GoObject.Reloc {
    var w := RefWords(rel.codes, st.index, r.target);
    GoObject.Reloc(r.off, r.size, if r.typ.Some? then r.typ.value else 0, r.add, w.0, w.1)
  }

  function IndexIn(ids: seq<nat>, s: nat): (k: nat)
    ensures s in ids ==> k < |ids| && ids[k] == s
  {
    if ids == [] || ids[0] == s then 0 else 1 + IndexIn(ids[1..], s)
  }

  /** A symbol of one type, if it is there and has contents. */
  function Given(l: Link, typ: Byte, o: Option<nat>): seq<(Byte, Option<nat>)> {
    if o.Some? && o.value < |l.syms| && l.syms[o.value].size != 0 then [(typ, o)] else []
  }

  function Each(typ: Byte, os: seq<Option<nat>>): seq<(Byte, Option<nat>)> {
    seq(|os|, k requires 0 <= k < |os| => (typ, os[k]))
  }

  /** The auxiliary symbols of s in order: type and symbol. */
  function AuxOf(rel: Release, l: Link, s: nat): seq<(Byte, Option<nat>)> {
    if s >= |l.syms| || l.syms[s].func.None? then [] else
      var f, a := l.syms[s].func.value, rel.aux;
      [(a.funcInfo, Some(|l.syms| + IndexIn(l.text, s)))] + Each(a.funcdata, f.funcdata)
      + Given(l, a.info, f.info) + Given(l, a.ranges, f.ranges) + Given(l, a.lines, f.lines)
      + Given(l, a.pcsp, f.pcsp) + Given(l, a.pcfile, f.pcfile) + Given(l, a.pcline, f.pcline) +
        Given(l, a.pcinline, f.pcinline)
      + Each(a.pcdata, f.pcdata)
  }

  function AuxWords(rel: Release, st: St, x: (Byte, Option<nat>)): GoObject.Aux {
    var w := RefWords(rel.codes, st.index, x.1);
    GoObject.Aux(x.0, w.0, w.1)
  }

  function ItemOf(rel: Release, l: Link, st: St, s: nat): GoFile.Item {
    var rs, xs := RelsOf(rel, l, s), AuxOf(rel, l, s);
    GoFile.Item(RecOf(rel, l, st, s), seq(|rs|, k requires 0 <= k < |rs| => RelocWords(rel, st, rs[k])),
                seq(|xs|, k requires 0 <= k < |xs| => AuxWords(rel, st, xs[k])), DataOf(l, st, s))
  }

  function ItemsOf(rel: Release, l: Link, st: St, ids: seq<nat>): seq<GoFile.Item> {
    seq(|ids|, i requires 0 <= i < |ids| => ItemOf(rel, l, st, ids[i]))
  }

  function RecsOf(rel: Release, l: Link, st: St, ids: seq<nat>): seq<GoFile.Rec> {
    seq(|ids|, i requires 0 <= i < |ids| => RecOf(rel, l, st, ids[i]))
  }

  /** The names of the visited symbols, builtins left out. */
  function NamesOf(rel: Release, l: Link, st: St, ids: seq<nat>): seq<Name> {
    if ids == [] then [] else
      var s := ids[|ids| - 1];
      NamesOf(rel, l, st, ids[..|ids| - 1])
      + if s in st.index && st.index[s].pkg == BuiltinPkg then [] else [RecOf(rel, l, st, s).name]
  }

  /** The first eight bytes of a short symbol, padded with zeros. */
  function Hash64Of(rel: Release, l: Link, s: nat): seq<Byte> {
    var p := if s < |l.syms| then l.syms[s].data else [];
    var h := (if |p| > 8 then p[..8] else p + seq(8 - |p|, _ => 0));
    if rel.hash64Size <= 8 then h[..rel.hash64Size] else h
  }

  function HashOf(rel: Release, l: Link, s: nat): seq<Byte> { if s < |l.syms| then rel.digest(l.syms[s]) else [] }

  /** The object as it is laid out, from the finished numbering. */
  ghost function ObjOf(rel: Release, l: Link, st: St): GoFile.Obj
    requires LinkOk(l)
  {
    GoFile.Obj(ItemsOf(rel, l, st, st.b.defs), ItemsOf(rel, l, st, st.b.hashed64), ItemsOf(rel, l, st, st.b.hashed),
               ItemsOf(rel, l, st, st.b.nonpkgdefs), RecsOf(rel, l, st, st.b.nonpkgrefs),
               seq(|st.b.hashed64|, i requires 0 <= i < |st.b.hashed64| => Hash64Of(rel, l, st.b.hashed64[i])),
               seq(|st.b.hashed|, i requires 0 <= i < |st.b.hashed| => HashOf(rel, l, st.b.hashed[i])),
               l.files, [[]] + NamesOf(rel, l, st, Visits(l, ALL)) + l.files)
  }

  function Definitions(b: Blocks): seq<nat> { b.defs + b.hashed64 + b.hashed + b.nonpkgdefs }

  // ----- when an object is refused -----

  /** The record of s can be written. */
  predicate Recordable(rel: Release, l: Link, s: nat) {
    if s < |l.syms| then l.syms[s].head.Some? else rel.dataKind.Some?
  }

  predicate Typed(l: Link, s: nat) {
    s < |l.syms| ==> forall k :: 0 <= k < |l.syms[s].relocs| ==> l.syms[s].relocs[k].typ.Some?
  }

  /** An object is written exactly if it can be numbered, the end is the last
      block, every record has its kind and alignment, content-addressable symbols
      have no relocations and every relocation's type exists in the release. */
  ghost predicate Writable(rel: Release, l: Link)
    requires LinkOk(l)
  {
    Numberable(l) && Passes(rel, l, Final(l, rel.codes))
  }

  ghost predicate Passes(rel: Release, l: Link, st: St) {
    var order := rel.format.order;
    && order != [] && order[|order| - 1] == GoFile.End
    && (forall s :: s in Records(st.b) ==> Recordable(rel, l, s))
    && (forall s :: s in st.b.hashed && s < |l.syms| ==> l.syms[s].relocs == [])
    && (forall s :: s in Definitions(st.b) ==> Typed(l, s))
  }

  method AllRecordable(rel: Release, l: Link, ids: seq<nat>) returns (ok: bool)
    ensures ok <==> forall s :: s in ids ==> Recordable(rel, l, s)
  {
    for n := 0 to |ids|
      invariant forall i :: 0 <= i < n ==> Recordable(rel, l, ids[i])
    {
      if !Recordable(rel, l, ids[n]) { return false; }
    }
    return true;
  }

  method NoneRelocated(l: Link, ids: seq<nat>) returns (ok: bool)
    ensures ok <==> forall s :: s in ids && s < |l.syms| ==> l.syms[s].relocs == []
  {
    for n := 0 to |ids|
      invariant forall i :: 0 <= i < n && ids[i] < |l.syms| ==> l.syms[ids[i]].relocs == []
    {
      if ids[n] < |l.syms| && l.syms[ids[n]].relocs != [] { return false; }
    }
    return true;
  }

  method AllTyped(l: Link, ids: seq<nat>) returns (ok: bool)
    ensures ok <==> forall s :: s in ids ==> Typed(l, s)
  {
    for n := 0 to |ids|
      invariant forall i :: 0 <= i < n ==> Typed(l, ids[i])
    {
      if ids[n] < |l.syms| {
        var rs := l.syms[ids[n]].relocs;
        for k := 0 to |rs|
          invariant forall j :: 0 <= j < k ==> rs[j].typ.Some?
        {
          if rs[k].typ.None? {
            assert ids[n] in ids && !Typed(l, ids[n]);
            return false;
          }
        }
      }
    }
    return true;
  }

  method BuildItems(rel: Release, l: Link, st: St, ids: seq<nat>) returns (xs: seq<GoFile.Item>)
    ensures xs == ItemsOf(rel, l, st, ids)
  {
    hide ItemOf;
    xs := [];
    for n := 0 to |ids|
      invariant |xs| == n && forall i :: 0 <= i < n ==> xs[i] == ItemOf(rel, l, st, ids[i])
    {
      xs := xs + [ItemOf(rel, l, st, ids[n])];
    }
  }

  method BuildNames(rel: Release, l: Link, st: St, ids: seq<nat>) returns (vs: seq<Name>)
    ensures vs == NamesOf(rel, l, st, ids)
  {
    hide RecOf;
    vs := [];
    for n := 0 to |ids|
      invariant vs == NamesOf(rel, l, st, ids[..n])
    {
      assert ids[..n + 1][..n] == ids[..n];
      var s := ids[n];
      if !(s in st.index && st.index[s].pkg == BuiltinPkg) { vs := vs + [RecOf(rel, l, st, s).name]; }
    }
    assert ids[..|ids|] == ids;
  }

  method Check(rel: Release, l: Link, st: St) returns (ok: bool)
    ensures ok <==> Passes(rel, l, st)
  {
    hide Recordable, Typed;
    var order := rel.format.order;
    if order == [] || order[|order| - 1] != GoFile.End { return false; }
    var recordable := AllRecordable(rel, l, Records(st.b));
    var plain := NoneRelocated(l, st.b.hashed);
    var typed := AllTyped(l, Definitions(st.b));
    return recordable && plain && typed;
  }

  /** Everything the file will hold. */
  method Collect(rel: Release, l: Link, st: St) returns (o: GoFile.Obj)
    requires LinkOk(l)
    ensures o == ObjOf(rel, l, st)
  {
    hide SymKnown, Visits, ItemsOf, RecOf, NamesOf, HashOf, Hash64Of, FuncKnown;
    var defs := BuildItems(rel, l, st, st.b.defs);
    var hashed64 := BuildItems(rel, l, st, st.b.hashed64);
    var hashed := BuildItems(rel, l, st, st.b.hashed);
    var nonpkgdefs := BuildItems(rel, l, st, st.b.nonpkgdefs);
    var visits := Traverse(l, ALL);
    var names := BuildNames(rel, l, st, visits);
    o := GoFile.Obj(defs, hashed64, hashed, nonpkgdefs, RecsOf(rel, l, st, st.b.nonpkgrefs),
                    seq(|st.b.hashed64|, i requires 0 <= i < |st.b.hashed64| => Hash64Of(rel, l, st.b.hashed64[i])),
                    seq(|st.b.hashed|, i requires 0 <= i < |st.b.hashed| => HashOf(rel, l, st.b.hashed[i])),
                    l.files, [[]] + names + l.files);
  }

  /** The whole writer: number, collect, write. */
  method WriteLink(rel: Release, l: Link) returns (r: Option<seq<Byte>>)
    requires LinkOk(l) && Distinct(rel.format.order) && forall k: GoFile.Blk :: k in rel.format.order
    ensures r.None? <==> !Writable(rel, l)
    ensures r.Some? ==> r.value == GoFile.FileOf(rel.format, ObjOf(rel, l, Final(l, rel.codes)))
  {
    hide LinkOk, Visits, Numberable, Numbered, InformingAll, GoFile.FileOf, ObjOf;
    var num := new Numbering(l, rel.codes);
    num.Number();
    NumberedOk(l);
    if !num.ok { return None; }
    num.FuncInfos();
    var st := num.State();
    var ok := Check(rel, l, st);
    if !ok { return None; }
    var o := Collect(rel, l, st);
    r := GoFile.WriteFile(rel.format, o);
  }

  lemma NumberedOk(l: Link)
    requires LinkOk(l)
    ensures Numbered(l).ok <==> Numberable(l)
  {
    hide LinkOk, Numbered, Numberable, Visits;
    NumberedExactly(l);
  }
}
