/** A whole object file: the fixed header, all record sections and the string
    table they share. What is written is a function of the object, and reading
    it gives the object back. */
module ObjectWrite {
  import opened ByteType
  import opened LittleEndian
  import opened Options
  import opened Varint
  import opened RecordCodec
  import opened FuncSections
  import opened FuncRecords
  import opened ObjectFile

  datatype Header = Header(minor: nat, arch: Byte, flags: Byte, profile: Name, producer: Name)

  datatype Object = Object(header: Header, files: seq<Named<Row>>, funcs: seq<Named<Func>>, relocs: seq<Named<Row>>,
    sites: seq<Named<Row>>, datas: seq<Named<Row>>)

  datatype File = File(header: seq<Byte>, files: seq<Byte>, sections: Sections, relocs: seq<Byte>, sites: seq<Byte>,
    datas: seq<Byte>, strs: seq<Byte>)

  // ----- the string table of an object -----

  function InternedAll(t: Tab, vs: seq<Name>): Tab {
    if vs == [] then t else Interned(InternedAll(t, vs[..|vs| - 1]), vs[|vs| - 1])
  }

  function NamesOf<T>(xs: seq<Named<T>>): seq<Name> {
    if xs == [] then [] else NamesOf(xs[..|xs| - 1]) + xs[|xs| - 1].names
  }

  /** The names in the order in which the writer meets them. */
  function AllNames(o: Object): seq<Name> {
    [o.header.profile, o.header.producer] + NamesOf(o.files) + NamesOf(o.funcs) + NamesOf(o.relocs) + NamesOf(o.sites)
      + NamesOf(o.datas)
  }

  function TableOf(o: Object): Tab { InternedAll(EMPTY, AllNames(o)) }

  function Offset(t: Tab, v: Name): nat { if v in t.idx then t.idx[v] else 0 }

  function Offsets(t: Tab, vs: seq<Name>): seq<nat> { seq(|vs|, i requires 0 <= i < |vs| => Offset(t, vs[i])) }

  ghost predicate TabOk(t: Tab) { forall v :: v in t.idx ==> StrAt(t.strs, t.idx[v]) == Some(v) }

  ghost predicate Grown(t: Tab, u: Tab) { forall v :: v in t.idx ==> v in u.idx && u.idx[v] == t.idx[v] }

  ghost predicate Knows(t: Tab, vs: seq<Name>) { forall i :: 0 <= i < |vs| ==> vs[i] in t.idx }

  lemma InternedMore(t: Tab, vs: seq<Name>, v: Name)
    ensures InternedAll(t, vs + [v]) == Interned(InternedAll(t, vs), v)
  {
    assert (vs + [v])[..|vs|] == vs;
  }

  lemma {:induction false} InternedJoin(t: Tab, vs: seq<Name>, ws: seq<Name>)
    ensures InternedAll(InternedAll(t, vs), ws) == InternedAll(t, vs + ws)
    decreases |ws|
  {
    if ws == [] {
      assert vs + ws == vs;
    } else {
      var n := |ws| - 1;
      InternedJoin(t, vs, ws[..n]);
      InternedMore(t, vs + ws[..n], ws[n]);
      assert vs + ws[..n] + [ws[n]] == vs + ws;
    }
  }

  /** Every name gets an offset, and no offset changes. */
  lemma {:induction false} InternedKnows(t: Tab, vs: seq<Name>)
    ensures Grown(t, InternedAll(t, vs)) && Knows(InternedAll(t, vs), vs)
  {
    if vs != [] { InternedKnows(t, vs[..|vs| - 1]); }
  }

  lemma InternedReads(t: Tab, v: Name)
    requires TabOk(t) && IsName(v)
    ensures TabOk(Interned(t, v))
  {
    if v !in t.idx {
      var u := Interned(t, v);
      assert u.strs == t.strs + v + [0] + [] && u.strs == t.strs + (v + [0]);
      StrReads(t.strs, v, [], 0);
      forall w | w in t.idx
        ensures StrAt(u.strs, t.idx[w]) == Some(w)
      {
        StrGrows(t.strs, v + [0], t.idx[w]);
      }
    }
  }

  lemma {:induction false} InternedAllRead(t: Tab, vs: seq<Name>)
    requires TabOk(t) && forall i :: 0 <= i < |vs| ==> IsName(vs[i])
    ensures TabOk(InternedAll(t, vs))
  {
    hide Interned, TabOk;
    if vs != [] {
      InternedAllRead(t, vs[..|vs| - 1]);
      InternedReads(InternedAll(t, vs[..|vs| - 1]), vs[|vs| - 1]);
    }
  }

  lemma NamesMore<T>(xs: seq<Named<T>>, x: Named<T>)
    ensures NamesOf(xs + [x]) == NamesOf(xs) + x.names
  {
    assert (xs + [x])[..|xs|] == xs;
  }

  lemma {:induction false} NamesAmong<T>(xs: seq<Named<T>>, i: nat, j: nat)
    requires i < |xs| && j < |xs[i].names|
    ensures xs[i].names[j] in NamesOf(xs)
  {
    if i < |xs| - 1 { NamesAmong(xs[..|xs| - 1], i, j); }
  }

  lemma {:induction false} NamesFrom<T>(xs: seq<Named<T>>, v: Name)
    requires v in NamesOf(xs)
    ensures exists i, j :: 0 <= i < |xs| && 0 <= j < |xs[i].names| && xs[i].names[j] == v
  {
    var n := |xs| - 1;
    if v in xs[n].names {
      var j :| 0 <= j < |xs[n].names| && xs[n].names[j] == v;
    } else {
      NamesFrom(xs[..n], v);
      var i, j :| 0 <= i < n && 0 <= j < |xs[..n][i].names| && xs[..n][i].names[j] == v;
      assert xs[i].names[j] == v;
    }
  }

  // ----- what is written -----

  function RowOf(t: Tab, x: Named<Row>): Row {
    if |x.names| == |Refs(x.item)| then WithRefs(x.item, Offsets(t, x.names)) else x.item
  }

  function RowsOf(t: Tab, xs: seq<Named<Row>>): seq<Row> { seq(|xs|, i requires 0 <= i < |xs| => RowOf(t, xs[i])) }

  function FuncOf(t: Tab, x: Named<Func>): Func {
    if |x.names| == |FuncRefs(x.item)| then FuncWith(x.item, Offsets(t, x.names)) else x.item
  }

  function FuncsOf(t: Tab, xs: seq<Named<Func>>): seq<Func> { seq(|xs|, i requires 0 <= i < |xs| => FuncOf(t, xs[i])) }

  const MAGIC: seq<Byte> := [71, 79, 67, 79, 66, 74, 0, 0]
  const MAJOR := 1
  const HEADER_SIZE := 28

  function PutHeader(t: Tab, h: Header): (b: seq<Byte>)
    ensures |b| == HEADER_SIZE
  {
    MAGIC + Le(2, MAJOR) + Le(2, h.minor) + [h.arch, h.flags, 0, 0] + Le(4, Offset(t, h.profile))
      + Le(4, Offset(t, h.producer)) + [0, 0, 0, 0]
  }

  /** The header's layout, field by field. */
  lemma HeaderLayout(t: Tab, h: Header)
    ensures var b := PutHeader(t, h);
      && b[..8] == MAGIC && Field(b, 8, 2, MAJOR) && Field(b, 10, 2, h.minor) && b[12] == h.arch && b[13] == h.flags
      && Field(b, 16, 4, Offset(t, h.profile)) && Field(b, 20, 4, Offset(t, h.producer)) && b[24..] == [0, 0, 0, 0]
  {
    hide Le, Field, Offset;
    var p0, p1, p2, p3 := MAGIC, Le(2, MAJOR), Le(2, h.minor), [h.arch, h.flags, 0, 0];
    var p4, p5, p6 := Le(4, Offset(t, h.profile)), Le(4, Offset(t, h.producer)), [0, 0, 0, 0];
    var b := PutHeader(t, h);
    FieldOf(p0, 2, MAJOR, p2 + p3 + p4 + p5 + p6);
    assert b == p0 + p1 + (p2 + p3 + p4 + p5 + p6);
    FieldOf(p0 + p1, 2, h.minor, p3 + p4 + p5 + p6);
    assert b == p0 + p1 + p2 + (p3 + p4 + p5 + p6);
    FieldOf(p0 + p1 + p2 + p3, 4, Offset(t, h.profile), p5 + p6);
    assert b == p0 + p1 + p2 + p3 + p4 + (p5 + p6);
    FieldOf(p0 + p1 + p2 + p3 + p4, 4, Offset(t, h.producer), p6);
  }

  /** The file of an object: every name is replaced by its offset in the table
      of all of them. */
  function FileOf(o: Object): File {
    var t := TableOf(o);
    File(PutHeader(t, o.header), Cat(RowBodies(RowsOf(t, o.files))), Written(FuncsOf(t, o.funcs), o.header.minor),
      Cat(RowBodies(RowsOf(t, o.relocs))), Cat(RowBodies(RowsOf(t, o.sites))), Cat(RowBodies(RowsOf(t, o.datas))),
        t.strs)
  }

  // ----- reading -----

  function GetHeader(strs: seq<Byte>, b: seq<Byte>): Option<Header> {
    if |b| < HEADER_SIZE || b[..8] != MAGIC || UnLe(b[8..10]) != MAJOR then None else
      var profile, producer := StrAt(strs, UnLe(b[16..20])), StrAt(strs, UnLe(b[20..24]));
      if profile.None? || producer.None? then None
      else Some(Header(UnLe(b[10..12]), b[12], b[13], profile.value, producer.value))
  }

  function ParseObject(f: File): Option<Object> {
    var header := GetHeader(f.strs, f.header);
    var files, funcs := ReadNamed(f.strs, f.files, Files), ReadNamedFuncs(f.strs, f.sections);
    var relocs, sites, datas :=
      ReadNamed(f.strs, f.relocs, Relocs), ReadNamed(f.strs, f.sites, Sites), ReadNamed(f.strs, f.datas, Datas);
    if header.None? || files.None? || funcs.None? || relocs.None? || sites.None? || datas.None? then None
    else Some(Object(header.value, files.value, funcs.value, relocs.value, sites.value, datas.value))
  }

  ghost predicate HeaderOk(h: Header) { h.minor < Pow256(2) && IsName(h.profile) && IsName(h.producer) }

  /** Numbers fit 64 bits, bitmaps have their size, names hold no zero byte. */
  ghost predicate ObjectOk(o: Object) {
    && HeaderOk(o.header) && RowsNamed(o.files, Files) && FuncsNamed(o.funcs) && RowsNamed(o.relocs, Relocs)
    && RowsNamed(o.sites, Sites) && RowsNamed(o.datas, Datas)
  }

  /** Sections and offsets fit their 64 bits; the header's offsets have 32. */
  ghost predicate Fits(o: Object) {
    var f := FileOf(o);
    && |o.header.profile| + 2 < Pow256(4) && IsU64(|f.files|) && FuncRecords.Fits(f.sections) && IsU64(|f.relocs|)
    && IsU64(|f.sites|) && IsU64(|f.datas|) && IsU64(|f.strs|)
  }

  ghost function BareObject(o: Object): Object
    requires ObjectOk(o)
  {
    Object(o.header, BareRows(o.files, Files), BareFuncs(o.funcs, o.header.minor), BareRows(o.relocs, Relocs),
      BareRows(o.sites, Sites), BareRows(o.datas, Datas))
  }

  // ----- it comes back -----

  ghost predicate Serves<T>(t: Tab, xs: seq<Named<T>>) {
    forall i, j :: 0 <= i < |xs| && 0 <= j < |xs[i].names| ==> xs[i].names[j] in t.idx
  }

  lemma KnownServes<T>(t: Tab, xs: seq<Named<T>>)
    requires forall v :: v in NamesOf(xs) ==> v in t.idx
    ensures Serves(t, xs)
  {
    forall i, j | 0 <= i < |xs| && 0 <= j < |xs[i].names|
      ensures xs[i].names[j] in t.idx
    {
      NamesAmong(xs, i, j);
    }
  }

  lemma OffsetsSpell(t: Tab, vs: seq<Name>)
    requires TabOk(t) && Knows(t, vs)
    ensures Spelled(t.strs, Offsets(t, vs), vs)
  {
    hide StrAt;
  }

  lemma RowsSpelled(t: Tab, xs: seq<Named<Row>>, k: Kind)
    requires TabOk(t) && Serves(t, xs) && RowsNamed(xs, k)
    ensures RowsSpell(t.strs, RowsOf(t, xs), xs)
  {
    hide StrAt, TabOk, Spelled, RowSpells, RowOk;
    forall i | 0 <= i < |xs|
      ensures RowSpells(t.strs, RowsOf(t, xs)[i], xs[i])
    {
      assert RowNamed(xs[i], k);
      OffsetsSpell(t, xs[i].names);
      RowFilled(t.strs, xs[i], Offsets(t, xs[i].names));
    }
  }

  lemma FuncsSpelled(t: Tab, xs: seq<Named<Func>>)
    requires TabOk(t) && Serves(t, xs) && FuncsNamed(xs)
    ensures FuncsSpell(t.strs, FuncsOf(t, xs), xs)
  {
    hide StrAt, TabOk, Spelled, FuncSpells, FuncOk, FuncRefs;
    forall i | 0 <= i < |xs|
      ensures FuncSpells(t.strs, FuncsOf(t, xs)[i], xs[i])
    {
      assert FuncNamed(xs[i]);
      OffsetsSpell(t, xs[i].names);
      FuncFilled(t.strs, xs[i], Offsets(t, xs[i].names));
    }
  }

  /** The header's names come first in the table. */
  lemma HeaderOffsets(o: Object)
    ensures var t := TableOf(o); var h := o.header;
      Offset(t, h.profile) <= 1 && Offset(t, h.producer) <= |h.profile| + 2 && h.profile in t.idx && h.producer in t.idx
  {
    var h := o.header;
    var names, rest := [h.profile, h.producer], AllNames(o)[2..];
    TwoNames(h.profile, h.producer);
    hide Interned;
    InternedJoin(EMPTY, names, rest);
    assert names + rest == AllNames(o);
    InternedKnows(InternedAll(EMPTY, names), rest);
  }

  lemma TwoNames(v: Name, w: Name)
    ensures var t := InternedAll(EMPTY, [v, w]); v in t.idx && w in t.idx && t.idx[v] <= 1 && t.idx[w] <= |v| + 2
  {
    assert [] + [v] == [v] && [v] + [w] == [v, w];
    InternedMore(EMPTY, [], v);
    InternedMore(EMPTY, [v], w);
  }

  lemma HeaderBack(t: Tab, h: Header)
    requires TabOk(t) && HeaderOk(h) && h.profile in t.idx && h.producer in t.idx
    requires Offset(t, h.profile) < Pow256(4) && Offset(t, h.producer) < Pow256(4)
    ensures GetHeader(t.strs, PutHeader(t, h)) == Some(h)
  {
    var p, q := Offset(t, h.profile), Offset(t, h.producer);
    assert MAJOR < Pow256(2);
    hide Le, UnLe, Pow256, StrAt;
    var b := PutHeader(t, h);
    HeaderLayout(t, h);
    hide PutHeader, Field;
    FieldBack(b, 8, 2, MAJOR);
    FieldBack(b, 10, 2, h.minor);
    FieldBack(b, 16, 4, p);
    FieldBack(b, 20, 4, q);
  }

  ghost predicate AllNamed(vs: seq<Name>) { forall i :: 0 <= i < |vs| ==> IsName(vs[i]) }

  lemma RowNames(xs: seq<Named<Row>>, k: Kind)
    requires RowsNamed(xs, k)
    ensures AllNamed(NamesOf(xs))
  {
    hide RowOk;
    forall n | 0 <= n < |NamesOf(xs)|
      ensures IsName(NamesOf(xs)[n])
    {
      NamesFrom(xs, NamesOf(xs)[n]);
      var i, j :| 0 <= i < |xs| && 0 <= j < |xs[i].names| && xs[i].names[j] == NamesOf(xs)[n];
      assert RowNamed(xs[i], k);
    }
  }

  lemma FuncNames(xs: seq<Named<Func>>)
    requires FuncsNamed(xs)
    ensures AllNamed(NamesOf(xs))
  {
    hide FuncOk;
    forall n | 0 <= n < |NamesOf(xs)|
      ensures IsName(NamesOf(xs)[n])
    {
      NamesFrom(xs, NamesOf(xs)[n]);
      var i, j :| 0 <= i < |xs| && 0 <= j < |xs[i].names| && xs[i].names[j] == NamesOf(xs)[n];
      assert FuncNamed(xs[i]);
    }
  }

  lemma JoinNamed(vs: seq<Name>, ws: seq<Name>)
    requires AllNamed(vs) && AllNamed(ws)
    ensures AllNamed(vs + ws)
  {
    hide IsName;
  }

  /** The table of an object reads every name of it. */
  lemma TableReads(o: Object)
    requires ObjectOk(o)
    ensures TabOk(TableOf(o))
  {
    hide IsName, AllNamed, RowsNamed, FuncsNamed, NamesOf, InternedAll;
    RowNames(o.files, Files);
    FuncNames(o.funcs);
    RowNames(o.relocs, Relocs);
    RowNames(o.sites, Sites);
    RowNames(o.datas, Datas);
    var n0 := [o.header.profile, o.header.producer];
    assert AllNamed(n0) by { HeadNamed(o.header); }
    JoinNamed(n0, NamesOf(o.files));
    JoinNamed(n0 + NamesOf(o.files), NamesOf(o.funcs));
    JoinNamed(n0 + NamesOf(o.files) + NamesOf(o.funcs), NamesOf(o.relocs));
    JoinNamed(n0 + NamesOf(o.files) + NamesOf(o.funcs) + NamesOf(o.relocs), NamesOf(o.sites));
    JoinNamed(n0 + NamesOf(o.files) + NamesOf(o.funcs) + NamesOf(o.relocs) + NamesOf(o.sites), NamesOf(o.datas));
    NamedTable(AllNames(o));
  }

  lemma HeadNamed(h: Header)
    requires HeaderOk(h)
    ensures AllNamed([h.profile, h.producer])
  {
    hide IsName;
  }

  lemma NamedTable(vs: seq<Name>)
    requires AllNamed(vs)
    ensures TabOk(InternedAll(EMPTY, vs))
  {
    assert StrAt([0], 0) == Some([]);
    InternedAllRead(EMPTY, vs);
  }

  lemma TableServes(o: Object)
    ensures var t := TableOf(o);
      Serves(t, o.files) && Serves(t, o.funcs) && Serves(t, o.relocs) && Serves(t, o.sites) && Serves(t, o.datas)
  {
    hide NamesOf, InternedAll, Serves;
    var t := TableOf(o);
    InternedKnows(EMPTY, AllNames(o));
    assert forall v :: v in AllNames(o) ==> v in t.idx;
    KnownServes(t, o.files);
    KnownServes(t, o.funcs);
    KnownServes(t, o.relocs);
    KnownServes(t, o.sites);
    KnownServes(t, o.datas);
  }

  lemma RowsComeBack(t: Tab, xs: seq<Named<Row>>, k: Kind)
    requires TabOk(t) && Serves(t, xs) && RowsNamed(xs, k) && IsU64(|t.strs|) && IsU64(|Cat(RowBodies(RowsOf(t, xs)))|)
    ensures ReadNamed(t.strs, Cat(RowBodies(RowsOf(t, xs))), k) == Some(BareRows(xs, k))
  {
    hide TabOk, Serves, RowsNamed, RowsSpell, ReadNamed, Cat, RowBodies, RowsOf, BareRows;
    RowsSpelled(t, xs, k);
    NamedBack(t.strs, RowsOf(t, xs), xs, k);
  }

  lemma FuncsComeBack(t: Tab, xs: seq<Named<Func>>, minor: nat)
    requires TabOk(t) && Serves(t, xs) && FuncsNamed(xs) && IsU64(|t.strs|)
    requires FuncRecords.Fits(Written(FuncsOf(t, xs), minor))
    ensures ReadNamedFuncs(t.strs, Written(FuncsOf(t, xs), minor)) == Some(BareFuncs(xs, minor))
  {
    hide TabOk, Serves, FuncsNamed, FuncsSpell, ReadNamedFuncs, Written, FuncRecords.Fits, FuncsOf, BareFuncs;
    FuncsSpelled(t, xs);
    NamedFuncsBack(t.strs, FuncsOf(t, xs), xs, minor);
  }

  lemma HeaderComesBack(o: Object)
    requires HeaderOk(o.header) && TabOk(TableOf(o)) && |o.header.profile| + 2 < Pow256(4)
    ensures GetHeader(TableOf(o).strs, PutHeader(TableOf(o), o.header)) == Some(o.header)
  {
    HeaderOffsets(o);
    assert Pow256(4) > 1;
    hide TabOk, TableOf, GetHeader, PutHeader, Pow256, Offset, HeaderOk;
    HeaderBack(TableOf(o), o.header);
  }

  /** Reading the file of an object gives the object back. */
  lemma ObjectRoundTrip(o: Object)
    requires ObjectOk(o) && Fits(o)
    ensures ParseObject(FileOf(o)) == Some(BareObject(o))
  {
    hide TabOk, Serves, RowsNamed, FuncsNamed, ReadNamed, ReadNamedFuncs, Cat, RowBodies, Written, FuncRecords.Fits,
      BareRows, BareFuncs, RowsOf, FuncsOf, TableOf, GetHeader, PutHeader, Pow256, HeaderOk;
    var t := TableOf(o);
    TableReads(o);
    TableServes(o);
    HeaderComesBack(o);
    RowsComeBack(t, o.files, Files);
    FuncsComeBack(t, o.funcs, o.header.minor);
    RowsComeBack(t, o.relocs, Relocs);
    RowsComeBack(t, o.sites, Sites);
    RowsComeBack(t, o.datas, Datas);
  }

  // ----- the writer -----

  /** What is known keeps its offset. */
  lemma OffsetsStay(t: Tab, u: Tab, vs: seq<Name>)
    requires Grown(t, u) && Knows(t, vs)
    ensures Offsets(u, vs) == Offsets(t, vs)
  {
  }

  lemma RowsStay(t: Tab, u: Tab, xs: seq<Named<Row>>)
    requires Grown(t, u) && Serves(t, xs)
    ensures RowsOf(u, xs) == RowsOf(t, xs)
  {
    hide Grown, Offsets, Refs;
    forall i | 0 <= i < |xs|
      ensures RowOf(u, xs[i]) == RowOf(t, xs[i])
    {
      OffsetsStay(t, u, xs[i].names);
    }
  }

  lemma FuncsStay(t: Tab, u: Tab, xs: seq<Named<Func>>)
    requires Grown(t, u) && Serves(t, xs)
    ensures FuncsOf(u, xs) == FuncsOf(t, xs)
  {
    hide Grown, Offsets, FuncRefs, FuncWith;
    forall i | 0 <= i < |xs|
      ensures FuncOf(u, xs[i]) == FuncOf(t, xs[i])
    {
      OffsetsStay(t, u, xs[i].names);
    }
  }

  method InternAll(t: Strtab, vs: seq<Name>) returns (refs: seq<nat>)
    requires t.Valid() && AllNamed(vs)
    modifies t
    ensures t.Valid() && t.State() == InternedAll(old(t.State()), vs) && refs == Offsets(t.State(), vs)
  {
    refs := [];
    ghost var was := t.State();
    assert vs[..0] == [] && InternedAll(was, []) == was && Offsets(was, []) == [];
    hide InternedAll, Offsets, StrAt, Interned;
    for n := 0 to |vs|
      invariant t.Valid() && t.State() == InternedAll(was, vs[..n]) && refs == Offsets(t.State(), vs[..n])
    {
      ghost var before := t.State();
      var off := t.Intern(vs[n]);
      InternedNext(was, vs, n, before, t.State());
      assert t.State().idx[vs[n]] == off;
      refs := refs + [off];
    }
    assert vs[..|vs|] == vs;
  }

  lemma InternedNext(was: Tab, vs: seq<Name>, n: nat, before: Tab, now: Tab)
    requires n < |vs| && before == InternedAll(was, vs[..n]) && now == Interned(before, vs[n])
    ensures now == InternedAll(was, vs[..n + 1]) && vs[n] in now.idx
    ensures Offsets(now, vs[..n + 1]) == Offsets(before, vs[..n]) + [now.idx[vs[n]]]
  {
    InternedMore(was, vs[..n], vs[n]);
    assert vs[..n] + [vs[n]] == vs[..n + 1];
    InternedKnows(was, vs[..n]);
    OffsetsStay(before, now, vs[..n]);
  }

  lemma PartNames<T>(xs: seq<Named<T>>, n: nat, t: Tab)
    requires n < |xs|
    ensures InternedAll(InternedAll(t, NamesOf(xs[..n])), xs[n].names) == InternedAll(t, NamesOf(xs[..n + 1]))
    ensures Serves(InternedAll(t, NamesOf(xs[..n])), xs[..n])
    ensures Grown(InternedAll(t, NamesOf(xs[..n])), InternedAll(t, NamesOf(xs[..n + 1])))
  {
    hide Serves, Grown, InternedAll, NamesOf;
    var u := InternedAll(t, NamesOf(xs[..n]));
    assert xs[..n] + [xs[n]] == xs[..n + 1];
    NamesMore(xs[..n], xs[n]);
    InternedJoin(t, NamesOf(xs[..n]), xs[n].names);
    InternedKnows(t, NamesOf(xs[..n]));
    InternedKnows(u, xs[n].names);
    assert forall v :: v in NamesOf(xs[..n]) ==> v in u.idx;
    KnownServes(u, xs[..n]);
  }

  lemma RowsMore(t: Tab, xs: seq<Named<Row>>, n: nat)
    requires n < |xs|
    ensures RowsOf(t, xs[..n + 1]) == RowsOf(t, xs[..n]) + [RowOf(t, xs[n])]
  {
    hide RowOf;
  }

  lemma FuncsMore(t: Tab, xs: seq<Named<Func>>, n: nat)
    requires n < |xs|
    ensures FuncsOf(t, xs[..n + 1]) == FuncsOf(t, xs[..n]) + [FuncOf(t, xs[n])]
  {
    hide FuncOf;
  }

  /** The records of one section, with the offsets of their names. */
  method InternRows(t: Strtab, xs: seq<Named<Row>>, ghost k: Kind) returns (rows: seq<Row>)
    requires t.Valid() && RowsNamed(xs, k)
    modifies t
    ensures t.Valid() && t.State() == InternedAll(old(t.State()), NamesOf(xs)) && rows == RowsOf(t.State(), xs)
  {
    hide StrAt, RowOk, InternedAll, Offsets, Serves, Grown, RowsOf, NamesOf;
    rows := [];
    ghost var was := t.State();
    NoRows(was, xs);
    for n := 0 to |xs|
      invariant t.Valid() && t.State() == InternedAll(was, NamesOf(xs[..n])) && rows == RowsOf(t.State(), xs[..n])
    {
      ghost var before := t.State();
      assert RowNamed(xs[n], k);
      var refs := InternAll(t, xs[n].names);
      PartNames(xs, n, was);
      RowsStay(before, t.State(), xs[..n]);
      RowsMore(t.State(), xs, n);
      assert |refs| == |xs[n].names| by { OffsetsSize(t.State(), xs[n].names); }
      rows := rows + [WithRefs(xs[n].item, refs)];
    }
    assert xs[..|xs|] == xs;
  }

  lemma NoRows<T>(t: Tab, xs: seq<Named<T>>)
    ensures InternedAll(t, NamesOf(xs[..0])) == t && RowsOf(t, []) == [] && FuncsOf(t, []) == []
  {
  }

  lemma OffsetsSize(t: Tab, vs: seq<Name>)
    ensures |Offsets(t, vs)| == |vs|
  {
  }

  method InternFuncs(t: Strtab, xs: seq<Named<Func>>) returns (fs: seq<Func>)
    requires t.Valid() && FuncsNamed(xs)
    modifies t
    ensures t.Valid() && t.State() == InternedAll(old(t.State()), NamesOf(xs)) && fs == FuncsOf(t.State(), xs)
  {
    hide StrAt, FuncOk, FuncRefs, FuncWith, InternedAll, Offsets, Serves, Grown, FuncsOf, NamesOf;
    fs := [];
    ghost var was := t.State();
    NoRows(was, xs);
    for n := 0 to |xs|
      invariant t.Valid() && t.State() == InternedAll(was, NamesOf(xs[..n])) && fs == FuncsOf(t.State(), xs[..n])
    {
      ghost var before := t.State();
      assert FuncNamed(xs[n]);
      var refs := InternAll(t, xs[n].names);
      PartNames(xs, n, was);
      FuncsStay(before, t.State(), xs[..n]);
      FuncsMore(t.State(), xs, n);
      assert |refs| == |xs[n].names| by { OffsetsSize(t.State(), xs[n].names); }
      fs := fs + [FuncWith(xs[n].item, refs)];
    }
    assert xs[..|xs|] == xs;
  }

  /** Interning one list of names after another: offsets given so far stay. */
  lemma After<T>(t: Tab, vs: seq<Name>, xs: seq<Named<T>>, rest: seq<Name>)
    ensures InternedAll(InternedAll(t, vs), NamesOf(xs)) == InternedAll(t, vs + NamesOf(xs))
    ensures Serves(InternedAll(t, vs + NamesOf(xs)), xs)
    ensures Grown(InternedAll(t, vs + NamesOf(xs)), InternedAll(t, vs + NamesOf(xs) + rest))
  {
    hide Serves, Grown, InternedAll, NamesOf;
    var u := InternedAll(t, vs + NamesOf(xs));
    InternedJoin(t, vs, NamesOf(xs));
    InternedJoin(t, vs + NamesOf(xs), rest);
    InternedKnows(t, vs + NamesOf(xs));
    InternedKnows(u, rest);
    assert forall v :: v in vs + NamesOf(xs) ==> v in u.idx;
    assert forall v :: v in NamesOf(xs) ==> v in u.idx;
    KnownServes(u, xs);
  }

  lemma RowsFinal(o: Object, vs: seq<Name>, xs: seq<Named<Row>>, rest: seq<Name>)
    requires vs + NamesOf(xs) + rest == AllNames(o)
    ensures InternedAll(InternedAll(EMPTY, vs), NamesOf(xs)) == InternedAll(EMPTY, vs + NamesOf(xs))
    ensures RowsOf(InternedAll(EMPTY, vs + NamesOf(xs)), xs) == RowsOf(TableOf(o), xs)
  {
    hide Serves, Grown, InternedAll, NamesOf, RowsOf, AllNames;
    After(EMPTY, vs, xs, rest);
    RowsStay(InternedAll(EMPTY, vs + NamesOf(xs)), TableOf(o), xs);
  }

  lemma FuncsFinal(o: Object, vs: seq<Name>, xs: seq<Named<Func>>, rest: seq<Name>)
    requires vs + NamesOf(xs) + rest == AllNames(o)
    ensures InternedAll(InternedAll(EMPTY, vs), NamesOf(xs)) == InternedAll(EMPTY, vs + NamesOf(xs))
    ensures FuncsOf(InternedAll(EMPTY, vs + NamesOf(xs)), xs) == FuncsOf(TableOf(o), xs)
  {
    hide Serves, Grown, InternedAll, NamesOf, FuncsOf, AllNames;
    After(EMPTY, vs, xs, rest);
    FuncsStay(InternedAll(EMPTY, vs + NamesOf(xs)), TableOf(o), xs);
  }

  lemma HeadFinal(o: Object, vs: seq<Name>, rest: seq<Name>)
    requires vs + rest == AllNames(o)
    ensures Offsets(InternedAll(EMPTY, vs), vs) == Offsets(TableOf(o), vs)
  {
    hide Grown, Knows, InternedAll, AllNames;
    InternedJoin(EMPTY, vs, rest);
    InternedKnows(EMPTY, vs);
    InternedKnows(InternedAll(EMPTY, vs), rest);
    OffsetsStay(InternedAll(EMPTY, vs), TableOf(o), vs);
  }

  /** The sections' names, split after each section. */
  lemma Splits(o: Object)
    ensures var h, n1, n2, n3, n4, n5 := [o.header.profile, o.header.producer], NamesOf(o.files), NamesOf(o.funcs),
      NamesOf(o.relocs), NamesOf(o.sites), NamesOf(o.datas);
      && h + (n1 + n2 + n3 + n4 + n5) == AllNames(o) && h + n1 + (n2 + n3 + n4 + n5) == AllNames(o)
      && h + n1 + n2 + (n3 + n4 + n5) == AllNames(o) && h + n1 + n2 + n3 + (n4 + n5) == AllNames(o)
      && h + n1 + n2 + n3 + n4 + n5 == AllNames(o) && AllNames(o) + [] == AllNames(o)
  {
    hide NamesOf;
  }

  /** Puts all names into the table: header first, then each section's. */
  method Collect(o: Object)
      returns (heads: seq<nat>, files: seq<Row>, funcs: seq<Func>, relocs: seq<Row>, sites: seq<Row>, datas: seq<Row>,
        strs: seq<Byte>)
    requires ObjectOk(o)
    ensures var t := TableOf(o);
      && heads == Offsets(t, [o.header.profile, o.header.producer]) && strs == t.strs && files == RowsOf(t, o.files)
      && funcs == FuncsOf(t, o.funcs) && relocs == RowsOf(t, o.relocs) && sites == RowsOf(t, o.sites)
      && datas == RowsOf(t, o.datas)
  {
    HeadNamed(o.header);
    Splits(o);
    hide StrAt, RowsNamed, FuncsNamed, InternedAll, NamesOf, RowsOf, FuncsOf, Offsets, AllNamed, HeaderOk, AllNames;
    ghost var n1, n2, n3, n4, n5 := NamesOf(o.files), NamesOf(o.funcs), NamesOf(o.relocs), NamesOf(o.sites),
      NamesOf(o.datas);
    ghost var vs := [o.header.profile, o.header.producer];
    var t := new Strtab();
    heads := InternAll(t, [o.header.profile, o.header.producer]);
    HeadFinal(o, vs, n1 + n2 + n3 + n4 + n5);
    files := InternRows(t, o.files, Files);
    RowsFinal(o, vs, o.files, n2 + n3 + n4 + n5);
    vs := vs + n1;
    funcs := InternFuncs(t, o.funcs);
    FuncsFinal(o, vs, o.funcs, n3 + n4 + n5);
    vs := vs + n2;
    relocs := InternRows(t, o.relocs, Relocs);
    RowsFinal(o, vs, o.relocs, n4 + n5);
    vs := vs + n3;
    sites := InternRows(t, o.sites, Sites);
    RowsFinal(o, vs, o.sites, n5);
    vs := vs + n4;
    datas := InternRows(t, o.datas, Datas);
    RowsFinal(o, vs, o.datas, []);
    strs := t.strs;
  }

  lemma HeaderFrom(t: Tab, h: Header, heads: seq<nat>)
    requires heads == Offsets(t, [h.profile, h.producer])
    ensures |heads| == 2 && PutHeader(t, h) == MAGIC + Le(2, MAJOR) + Le(2, h.minor) + [h.arch, h.flags, 0, 0]
      + Le(4, heads[0]) + Le(4, heads[1]) + [0, 0, 0, 0]
  {
    hide Le;
  }

  /** Writes an object. */
  method WriteObject(o: Object) returns (f: File)
    requires ObjectOk(o)
    ensures f == FileOf(o) && (Fits(o) ==> ParseObject(f) == Some(BareObject(o)))
  {
    if Fits(o) { ObjectRoundTrip(o); }
    hide ObjectOk, Fits, ParseObject, BareObject, TableOf, RowsOf, FuncsOf, Offsets, Le, Cat, RowBodies, Written,
      PutHeader;
    var heads, files, funcs, relocs, sites, datas, strs := Collect(o);
    HeaderFrom(TableOf(o), o.header, heads);
    var h := o.header;
    var header := MAGIC + Le(2, MAJOR) + Le(2, h.minor) + [h.arch, h.flags, 0, 0] + Le(4, heads[0]) + Le(4, heads[1])
      + [0, 0, 0, 0];
    var fileBytes := WriteRows(files);
    var sections := WriteSections(funcs, h.minor);
    var relocBytes := WriteRows(relocs);
    var siteBytes := WriteRows(sites);
    var dataBytes := WriteRows(datas);
    f := File(header, fileBytes, sections, relocBytes, siteBytes, dataBytes, strs);
  }
}
