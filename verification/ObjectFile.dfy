/** The whole record part of an object file: source files, functions with their
    tables, relocations, stack maps and data, all naming things by offsets into
    one string table. */
module ObjectFile {
  import opened ByteType
  import opened Options
  import opened Varint
  import opened RecordCodec
  import opened FuncSections
  import opened FuncRecords

  // ----- the simple records -----

  datatype Loc = Loc(kind: Byte, size: nat, reg: nat, off: int)

  datatype Row =
    | FileRow(name: nat)
    | RelocRow(func: nat, off: nat, width: Byte, kind: Byte, target: nat, addend: int, flags: Byte)
    | SiteRow(func: nat, insn: nat, id: nat, locs: seq<Loc>)
    | DataRow(name: nat, size: nat, align: Byte, marks: nat, bits: nat, bitmap: seq<Byte>)

  datatype Kind = Files | Relocs | Sites | Datas

  function KindOf(r: Row): Kind {
    match r
    case FileRow(_) => Files
    case RelocRow(_, _, _, _, _, _, _) => Relocs
    case SiteRow(_, _, _, _) => Sites
    case DataRow(_, _, _, _, _, _) => Datas
  }

  function PutLocs(ls: seq<Loc>): seq<Byte> {
    if ls == [] then []
      else [ls[0].kind] + (Uleb(ls[0].size) + (Uleb(ls[0].reg) + (Sleb(ls[0].off) + PutLocs(ls[1..]))))
  }

  function PutRow(r: Row): seq<Byte> {
    match r
    case FileRow(name) => Uleb(name)
    case RelocRow(func, off, width, kind, target, addend, flags) =>
      Uleb(func) + (Uleb(off) + ([width] + ([kind] + (Uleb(target) + (Sleb(addend) + [flags])))))
    case SiteRow(func, insn, id, locs) => Uleb(func) + (Uleb(insn) + (Uleb(id) + (Uleb(|locs|) + PutLocs(locs))))
    case DataRow(name, size, align, flags, bits, bitmap) =>
      Uleb(name) + (Uleb(size) + ([align] + (Uleb(flags) + (Uleb(bits) + bitmap))))
  }

  function GetLoc(b: seq<Byte>): Option<Got<Loc>> {
    var kind := GetB(b);
    if kind.None? then None else
      var size := GetU(kind.value.rest);
      if size.None? then None else
        var reg := GetU(size.value.rest);
        if reg.None? then None else
          var off := GetS(reg.value.rest);
          if off.None? then None else
            Some(Got(Loc(kind.value.value, size.value.value, reg.value.value, off.value.value), off.value.rest))
  }

  function GetLocs(b: seq<Byte>, n: nat): Option<seq<Loc>> {
    if n == 0 then Some([]) else
      var l := GetLoc(b);
      if l.None? then None else
        var more := GetLocs(l.value.rest, n - 1);
        if more.None? then None else Some([l.value.value] + more.value)
  }

  function GetReloc(b: seq<Byte>): Option<Row> {
    var func := GetU(b);
    if func.None? then None else
      var off := GetU(func.value.rest);
      if off.None? then None else
        var width := GetB(off.value.rest);
        if width.None? then None else
          var kind := GetB(width.value.rest);
          if kind.None? then None else
            var target := GetU(kind.value.rest);
            if target.None? then None else
              var addend := GetS(target.value.rest);
              if addend.None? then None else
                var flags := GetB(addend.value.rest);
                if flags.None? then None else
                  Some(RelocRow(func.value.value, off.value.value, width.value.value, kind.value.value,
                    target.value.value,
                                addend.value.value, flags.value.value))
  }

  function GetSite(b: seq<Byte>): Option<Row> {
    var func := GetU(b);
    if func.None? then None else
      var insn := GetU(func.value.rest);
      if insn.None? then None else
        var id := GetU(insn.value.rest);
        if id.None? then None else
          var n := GetU(id.value.rest);
          if n.None? then None else
            var locs := GetLocs(n.value.rest, n.value.value);
            if locs.None? then None else Some(SiteRow(func.value.value, insn.value.value, id.value.value, locs.value))
  }

  function GetData(b: seq<Byte>): Option<Row> {
    var name := GetU(b);
    if name.None? then None else
      var size := GetU(name.value.rest);
      if size.None? then None else
        var align := GetB(size.value.rest);
        if align.None? then None else
          var flags := GetU(align.value.rest);
          if flags.None? then None else
            var bits := GetU(flags.value.rest);
            if bits.None? then None else
              var bitmap := GetN(bits.value.rest, Bytes8(bits.value.value));
              if bitmap.None? then None else
                Some(DataRow(name.value.value, size.value.value, align.value.value, flags.value.value, bits.value.value,
                             bitmap.value.value))
  }

  function GetRow(k: Kind, b: seq<Byte>): Option<Row> {
    match k
    case Files => var name := GetU(b); if name.None? then None else Some(FileRow(name.value.value))
    case Relocs => GetReloc(b)
    case Sites => GetSite(b)
    case Datas => GetData(b)
  }

  ghost predicate LocOk(l: Loc) { IsU64(l.size) && IsU64(l.reg) && IsI64(l.off) }

  /** Numbers fit their 64 bits, a bitmap has the bytes its bits need. */
  ghost predicate RowOk(r: Row) {
    match r
    case FileRow(name) => IsU64(name)
    case RelocRow(func, off, _, _, target, addend, _) => IsU64(func) && IsU64(off) && IsU64(target) && IsI64(addend)
    case SiteRow(func, insn, id, locs) =>
      IsU64(func) && IsU64(insn) && IsU64(id) && IsU64(|locs|) && forall k :: 0 <= k < |locs| ==> LocOk(locs[k])
    case DataRow(name, size, _, flags, bits, bitmap) =>
      IsU64(name) && IsU64(size) && IsU64(flags) && IsU64(bits) && |bitmap| == Bytes8(bits)
  }

  lemma BackLoc(l: Loc, rest: seq<Byte>)
    requires LocOk(l)
    ensures GetLoc([l.kind] + (Uleb(l.size) + (Uleb(l.reg) + (Sleb(l.off) + rest)))) == Some(Got(l, rest))
  {
    hide Uleb, Sleb, GetU, GetS;
    var b3 := Sleb(l.off) + rest;
    var b2 := Uleb(l.reg) + b3;
    BackB(l.kind, Uleb(l.size) + b2);
    BackU(l.size, b2);
    BackU(l.reg, b3);
    BackS(l.off, rest);
  }

  lemma {:induction false} BackLocs(ls: seq<Loc>)
    requires forall k :: 0 <= k < |ls| ==> LocOk(ls[k])
    ensures GetLocs(PutLocs(ls), |ls|) == Some(ls)
  {
    hide GetLoc, LocOk, Uleb, Sleb;
    if ls != [] {
      BackLoc(ls[0], PutLocs(ls[1..]));
      BackLocs(ls[1..]);
      assert [ls[0]] + ls[1..] == ls;
    }
  }

  lemma BackReloc(r: Row)
    requires r.RelocRow? && RowOk(r)
    ensures GetReloc(PutRow(r)) == Some(r)
  {
    hide Uleb, Sleb, GetU, GetS;
    var b6 := Sleb(r.addend) + [r.flags];
    var b5 := Uleb(r.target) + b6;
    var b4 := [r.kind] + b5;
    var b3 := [r.width] + b4;
    BackU(r.func, Uleb(r.off) + b3);
    BackU(r.off, b3);
    BackB(r.width, b4);
    BackB(r.kind, b5);
    BackU(r.target, b6);
    BackS(r.addend, [r.flags]);
  }

  lemma BackSite(r: Row)
    requires r.SiteRow? && RowOk(r)
    ensures GetSite(PutRow(r)) == Some(r)
  {
    hide Uleb, GetU, GetLocs, PutLocs;
    var b4 := Uleb(|r.locs|) + PutLocs(r.locs);
    var b3 := Uleb(r.id) + b4;
    BackU(r.func, Uleb(r.insn) + b3);
    BackU(r.insn, b3);
    BackU(r.id, b4);
    BackU(|r.locs|, PutLocs(r.locs));
    BackLocs(r.locs);
  }

  lemma BackData(r: Row)
    requires r.DataRow? && RowOk(r)
    ensures GetData(PutRow(r)) == Some(r)
  {
    hide Uleb, GetU;
    var b5 := Uleb(r.bits) + r.bitmap;
    var b4 := Uleb(r.marks) + b5;
    var b3 := [r.align] + b4;
    BackU(r.name, Uleb(r.size) + b3);
    BackU(r.size, b3);
    BackB(r.align, b4);
    BackU(r.marks, b5);
    BackU(r.bits, r.bitmap);
    BackN(r.bitmap, []);
    assert r.bitmap + [] == r.bitmap;
  }

  lemma BackRow(r: Row)
    requires RowOk(r)
    ensures GetRow(KindOf(r), PutRow(r)) == Some(r)
  {
    match r
    case FileRow(name) =>
      BackU(name, []);
      assert Uleb(name) + [] == Uleb(name);
    case RelocRow(_, _, _, _, _, _, _) => BackReloc(r);
    case SiteRow(_, _, _, _) => BackSite(r);
    case DataRow(_, _, _, _, _, _) => BackData(r);
  }

  // ----- a section of them -----

  function RowBodies(rows: seq<Row>): seq<seq<Byte>> { seq(|rows|, i requires 0 <= i < |rows| => PutRow(rows[i])) }

  /** Writes one section. */
  method WriteRows(rows: seq<Row>) returns (b: seq<Byte>)
    ensures b == Cat(RowBodies(rows))
  {
    hide Record, PutRow;
    var e := new Enc();
    for n := 0 to |rows|
      invariant fresh(e) && e.b == Cat(RowBodies(rows[..n]))
    {
      assert RowBodies(rows[..n + 1]) == RowBodies(rows[..n]) + [PutRow(rows[n])];
      CatMore(RowBodies(rows[..n]), PutRow(rows[n]));
      var off := e.AddRecord(PutRow(rows[n]));
    }
    assert rows[..|rows|] == rows;
    return e.b;
  }

  function ReadRows(recs: seq<Rec>, k: Kind): Option<seq<Row>> {
    if recs == [] then Some([]) else
      var r, more := GetRow(k, recs[0].body), ReadRows(recs[1..], k);
      if r.None? || more.None? then None else Some([r.value] + more.value)
  }

  function ParseRows(b: seq<Byte>, k: Kind): Option<seq<Row>> {
    var recs := Split(b, 0);
    if recs.None? then None else ReadRows(recs.value, k)
  }

  ghost predicate RowsOk(rows: seq<Row>, k: Kind) {
    forall i :: 0 <= i < |rows| ==> RowOk(rows[i]) && KindOf(rows[i]) == k
  }

  lemma {:induction false} ReadRowsBack(rows: seq<Row>, k: Kind, off: nat)
    requires RowsOk(rows, k)
    ensures ReadRows(Recs(RowBodies(rows), off), k) == Some(rows)
    decreases |rows|
  {
    hide GetRow, PutRow, RowOk, Record;
    if rows != [] {
      var bodies := RowBodies(rows);
      assert bodies[1..] == RowBodies(rows[1..]);
      BackRow(rows[0]);
      ReadRowsBack(rows[1..], k, off + |Record(bodies[0])|);
      assert Recs(bodies, off)[1..] == Recs(bodies[1..], off + |Record(bodies[0])|);
      assert [rows[0]] + rows[1..] == rows;
    }
  }

  lemma RowsRoundTrip(rows: seq<Row>, k: Kind)
    requires RowsOk(rows, k) && IsU64(|Cat(RowBodies(rows))|)
    ensures ParseRows(Cat(RowBodies(rows)), k) == Some(rows)
  {
    hide Cat, Split, Recs, ReadRows, RowsOk;
    SectionRead(RowBodies(rows));
    ReadRowsBack(rows, k, 0);
  }

  // ----- names -----

  type Name = seq<Byte>

  ghost predicate IsName(v: Name) { forall k :: 0 <= k < |v| ==> v[k] != 0 }

  ghost predicate Spelled(strs: seq<Byte>, refs: seq<nat>, names: seq<Name>) {
    |refs| == |names| && forall k :: 0 <= k < |refs| ==> StrAt(strs, refs[k]) == Some(names[k])
  }

  function Lookup(strs: seq<Byte>, refs: seq<nat>): Option<seq<Name>> {
    if refs == [] then Some([]) else
      var n, more := StrAt(strs, refs[0]), Lookup(strs, refs[1..]);
      if n.None? || more.None? then None else Some([n.value] + more.value)
  }

  lemma {:induction false} LookupSpelled(strs: seq<Byte>, refs: seq<nat>, names: seq<Name>)
    requires Spelled(strs, refs, names)
    ensures Lookup(strs, refs) == Some(names)
  {
    hide StrAt;
    if refs != [] {
      LookupSpelled(strs, refs[1..], names[1..]);
      assert [names[0]] + names[1..] == names;
    }
  }

  lemma {:induction false} InTable(strs: seq<Byte>, o: nat)
    requires StrAt(strs, o).Some?
    ensures o < |strs|
  {
  }

  // ----- records with their names written out -----

  /** A record's references to names, in order. */
  function Refs(r: Row): seq<nat> {
    match r
    case FileRow(name) => [name]
    case RelocRow(func, _, _, _, target, _, _) => [func, target]
    case SiteRow(func, _, _, _) => [func]
    case DataRow(name, _, _, _, _, _) => [name]
  }

  function WithRefs(r: Row, refs: seq<nat>): Row
    requires |refs| == |Refs(r)|
  {
    match r
    case FileRow(_) => FileRow(refs[0])
    case RelocRow(_, _, _, _, _, _, _) => r.(func := refs[0], target := refs[1])
    case SiteRow(_, _, _, _) => r.(func := refs[0])
    case DataRow(_, _, _, _, _, _) => r.(name := refs[0])
  }

  function NodeRefs(ns: seq<InlNode>): seq<nat> { seq(|ns|, i requires 0 <= i < |ns| => ns[i].func) }

  function Nodes(f: Func): seq<InlNode> { if f.inl.Some? then f.inl.value else [] }

  /** The inlined functions' names, then the function's own. */
  function FuncRefs(f: Func): seq<nat> { NodeRefs(Nodes(f)) + [f.head.name] }

  function NodesWith(ns: seq<InlNode>, refs: seq<nat>): seq<InlNode>
    requires |refs| >= |ns|
  {
    seq(|ns|, i requires 0 <= i < |ns| => ns[i].(func := refs[i]))
  }

  function FuncWith(f: Func, refs: seq<nat>): Func
    requires |refs| == |FuncRefs(f)|
  {
    f.(head := f.head.(name := refs[|refs| - 1]), inl := if f.inl.Some? then Some(NodesWith(f.inl.value, refs))
      else None)
  }

  /** A record and its names; the references inside are placeholders. */
  datatype Named<T> = Named(item: T, names: seq<Name>)

  // ----- rows -----

  ghost predicate RowNamed(x: Named<Row>, k: Kind) {
    |x.names| == |Refs(x.item)| && KindOf(x.item) == k && (forall i :: 0 <= i < |x.names| ==> IsName(x.names[i]))
    && RowOk(WithRefs(x.item, seq(|x.names|, _ => 0)))
  }

  /** `row` is the record of x with its names' offsets filled in. */
  ghost predicate RowSpells(strs: seq<Byte>, row: Row, x: Named<Row>) {
    |x.names| == |Refs(x.item)| && Spelled(strs, Refs(row), x.names) && row == WithRefs(x.item, Refs(row))
  }

  lemma RowFilled(strs: seq<Byte>, x: Named<Row>, refs: seq<nat>)
    requires |x.names| == |Refs(x.item)| && Spelled(strs, refs, x.names)
    ensures RowSpells(strs, WithRefs(x.item, refs), x)
  {
    hide StrAt;
    assert Refs(WithRefs(x.item, refs)) == refs;
  }

  lemma RowStillOk(strs: seq<Byte>, row: Row, x: Named<Row>, k: Kind)
    requires RowSpells(strs, row, x) && RowNamed(x, k) && IsU64(|strs|)
    ensures RowOk(row) && KindOf(row) == k
  {
    hide LocOk;
    var refs := Refs(row);
    forall i | 0 <= i < |refs|
      ensures IsU64(refs[i])
    {
      InTable(strs, refs[i]);
    }
    hide StrAt;
    assert IsU64(refs[0]) && (row.RelocRow? ==> IsU64(refs[1]));
  }

  ghost predicate RowsSpell(strs: seq<Byte>, rows: seq<Row>, xs: seq<Named<Row>>) {
    |rows| == |xs| && forall i :: 0 <= i < |xs| ==> RowSpells(strs, rows[i], xs[i])
  }

  /** A record with its names looked up. */
  function NameRow(strs: seq<Byte>, r: Row): Option<Named<Row>> {
    var names := Lookup(strs, Refs(r));
    if names.None? then None else Some(Named(WithRefs(r, seq(|Refs(r)|, _ => 0)), names.value))
  }

  /** The same with the placeholders at 0. */
  function BareRow(x: Named<Row>): Named<Row>
    requires |x.names| == |Refs(x.item)|
  {
    x.(item := WithRefs(x.item, seq(|x.names|, _ => 0)))
  }

  lemma NameRowBack(strs: seq<Byte>, row: Row, x: Named<Row>)
    requires RowSpells(strs, row, x)
    ensures NameRow(strs, row) == Some(BareRow(x))
  {
    hide StrAt, Lookup;
    LookupSpelled(strs, Refs(row), x.names);
  }

  // ----- functions -----

  ghost predicate FuncNamed(x: Named<Func>) {
    && |x.names| == |FuncRefs(x.item)| && (forall i :: 0 <= i < |x.names| ==> IsName(x.names[i]))
    && FuncOk(FuncWith(x.item, seq(|x.names|, _ => 0)))
  }

  ghost predicate FuncSpells(strs: seq<Byte>, f: Func, x: Named<Func>) {
    |x.names| == |FuncRefs(x.item)| && Spelled(strs, FuncRefs(f), x.names) && f == FuncWith(x.item, FuncRefs(f))
  }

  lemma FuncFilled(strs: seq<Byte>, x: Named<Func>, refs: seq<nat>)
    requires |x.names| == |FuncRefs(x.item)| && Spelled(strs, refs, x.names)
    ensures FuncSpells(strs, FuncWith(x.item, refs), x)
  {
    hide StrAt;
    assert FuncRefs(FuncWith(x.item, refs)) == refs;
  }

  lemma FuncStillOk(strs: seq<Byte>, f: Func, x: Named<Func>)
    requires FuncSpells(strs, f, x) && FuncNamed(x) && IsU64(|strs|)
    ensures FuncOk(f)
  {
    var refs, bare := FuncRefs(f), FuncWith(x.item, seq(|x.names|, _ => 0));
    forall i | 0 <= i < |refs|
      ensures IsU64(refs[i])
    {
      InTable(strs, refs[i]);
    }
    hide StrAt, TablesOk, GcOk;
    assert FuncOk(bare);
    if f.inl.Some? {
      forall i | 0 <= i < |f.inl.value|
        ensures NodeOk(f.inl.value[i])
      {
        assert NodeOk(bare.inl.value[i]) && IsU64(refs[i]);
      }
    }
    assert IsU64(refs[|refs| - 1]);
  }

  ghost predicate FuncsSpell(strs: seq<Byte>, fs: seq<Func>, xs: seq<Named<Func>>) {
    |fs| == |xs| && forall i :: 0 <= i < |xs| ==> FuncSpells(strs, fs[i], xs[i])
  }

  function NameFunc(strs: seq<Byte>, f: Func): Option<Named<Func>> {
    var names := Lookup(strs, FuncRefs(f));
    if names.None? then None else Some(Named(FuncWith(f, seq(|FuncRefs(f)|, _ => 0)), names.value))
  }

  /** What comes back of a function: what the records lose, and 0 for the placeholders. */
  function BareFunc(x: Named<Func>, minor: nat): Named<Func>
    requires |x.names| == |FuncRefs(x.item)|
  {
    x.(item := Restored(FuncWith(x.item, seq(|x.names|, _ => 0)), minor))
  }

  lemma NameFuncBack(strs: seq<Byte>, f: Func, x: Named<Func>, minor: nat)
    requires FuncSpells(strs, f, x)
    ensures NameFunc(strs, Restored(f, minor)) == Some(BareFunc(x, minor))
  {
    hide StrAt, Lookup, CollapsedAll;
    var g := Restored(f, minor);
    assert Nodes(g) == Nodes(f) && FuncRefs(g) == FuncRefs(f);
    LookupSpelled(strs, FuncRefs(f), x.names);
    var zeros := seq(|x.names|, _ => 0);
    assert |FuncRefs(f)| == |x.names| && FuncWith(g, zeros) == Restored(FuncWith(x.item, zeros), minor) by {
      if f.inl.Some? { assert NodesWith(f.inl.value, zeros) == NodesWith(x.item.inl.value, zeros); }
    }
  }

  // ----- the whole file -----

  function NameRows(strs: seq<Byte>, rows: seq<Row>): Option<seq<Named<Row>>> {
    if rows == [] then Some([]) else
      var x, more := NameRow(strs, rows[0]), NameRows(strs, rows[1..]);
      if x.None? || more.None? then None else Some([x.value] + more.value)
  }

  function NameFuncs(strs: seq<Byte>, fs: seq<Func>): Option<seq<Named<Func>>> {
    if fs == [] then Some([]) else
      var x, more := NameFunc(strs, fs[0]), NameFuncs(strs, fs[1..]);
      if x.None? || more.None? then None else Some([x.value] + more.value)
  }

  function ReadNamed(strs: seq<Byte>, b: seq<Byte>, k: Kind): Option<seq<Named<Row>>> {
    var rows := ParseRows(b, k);
    if rows.None? then None else NameRows(strs, rows.value)
  }

  function ReadNamedFuncs(strs: seq<Byte>, s: Sections): Option<seq<Named<Func>>> {
    var fs := Parse(s);
    if fs.None? then None else NameFuncs(strs, fs.value)
  }

  ghost predicate RowsNamed(xs: seq<Named<Row>>, k: Kind) { forall i :: 0 <= i < |xs| ==> RowNamed(xs[i], k) }

  ghost predicate FuncsNamed(xs: seq<Named<Func>>) { forall i :: 0 <= i < |xs| ==> FuncNamed(xs[i]) }

  ghost function BareRows(xs: seq<Named<Row>>, k: Kind): seq<Named<Row>>
    requires RowsNamed(xs, k)
  {
    seq(|xs|, i requires 0 <= i < |xs| => BareRow(xs[i]))
  }

  ghost function BareFuncs(xs: seq<Named<Func>>, minor: nat): seq<Named<Func>>
    requires FuncsNamed(xs)
  {
    seq(|xs|, i requires 0 <= i < |xs| => BareFunc(xs[i], minor))
  }

  lemma NameRowsCons(strs: seq<Byte>, row: Row, rest: seq<Row>, x: Named<Row>, more: seq<Named<Row>>)
    requires NameRow(strs, row) == Some(x) && NameRows(strs, rest) == Some(more)
    ensures NameRows(strs, [row] + rest) == Some([x] + more)
  {
    hide NameRow;
    assert ([row] + rest)[1..] == rest;
  }

  lemma BareRowsCons(xs: seq<Named<Row>>, k: Kind)
    requires RowsNamed(xs, k)
    ensures xs == [] ==> BareRows(xs, k) == []
    ensures xs != [] ==> BareRows(xs, k) == [BareRow(xs[0])] + BareRows(xs[1..], k)
  {
  }

  lemma {:induction false} NameRowsBack(strs: seq<Byte>, rows: seq<Row>, xs: seq<Named<Row>>, k: Kind)
    requires RowsNamed(xs, k) && RowsSpell(strs, rows, xs)
    ensures NameRows(strs, rows) == Some(BareRows(xs, k))
    decreases |xs|
  {
    BareRowsCons(xs, k);
    if xs == [] {
      assert rows == [];
    } else {
      assert RowNamed(xs[0], k) && RowSpells(strs, rows[0], xs[0]);
      hide NameRow, RowSpells, BareRows, NameRows;
      NameRowBack(strs, rows[0], xs[0]);
      NameRowsBack(strs, rows[1..], xs[1..], k);
      assert rows == [rows[0]] + rows[1..];
      NameRowsCons(strs, rows[0], rows[1..], BareRow(xs[0]), BareRows(xs[1..], k));
    }
  }

  lemma NameFuncsCons(strs: seq<Byte>, f: Func, rest: seq<Func>, x: Named<Func>, more: seq<Named<Func>>)
    requires NameFunc(strs, f) == Some(x) && NameFuncs(strs, rest) == Some(more)
    ensures NameFuncs(strs, [f] + rest) == Some([x] + more)
  {
    hide NameFunc;
    assert ([f] + rest)[1..] == rest;
  }

  lemma BareFuncsCons(xs: seq<Named<Func>>, minor: nat)
    requires FuncsNamed(xs)
    ensures xs == [] ==> BareFuncs(xs, minor) == []
    ensures xs != [] ==> BareFuncs(xs, minor) == [BareFunc(xs[0], minor)] + BareFuncs(xs[1..], minor)
  {
    hide FuncOk, Restored, FuncWith;
  }

  lemma RestoredCons(fs: seq<Func>, minor: nat)
    ensures fs == [] ==> RestoredAll(fs, minor) == []
    ensures fs != [] ==> RestoredAll(fs, minor) == [Restored(fs[0], minor)] + RestoredAll(fs[1..], minor)
  {
    hide Restored;
  }

  lemma {:induction false} NameFuncsBack(strs: seq<Byte>, fs: seq<Func>, xs: seq<Named<Func>>, minor: nat)
    requires FuncsNamed(xs) && FuncsSpell(strs, fs, xs)
    ensures NameFuncs(strs, RestoredAll(fs, minor)) == Some(BareFuncs(xs, minor))
    decreases |xs|
  {
    BareFuncsCons(xs, minor);
    RestoredCons(fs, minor);
    if xs != [] {
      assert FuncNamed(xs[0]) && FuncSpells(strs, fs[0], xs[0]);
      hide NameFunc, FuncSpells, FuncOk, Restored, FuncWith, BareFuncs, RestoredAll, NameFuncs;
      NameFuncBack(strs, fs[0], xs[0], minor);
      NameFuncsBack(strs, fs[1..], xs[1..], minor);
      NameFuncsCons(strs, Restored(fs[0], minor), RestoredAll(fs[1..], minor), BareFunc(xs[0], minor),
        BareFuncs(xs[1..], minor));
    }
  }

  /** One section of named records comes back. */
  lemma NamedBack(strs: seq<Byte>, rows: seq<Row>, xs: seq<Named<Row>>, k: Kind)
    requires RowsNamed(xs, k) && RowsSpell(strs, rows, xs) && IsU64(|strs|) && IsU64(|Cat(RowBodies(rows))|)
    ensures ReadNamed(strs, Cat(RowBodies(rows)), k) == Some(BareRows(xs, k))
  {
    hide RowNamed, RowSpells, ParseRows, Cat, NameRows, RowOk;
    forall i | 0 <= i < |rows|
      ensures RowOk(rows[i]) && KindOf(rows[i]) == k
    {
      assert RowNamed(xs[i], k) && RowSpells(strs, rows[i], xs[i]);
      RowStillOk(strs, rows[i], xs[i], k);
    }
    RowsRoundTrip(rows, k);
    NameRowsBack(strs, rows, xs, k);
  }

  lemma NamedFuncsBack(strs: seq<Byte>, fs: seq<Func>, xs: seq<Named<Func>>, minor: nat)
    requires FuncsNamed(xs) && FuncsSpell(strs, fs, xs) && IsU64(|strs|) && FuncRecords.Fits(Written(fs, minor))
    ensures ReadNamedFuncs(strs, Written(fs, minor)) == Some(BareFuncs(xs, minor))
  {
    hide FuncNamed, FuncSpells, FuncOk, Parse, Written, NameFuncs, FuncRecords.Fits, RestoredAll;
    forall i | 0 <= i < |fs|
      ensures FuncOk(fs[i])
    {
      assert FuncNamed(xs[i]) && FuncSpells(strs, fs[i], xs[i]);
      FuncStillOk(strs, fs[i], xs[i]);
    }
    SectionsRoundTrip(fs, minor);
    NameFuncsBack(strs, fs, xs, minor);
  }
}
