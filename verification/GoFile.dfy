/** A Go object file: header with block offsets, strings, symbol records, index
    blocks and the blocks they index; and a reader that starts from the header. */
module GoFile {
  import opened Options
  import opened ByteType
  import opened LittleEndian
  import opened Counting
  import opened GoObject

  type Name = seq<Byte>

  datatype Blk =
    | Autolib | PkgIdx | FileBlk | Symdef | Hashed64def | Hasheddef | Nonpkgdef | Nonpkgref | RefFlags | Hash64 | Hash
    | RelocIdx | AuxIdx | DataIdx | RelocBlk | AuxBlk | DataBlk | RefName | End

  /** The order in which the writer writes the blocks. */
  const WRITTEN: seq<Blk> :=
    [Autolib, PkgIdx, FileBlk, Symdef, Hashed64def, Hasheddef, Nonpkgdef, Nonpkgref, RefFlags, Hash64, Hash,
     RelocIdx, AuxIdx, DataIdx, RelocBlk, AuxBlk, DataBlk, RefName, End]

  function Rank(k: Blk): (r: nat)
    ensures r < |WRITTEN| && WRITTEN[r] == k
  {
    match k
    case Autolib => 0 case PkgIdx => 1 case FileBlk => 2 case Symdef => 3 case Hashed64def => 4 case Hasheddef => 5
    case Nonpkgdef => 6 case Nonpkgref => 7 case RefFlags => 8 case Hash64 => 9 case Hash => 10 case RelocIdx => 11
    case AuxIdx => 12 case DataIdx => 13 case RelocBlk => 14 case AuxBlk => 15 case DataBlk => 16 case RefName => 17
    case End => 18
  }

  /** A symbol's record; `abi`, `size` and `align` are words of 2, 4 and 4 bytes. */
  datatype Rec = Rec(name: Name, abi: nat, kind: Byte, flag: Byte, flag2: Byte, size: nat, align: nat)

  /** A defined symbol as the file holds it. */
  datatype Item = Item(rec: Rec, relocs: seq<Reloc>, aux: seq<Aux>, data: seq<Byte>)

  /** `hash64` and `hash` are the contents hashes of the two hashed blocks,
      `strings` the strings in the order they are added. */
  datatype Obj = Obj(defs: seq<Item>, hashed64: seq<Item>, hashed: seq<Item>, nonpkgdefs: seq<Item>,
                     nonpkgrefs: seq<Rec>, hash64: seq<seq<Byte>>, hash: seq<seq<Byte>>, files: seq<Name>,
                     strings: seq<Name>) {
    function Items(): seq<Item> { defs + hashed64 + hashed + nonpkgdefs }

    function Records(): seq<Rec> { Recs(Items()) + nonpkgrefs }
  }

  /** What a release fixes: the magic, the header's flags and the order of the
      block offsets in the header. */
  datatype Format = Format(magic: seq<Byte>, flags: nat, order: seq<Blk>)

  function Recs(xs: seq<Item>): seq<Rec> { seq(|xs|, i requires 0 <= i < |xs| => xs[i].rec) }

  // ----- strings -----

  /** The strings written so far and where each begins. */
  datatype Tab = Tab(bytes: seq<Byte>, pos: map<Name, nat>)

  function Added(base: nat, t: Tab, v: Name): Tab {
    if v in t.pos then t else Tab(t.bytes + v, t.pos[v := base + |t.bytes|])
  }

  function AddedAll(base: nat, vs: seq<Name>): Tab {
    if vs == [] then Tab([], map[]) else Added(base, AddedAll(base, vs[..|vs| - 1]), vs[|vs| - 1])
  }

  /** Name v begins at `at`, in strings that begin at `base`. */
  ghost predicate Spelled(base: nat, bytes: seq<Byte>, at: nat, v: Name) { at >= base && Block(bytes, at - base, v) }

  ghost predicate TabOk(base: nat, t: Tab) { forall v :: v in t.pos ==> Spelled(base, t.bytes, t.pos[v], v) }

  lemma SpelledGrows(base: nat, bytes: seq<Byte>, more: seq<Byte>, at: nat, v: Name)
    requires Spelled(base, bytes, at, v)
    ensures Spelled(base, bytes + more, at, v)
  {
    BlockGrows(bytes, more, at - base, v);
  }

  lemma SpelledLast(base: nat, bytes: seq<Byte>, v: Name)
    ensures Spelled(base, bytes + v, base + |bytes|, v)
  {
    BlockShifts(bytes, v, 0, v);
  }

  lemma AddedOk(base: nat, t: Tab, v: Name)
    requires TabOk(base, t)
    ensures TabOk(base, Added(base, t, v)) && Added(base, t, v).pos.Keys == t.pos.Keys + {v}
  {
    hide Spelled;
    if v !in t.pos {
      var u := Added(base, t, v);
      SpelledLast(base, t.bytes, v);
      forall w | w in u.pos
        ensures Spelled(base, u.bytes, u.pos[w], w)
      {
        if w != v { SpelledGrows(base, t.bytes, v, t.pos[w], w); }
      }
    }
  }

  lemma {:induction false} AddedAllOk(base: nat, vs: seq<Name>)
    ensures TabOk(base, AddedAll(base, vs)) && AddedAll(base, vs).pos.Keys == set v | v in vs
  {
    hide TabOk, Added;
    if vs == [] {
      assert TabOk(base, Tab([], map[])) by { NoStrings(base); }
    } else {
      var n := |vs| - 1;
      AddedAllOk(base, vs[..n]);
      AddedOk(base, AddedAll(base, vs[..n]), vs[n]);
      assert vs == vs[..n] + [vs[n]];
    }
  }

  lemma NoStrings(base: nat)
    ensures TabOk(base, Tab([], map[]))
  {
  }

  // ----- the contents of the blocks -----

  const REF_SIZE := 8
  const SYM_SIZE := 21

  /** A string reference: length and offset. A string that was not added would
      stop the writer. */
  function PutName(t: Tab, v: Name): (b: seq<Byte>)
    ensures |b| == REF_SIZE
  {
    Le(4, |v|) + Le(4, if v in t.pos then t.pos[v] else 0)
  }

  function PutRec(t: Tab, r: Rec): (b: seq<Byte>)
    ensures |b| == SYM_SIZE
  {
    PutName(t, r.name) + Le(2, r.abi) + [r.kind, r.flag, r.flag2] + Le(4, r.size) + Le(4, r.align)
  }

  function PutNames(t: Tab, vs: seq<Name>): seq<seq<Byte>> { seq(|vs|, i requires 0 <= i < |vs| => PutName(t, vs[i])) }

  function PutRecs(t: Tab, rs: seq<Rec>): seq<seq<Byte>> { seq(|rs|, i requires 0 <= i < |rs| => PutRec(t, rs[i])) }

  function PutRelocs(rs: seq<Reloc>): seq<seq<Byte>> { seq(|rs|, k requires 0 <= k < |rs| => PutReloc(rs[k])) }

  function PutAuxs(xs: seq<Aux>): seq<seq<Byte>> { seq(|xs|, k requires 0 <= k < |xs| => PutAux(xs[k])) }

  /** The relocation, auxiliary and data parts, one for each defined symbol. */
  function RelocParts(xs: seq<Item>): seq<seq<seq<Byte>>> {
    seq(|xs|, i requires 0 <= i < |xs| => PutRelocs(xs[i].relocs))
  }

  function AuxParts(xs: seq<Item>): seq<seq<seq<Byte>>> { seq(|xs|, i requires 0 <= i < |xs| => PutAuxs(xs[i].aux)) }

  function DataParts(xs: seq<Item>): seq<seq<Byte>> { seq(|xs|, i requires 0 <= i < |xs| => xs[i].data) }

  function IndexBytes<T>(parts: seq<seq<T>>): seq<Byte> { Flat(U32s(Counts(parts))) }

  function Content(o: Obj, t: Tab, k: Blk): seq<Byte> {
    match k
    case PkgIdx => PutName(t, [])
    case FileBlk => Flat(PutNames(t, o.files))
    case Symdef => Flat(PutRecs(t, Recs(o.defs)))
    case Hashed64def => Flat(PutRecs(t, Recs(o.hashed64)))
    case Hasheddef => Flat(PutRecs(t, Recs(o.hashed)))
    case Nonpkgdef => Flat(PutRecs(t, Recs(o.nonpkgdefs)))
    case Nonpkgref => Flat(PutRecs(t, o.nonpkgrefs))
    case Hash64 => Flat(o.hash64)
    case Hash => Flat(o.hash)
    case RelocIdx => IndexBytes(RelocParts(o.Items()))
    case AuxIdx => IndexBytes(AuxParts(o.Items()))
    case DataIdx => IndexBytes(DataParts(o.Items()))
    case RelocBlk => Flat(Flat(RelocParts(o.Items())))
    case AuxBlk => Flat(Flat(AuxParts(o.Items())))
    case DataBlk => Flat(DataParts(o.Items()))
    case _ => []
  }

  // ----- the file -----

  /** Magic, fingerprint and flags come before the block offsets. */
  function HeaderSize(f: Format): nat { |f.magic| + 12 + 4 * |f.order| }

  function Strings(f: Format, o: Obj): Tab { AddedAll(HeaderSize(f), o.strings) }

  function Contents(o: Obj, t: Tab): seq<seq<Byte>> {
    seq(|WRITTEN|, i requires 0 <= i < |WRITTEN| => Content(o, t, WRITTEN[i]))
  }

  /** Where block k begins. */
  function Offset(f: Format, o: Obj, k: Blk): nat {
    HeaderSize(f) + |Strings(f, o).bytes| + Begin(Contents(o, Strings(f, o)), Rank(k))
  }

  function Offsets(f: Format, o: Obj): seq<nat> {
    seq(|f.order|, j requires 0 <= j < |f.order| => Offset(f, o, f.order[j]))
  }

  function Body(f: Format, o: Obj): seq<Byte> { Strings(f, o).bytes + Flat(Contents(o, Strings(f, o))) }

  /** Magic, an empty fingerprint, the flags. */
  function Fixed(f: Format): (b: seq<Byte>)
    ensures |b| == |f.magic| + 12
  {
    f.magic + [0, 0, 0, 0, 0, 0, 0, 0] + Le(4, f.flags)
  }

  function FileOf(f: Format, o: Obj): seq<Byte> { Fixed(f) + Flat(U32s(Offsets(f, o))) + Body(f, o) }

  /** Every block has its offset in the header, once, and the end comes last. */
  ghost predicate FormatOk(f: Format) {
    Distinct(f.order) && (forall k: Blk :: k in f.order) && |f.order| > 0 && f.order[|f.order| - 1] == End
  }

  // ----- the reader -----

  function IndexOf(ks: seq<Blk>, k: Blk): (j: nat)
    requires k in ks
    ensures j < |ks| && ks[j] == k
  {
    if ks[0] == k then 0 else 1 + IndexOf(ks[1..], k)
  }

  /** The offset of block k, from the header. */
  function Off(f: Format, b: seq<Byte>, k: Blk): Option<nat> {
    if k in f.order then ReadU32(b, |f.magic| + 12 + 4 * IndexOf(f.order, k)) else None
  }

  /** The number of symbols in block k, from where the next one begins. */
  function SymCount(f: Format, b: seq<Byte>, k: Blk, next: Blk): Option<nat> {
    var lo, hi := Off(f, b, k), Off(f, b, next);
    if lo.None? || hi.None? || hi.value < lo.value then None else Some((hi.value - lo.value) / SYM_SIZE)
  }

  datatype Sizes = Sizes(defs: nat, hashed64: nat, hashed: nat, nonpkgdefs: nat, nonpkgrefs: nat)

  function ReadSizes(f: Format, b: seq<Byte>): Option<Sizes> {
    var n0, n1 := SymCount(f, b, Symdef, Hashed64def), SymCount(f, b, Hashed64def, Hasheddef);
    var n2, n3, n4 := SymCount(f, b, Hasheddef, Nonpkgdef), SymCount(f, b, Nonpkgdef, Nonpkgref),
      SymCount(f, b, Nonpkgref, RefFlags);
    if n0.None? || n1.None? || n2.None? || n3.None? || n4.None? then None
    else Some(Sizes(n0.value, n1.value, n2.value, n3.value, n4.value))
  }

  function ReadName(b: seq<Byte>, o: nat): Option<Name> {
    var n, at := ReadU32(b, o), ReadU32(b, o + 4);
    if n.None? || at.None? then None else Slice(b, at.value, at.value + n.value)
  }

  /** Symbol i, counting through the blocks of symbols. */
  function ReadSym(f: Format, b: seq<Byte>, i: nat): Option<Rec> {
    var at := Off(f, b, Symdef);
    if at.None? then None else
      var o := at.value + SYM_SIZE * i;
      var raw, name := Slice(b, o, o + SYM_SIZE), ReadName(b, o);
      if raw.None? || name.None? then None else
        var x := raw.value;
        Some(Rec(name.value, UnLe(x[8..10]), x[10], x[11], x[12], UnLe(x[13..17]), UnLe(x[17..21])))
  }

  function Indexed(f: Format, b: seq<Byte>, index: Blk, body: Blk, size: nat, i: nat): (raw: Option<seq<seq<Byte>>>)
    ensures raw.Some? ==> forall k :: 0 <= k < |raw.value| ==> |raw.value[k]| == size
  {
    var lo, at := Off(f, b, index), Off(f, b, body);
    if lo.None? || at.None? then None else ReadRecords(b, lo.value, at.value, size, i)
  }

  function ReadRelocs(f: Format, b: seq<Byte>, i: nat): Option<seq<Reloc>> {
    var raw := Indexed(f, b, RelocIdx, RelocBlk, RELOC_SIZE, i);
    if raw.None? then None else Some(GetRelocs(raw.value))
  }

  function GetRelocs(raw: seq<seq<Byte>>): seq<Reloc>
    requires forall k :: 0 <= k < |raw| ==> |raw[k]| == RELOC_SIZE
  {
    seq(|raw|, k requires 0 <= k < |raw| => GetReloc(raw[k]))
  }

  function GetAuxs(raw: seq<seq<Byte>>): seq<Aux>
    requires forall k :: 0 <= k < |raw| ==> |raw[k]| == AUX_SIZE
  {
    seq(|raw|, k requires 0 <= k < |raw| => GetAux(raw[k]))
  }

  function ReadAuxs(f: Format, b: seq<Byte>, i: nat): Option<seq<Aux>> {
    var raw := Indexed(f, b, AuxIdx, AuxBlk, AUX_SIZE, i);
    if raw.None? then None else Some(GetAuxs(raw.value))
  }

  function ReadData(f: Format, b: seq<Byte>, i: nat): Option<seq<Byte>> {
    var lo, at := Off(f, b, DataIdx), Off(f, b, DataBlk);
    if lo.None? || at.None? then None else
      var a, z := ReadU32(b, lo.value + 4 * i), ReadU32(b, lo.value + 4 * i + 4);
      if a.None? || z.None? then None else Slice(b, at.value + a.value, at.value + z.value)
  }

  /** Everything about defined symbol i. */
  function ReadItem(f: Format, b: seq<Byte>, i: nat): Option<Item> {
    var rec, relocs, aux, data := ReadSym(f, b, i), ReadRelocs(f, b, i), ReadAuxs(f, b, i), ReadData(f, b, i);
    if rec.None? || relocs.None? || aux.None? || data.None? then None
    else Some(Item(rec.value, relocs.value, aux.value, data.value))
  }

  // ----- where things are -----

  lemma PieceAt(f: Format, o: Obj, k: Blk)
    ensures Block(Body(f, o), Offset(f, o, k) - HeaderSize(f), Content(o, Strings(f, o), k))
    ensures Offset(f, o, k) + |Content(o, Strings(f, o), k)| <= |FileOf(f, o)|
  {
    hide Content, Strings, Fixed;
    var t := Strings(f, o);
    var parts, r := Contents(o, t), Rank(k);
    FlatSlice(parts, r);
    BlockShifts(t.bytes, Flat(parts), Begin(parts, r), parts[r]);
    assert parts[r] == Content(o, t, k);
    HeadSize(f, o);
  }

  lemma HeadSize(f: Format, o: Obj)
    ensures |Fixed(f) + Flat(U32s(Offsets(f, o)))| == HeaderSize(f)
  {
    hide Offset, Fixed;
    var words := U32s(Offsets(f, o));
    FixedStart(words, 4, |words|);
    assert words[..|words|] == words;
  }

  /** Each block's contents are at its offset. */
  lemma BlockAt(f: Format, o: Obj, k: Blk)
    ensures Block(FileOf(f, o), Offset(f, o, k), Content(o, Strings(f, o), k))
  {
    hide Content, Strings, Fixed, Offset, Body;
    PieceAt(f, o, k);
    HeadSize(f, o);
    OffsetsInside(f, o, k);
    BlockShifts(Fixed(f) + Flat(U32s(Offsets(f, o))), Body(f, o), Offset(f, o, k) - HeaderSize(f),
      Content(o, Strings(f, o), k));
  }

  lemma OffsetsInside(f: Format, o: Obj, k: Blk)
    ensures Offset(f, o, k) >= HeaderSize(f)
  {
  }

  /** The header's offset of a block is where the block is. */
  lemma OffBack(f: Format, o: Obj, k: Blk)
    requires FormatOk(f) && |FileOf(f, o)| < Pow256(4)
    ensures Off(f, FileOf(f, o), k) == Some(Offset(f, o, k))
  {
    hide Offset, Content, Strings, Body, Pow256;
    PieceAt(f, o, k);
    var j, words := IndexOf(f.order, k), U32s(Offsets(f, o));
    var file := FileOf(f, o);
    BlockShifts(Fixed(f), Flat(words), 0, Flat(words));
    BlockGrows(Fixed(f) + Flat(words), Body(f, o), |Fixed(f)|, Flat(words));
    RecordBack(file, |Fixed(f)|, words, 4, j);
    assert words[j] == Le(4, Offset(f, o, k));
    WordRead(file, |Fixed(f)| + 4 * j, Offset(f, o, k));
  }

  /** A string is found where its reference says. */
  lemma NameAt(f: Format, o: Obj, v: Name)
    requires v in o.strings
    ensures v in Strings(f, o).pos && Block(FileOf(f, o), Strings(f, o).pos[v], v)
  {
    hide Contents, Offsets, Fixed;
    var t := Strings(f, o);
    AddedAllOk(HeaderSize(f), o.strings);
    HeadSize(f, o);
    BlockGrows(t.bytes, Flat(Contents(o, t)), t.pos[v] - HeaderSize(f), v);
    BlockShifts(Fixed(f) + Flat(U32s(Offsets(f, o))), Body(f, o), t.pos[v] - HeaderSize(f), v);
  }

  // ----- symbols -----

  ghost predicate RecOk(r: Rec) { r.abi < Pow256(2) && r.size < Pow256(4) && r.align < Pow256(4) }

  lemma {:induction false} RecsJoin(t: Tab, a: seq<Rec>, b: seq<Rec>)
    ensures Flat(PutRecs(t, a + b)) == Flat(PutRecs(t, a)) + Flat(PutRecs(t, b))
  {
    FlatJoin(PutRecs(t, a), PutRecs(t, b));
    assert PutRecs(t, a + b) == PutRecs(t, a) + PutRecs(t, b);
  }

  lemma RecordsSplit(o: Obj)
    ensures o.Records() == Recs(o.defs) + Recs(o.hashed64) + Recs(o.hashed) + Recs(o.nonpkgdefs) + o.nonpkgrefs
  {
  }

  /** The five blocks of symbols follow one another. */
  lemma SymbolsAt(f: Format, o: Obj)
    ensures Block(FileOf(f, o), Offset(f, o, Symdef), Flat(PutRecs(Strings(f, o), o.Records())))
  {
    assert Offset(f, o, Symdef) == HeaderSize(f) + |Strings(f, o).bytes| + Begin(Contents(o, Strings(f, o)), 3);
    hide Strings, Contents, PutRecs, Offset, FileOf, HeaderSize, Begin;
    FiveParts(o, Strings(f, o));
    RunAt(f, o, 3, 8);
  }

  lemma FileIs(f: Format, o: Obj)
    ensures Body(f, o) == Strings(f, o).bytes + Flat(Contents(o, Strings(f, o)))
    ensures FileOf(f, o) == Fixed(f) + Flat(U32s(Offsets(f, o))) + Body(f, o)
  {
  }

  lemma RunInside(head: seq<Byte>, strings: seq<Byte>, parts: seq<seq<Byte>>, i: nat, j: nat)
    requires i <= j <= |parts|
    ensures Block(head + (strings + Flat(parts)), |head| + (|strings| + Begin(parts, i)), Flat(parts[i..j]))
  {
    hide Flat, Begin, Block;
    FlatRange(parts, i, j);
    BlockShifts(strings, Flat(parts), Begin(parts, i), Flat(parts[i..j]));
    BlockShifts(head, strings + Flat(parts), |strings| + Begin(parts, i), Flat(parts[i..j]));
  }

  /** A run of blocks is in the file. */
  lemma RunAt(f: Format, o: Obj, i: nat, j: nat)
    requires i <= j <= |WRITTEN|
    ensures var parts := Contents(o, Strings(f, o));
      Block(FileOf(f, o), HeaderSize(f) + |Strings(f, o).bytes| + Begin(parts, i), Flat(parts[i..j]))
  {
    var t := Strings(f, o);
    assert |Contents(o, t)| == |WRITTEN|;
    hide Strings, Contents, Fixed, Offsets, HeaderSize, Flat, Begin, U32s, Block, FileOf, Body;
    HeadSize(f, o);
    FileIs(f, o);
    RunInside(Fixed(f) + Flat(U32s(Offsets(f, o))), t.bytes, Contents(o, t), i, j);
  }

  lemma FiveParts(o: Obj, t: Tab)
    ensures Flat(Contents(o, t)[3..8]) == Flat(PutRecs(t, o.Records()))
  {
    RecordsSplit(o);
    hide PutRecs, Recs;
    var a, b, c, d, e := Recs(o.defs), Recs(o.hashed64), Recs(o.hashed), Recs(o.nonpkgdefs), o.nonpkgrefs;
    RecsJoin(t, a, b);
    RecsJoin(t, a + b, c);
    RecsJoin(t, a + b + c, d);
    RecsJoin(t, a + b + c + d, e);
    FlatFive(Content(o, t, Symdef), Content(o, t, Hashed64def), Content(o, t, Hasheddef), Content(o, t, Nonpkgdef),
      Content(o, t, Nonpkgref));
    assert Contents(o, t)[3..8] == [Content(o, t, Symdef), Content(o, t, Hashed64def), Content(o, t, Hasheddef),
                                   Content(o, t, Nonpkgdef), Content(o, t, Nonpkgref)];
  }

  lemma FlatFive(a: seq<Byte>, b: seq<Byte>, c: seq<Byte>, d: seq<Byte>, e: seq<Byte>)
    ensures Flat([a, b, c, d, e]) == a + b + c + d + e
  {
    assert Flat([a]) == a;
    hide Flat;
    FlatLast([a, b]);
    FlatLast([a, b, c]);
    FlatLast([a, b, c, d]);
    FlatLast([a, b, c, d, e]);
    assert [a, b][..1] == [a];
    assert [a, b, c][..2] == [a, b];
    assert [a, b, c, d][..3] == [a, b, c];
    assert [a, b, c, d, e][..4] == [a, b, c, d];
  }

  lemma FlatLast(parts: seq<seq<Byte>>)
    requires parts != []
    ensures Flat(parts) == Flat(parts[..|parts| - 1]) + parts[|parts| - 1]
  {
  }

  lemma FieldsBack(t: Tab, r: Rec, x: seq<Byte>)
    requires x == PutRec(t, r) && RecOk(r)
    ensures UnLe(x[8..10]) == r.abi && x[10] == r.kind && x[11] == r.flag && x[12] == r.flag2
    ensures UnLe(x[13..17]) == r.size && UnLe(x[17..21]) == r.align
    ensures x[..8] == PutName(t, r.name)
  {
    hide Le, UnLe, Pow256;
    assert x[8..10] == Le(2, r.abi) && x[13..17] == Le(4, r.size) && x[17..21] == Le(4, r.align);
    LeBack(2, r.abi);
    LeBack(4, r.size);
    LeBack(4, r.align);
  }

  /** A name is read back through its reference. */
  lemma NameBack(f: Format, o: Obj, at: nat, v: Name)
    requires |FileOf(f, o)| < Pow256(4) && v in o.strings && Block(FileOf(f, o), at, PutName(Strings(f, o), v))
    ensures ReadName(FileOf(f, o), at) == Some(v)
  {
    hide Le, Pow256, Strings, FileOf, ReadU32, Block;
    var file, t := FileOf(f, o), Strings(f, o);
    NameAt(f, o, v);
    NameInside(file, t.pos[v], v);
    RefBack(file, at, |v|, t.pos[v]);
  }

  lemma NameInside(file: seq<Byte>, at: nat, v: Name)
    requires Block(file, at, v)
    ensures |v| <= |file| && at <= |file| && Slice(file, at, at + |v|) == Some(v)
  {
  }

  lemma RefBack(file: seq<Byte>, at: nat, n: nat, pos: nat)
    requires Block(file, at, Le(4, n) + Le(4, pos)) && n < Pow256(4) && pos < Pow256(4)
    ensures ReadU32(file, at) == Some(n) && ReadU32(file, at + 4) == Some(pos)
  {
    hide Le, UnLe, Pow256, ReadU32;
    var ref := Le(4, n) + Le(4, pos);
    BlockSlice(file, at, ref, 0, 4);
    BlockSlice(file, at, ref, 4, 8);
    assert ref[0..4] == Le(4, n) && ref[4..8] == Le(4, pos);
    WordRead(file, at, n);
    WordRead(file, at + 4, pos);
  }

  /** Every record comes back with its name. */
  lemma SymBack(f: Format, o: Obj, i: nat)
    requires FormatOk(f) && |FileOf(f, o)| < Pow256(4) && i < |o.Records()|
    requires RecOk(o.Records()[i]) && o.Records()[i].name in o.strings
    ensures ReadSym(f, FileOf(f, o), i) == Some(o.Records()[i])
  {
    hide FileOf, Offset, PutRec, Flat, FormatOk, Strings, Pow256, Off, Block, PutName;
    var file, t, rs := FileOf(f, o), Strings(f, o), o.Records();
    SymbolsAt(f, o);
    OffBack(f, o, Symdef);
    var at := Offset(f, o, Symdef) + SYM_SIZE * i;
    RecordBack(file, Offset(f, o, Symdef), PutRecs(t, rs), SYM_SIZE, i);
    FieldsBack(t, rs[i], PutRec(t, rs[i]));
    RecBlock(file, at, PutRec(t, rs[i]));
    NameBack(f, o, at, rs[i].name);
  }

  lemma RecBlock(file: seq<Byte>, at: nat, x: seq<Byte>)
    requires |x| == SYM_SIZE && Slice(file, at, at + SYM_SIZE) == Some(x)
    ensures Block(file, at, x[..8])
  {
    assert file[at..at + 8] == file[at..at + SYM_SIZE][..8];
  }

  /** The sizes of the five blocks are those of the object. */
  lemma SizesBack(f: Format, o: Obj)
    requires FormatOk(f) && |FileOf(f, o)| < Pow256(4)
    ensures ReadSizes(f, FileOf(f, o)) ==
      Some(Sizes(|o.defs|, |o.hashed64|, |o.hashed|, |o.nonpkgdefs|, |o.nonpkgrefs|))
  {
    hide FileOf, FormatOk, Off, Pow256, Offset, Strings, Flat, Recs, PutRecs, SymCount;
    RecsSize(o);
    CountBack(f, o, Symdef, Hashed64def, Recs(o.defs));
    CountBack(f, o, Hashed64def, Hasheddef, Recs(o.hashed64));
    CountBack(f, o, Hasheddef, Nonpkgdef, Recs(o.hashed));
    CountBack(f, o, Nonpkgdef, Nonpkgref, Recs(o.nonpkgdefs));
    CountBack(f, o, Nonpkgref, RefFlags, o.nonpkgrefs);
  }

  lemma RecsSize(o: Obj)
    ensures |Recs(o.defs)| == |o.defs| && |Recs(o.hashed64)| == |o.hashed64| && |Recs(o.hashed)| == |o.hashed|
    ensures |Recs(o.nonpkgdefs)| == |o.nonpkgdefs|
  {
  }

  lemma CountBack(f: Format, o: Obj, k: Blk, next: Blk, rs: seq<Rec>)
    requires FormatOk(f) && |FileOf(f, o)| < Pow256(4) && Rank(next) == Rank(k) + 1
    requires Content(o, Strings(f, o), k) == Flat(PutRecs(Strings(f, o), rs))
    ensures SymCount(f, FileOf(f, o), k, next) == Some(|rs|)
  {
    hide FileOf, FormatOk, Off, Pow256, Content, Strings, PutRec;
    var t := Strings(f, o);
    OffBack(f, o, k);
    OffBack(f, o, next);
    FlatSlice(Contents(o, t), Rank(k));
    assert Contents(o, t)[Rank(k)] == Content(o, t, k);
    var recs := PutRecs(t, rs);
    FixedStart(recs, SYM_SIZE, |recs|);
    assert recs[..|recs|] == recs;
  }

  // ----- relocations, auxiliary symbols, contents -----

  ghost predicate ItemOk(x: Item) {
    RecOk(x.rec) && (forall k :: 0 <= k < |x.relocs| ==> RelocOk(x.relocs[k])) && forall k :: 0 <= k < |x.aux| ==>
      AuxOk(x.aux[k])
  }

  lemma FewRecords(f: Format, o: Obj, k: Blk, recs: seq<seq<Byte>>, size: nat)
    requires |FileOf(f, o)| < Pow256(4) && Content(o, Strings(f, o), k) == Flat(recs) && size > 0
    requires forall i :: 0 <= i < |recs| ==> |recs[i]| == size
    ensures |recs| < Pow256(4)
  {
    hide FileOf, Pow256, Content, Strings, Offset;
    PieceAt(f, o, k);
    FixedStart(recs, size, |recs|);
    assert recs[..|recs|] == recs;
    assert size * |recs| >= |recs|;
  }

  lemma RelocsBack(f: Format, o: Obj, i: nat)
    requires FormatOk(f) && |FileOf(f, o)| < Pow256(4) && i < |o.Items()| && ItemOk(o.Items()[i])
    ensures ReadRelocs(f, FileOf(f, o), i) == Some(o.Items()[i].relocs)
  {
    hide FileOf, FormatOk, Off, Pow256, Offset, Strings, Flat, PutReloc, GetReloc, Block, RelocOk, ReadRecords;
    var parts, file := RelocParts(o.Items()), FileOf(f, o);
    FlatSized(parts, RELOC_SIZE);
    FewRecords(f, o, RelocBlk, Flat(parts), RELOC_SIZE);
    BlockAt(f, o, RelocIdx);
    BlockAt(f, o, RelocBlk);
    OffBack(f, o, RelocIdx);
    OffBack(f, o, RelocBlk);
    RecordsBack(file, Offset(f, o, RelocIdx), Offset(f, o, RelocBlk), parts, RELOC_SIZE, i);
    RelocsDecoded(o.Items()[i].relocs);
  }

  lemma RelocsDecoded(rs: seq<Reloc>)
    requires forall k :: 0 <= k < |rs| ==> RelocOk(rs[k])
    ensures GetRelocs(PutRelocs(rs)) == rs
  {
    hide PutReloc, GetReloc, RelocOk;
    forall k | 0 <= k < |rs|
      ensures GetReloc(PutReloc(rs[k])) == rs[k]
    {
      RelocBack(rs[k]);
    }
  }

  lemma AuxsDecoded(xs: seq<Aux>)
    requires forall k :: 0 <= k < |xs| ==> AuxOk(xs[k])
    ensures GetAuxs(PutAuxs(xs)) == xs
  {
    hide PutAux, GetAux, AuxOk;
    forall k | 0 <= k < |xs|
      ensures GetAux(PutAux(xs[k])) == xs[k]
    {
      AuxBack(xs[k]);
    }
  }

  lemma AuxsBack(f: Format, o: Obj, i: nat)
    requires FormatOk(f) && |FileOf(f, o)| < Pow256(4) && i < |o.Items()| && ItemOk(o.Items()[i])
    ensures ReadAuxs(f, FileOf(f, o), i) == Some(o.Items()[i].aux)
  {
    hide FileOf, FormatOk, Off, Pow256, Offset, Strings, Flat, PutAux, GetAux, Block, AuxOk, ReadRecords;
    var parts, file := AuxParts(o.Items()), FileOf(f, o);
    FlatSized(parts, AUX_SIZE);
    FewRecords(f, o, AuxBlk, Flat(parts), AUX_SIZE);
    BlockAt(f, o, AuxIdx);
    BlockAt(f, o, AuxBlk);
    OffBack(f, o, AuxIdx);
    OffBack(f, o, AuxBlk);
    RecordsBack(file, Offset(f, o, AuxIdx), Offset(f, o, AuxBlk), parts, AUX_SIZE, i);
    AuxsDecoded(o.Items()[i].aux);
  }

  lemma ContentsBack(f: Format, o: Obj, i: nat)
    requires FormatOk(f) && |FileOf(f, o)| < Pow256(4) && i < |o.Items()|
    ensures ReadData(f, FileOf(f, o), i) == Some(o.Items()[i].data)
  {
    hide FileOf, FormatOk, Off, Pow256, Offset, Strings, Flat, Block, ReadU32, Slice;
    var parts, file := DataParts(o.Items()), FileOf(f, o);
    BlockAt(f, o, DataIdx);
    BlockAt(f, o, DataBlk);
    PieceAt(f, o, DataBlk);
    OffBack(f, o, DataIdx);
    OffBack(f, o, DataBlk);
    DataBack(file, Offset(f, o, DataIdx), Offset(f, o, DataBlk), parts, i);
  }

  /** Numbers fit their fields, and every name was added. */
  ghost predicate ObjOk(o: Obj) {
    && (forall i :: 0 <= i < |o.Items()| ==> ItemOk(o.Items()[i]))
    && (forall i :: 0 <= i < |o.nonpkgrefs| ==> RecOk(o.nonpkgrefs[i]))
    && (forall i :: 0 <= i < |o.Records()| ==> o.Records()[i].name in o.strings)
    && (forall i :: 0 <= i < |o.files| ==> o.files[i] in o.strings)
  }

  /** Every defined symbol is read back: record, relocations, auxiliary symbols
      and contents, found from the header alone. */
  lemma ItemBack(f: Format, o: Obj, i: nat)
    requires FormatOk(f) && ObjOk(o) && |FileOf(f, o)| < Pow256(4) && i < |o.Items()|
    ensures ReadItem(f, FileOf(f, o), i) == Some(o.Items()[i])
  {
    hide FileOf, FormatOk, ReadSym, ReadRelocs, ReadAuxs, ReadData, Pow256;
    assert ItemOk(o.Items()[i]) && o.Records()[i] == o.Items()[i].rec && o.Records()[i].name in o.strings;
    SymBack(f, o, i);
    RelocsBack(f, o, i);
    AuxsBack(f, o, i);
    ContentsBack(f, o, i);
  }

  /** Undefined references come back too. */
  lemma ReferenceBack(f: Format, o: Obj, i: nat)
    requires FormatOk(f) && ObjOk(o) && |FileOf(f, o)| < Pow256(4) && i < |o.nonpkgrefs|
    ensures ReadSym(f, FileOf(f, o), |o.Items()| + i) == Some(o.nonpkgrefs[i])
  {
    hide FileOf, FormatOk, ReadSym, Pow256;
    assert o.Records()[|o.Items()| + i] == o.nonpkgrefs[i];
    SymBack(f, o, |o.Items()| + i);
  }

  // ----- the file table -----

  /** The references from offset o up to `end`. */
  function FilesFrom(b: seq<Byte>, o: nat, end: nat): Option<seq<Name>>
    decreases end - o
  {
    if o >= end then Some([]) else
      var v, more := ReadName(b, o), FilesFrom(b, o + REF_SIZE, end);
      if v.None? || more.None? then None else Some([v.value] + more.value)
  }

  function ReadFiles(f: Format, b: seq<Byte>): Option<seq<Name>> {
    var lo, hi := Off(f, b, FileBlk), Off(f, b, Symdef);
    if lo.None? || hi.None? then None else FilesFrom(b, lo.value, hi.value)
  }

  lemma {:induction false} FilesRun(f: Format, o: Obj, at: nat, vs: seq<Name>)
    requires |FileOf(f, o)| < Pow256(4) && (forall i :: 0 <= i < |vs| ==> vs[i] in o.strings)
    requires Block(FileOf(f, o), at, Flat(PutNames(Strings(f, o), vs)))
    ensures FilesFrom(FileOf(f, o), at, at + REF_SIZE * |vs|) == Some(vs)
    decreases |vs|
  {
    hide FileOf, Strings, Pow256, ReadName, PutName, Flat;
    if vs != [] {
      var t, file := Strings(f, o), FileOf(f, o);
      var recs := PutNames(t, vs);
      NamesFirst(t, vs);
      BlockPart(file, at, Flat(recs), 0, REF_SIZE);
      BlockPart(file, at, Flat(recs), REF_SIZE, |Flat(recs)|);
      NameBack(f, o, at, vs[0]);
      FilesRun(f, o, at + REF_SIZE, vs[1..]);
      assert [vs[0]] + vs[1..] == vs;
    }
  }

  lemma NamesFirst(t: Tab, vs: seq<Name>)
    requires vs != []
    ensures var b := Flat(PutNames(t, vs));
      |b| >= REF_SIZE && b[0..REF_SIZE] == PutName(t, vs[0]) && b[REF_SIZE..|b|] == Flat(PutNames(t, vs[1..]))
  {
    hide PutName;
    FlatJoin([PutName(t, vs[0])], PutNames(t, vs[1..]));
    FlatMore([], PutName(t, vs[0]));
    assert [] + [PutName(t, vs[0])] == [PutName(t, vs[0])];
    assert PutNames(t, vs) == [PutName(t, vs[0])] + PutNames(t, vs[1..]);
  }

  lemma FilesBack(f: Format, o: Obj)
    requires FormatOk(f) && ObjOk(o) && |FileOf(f, o)| < Pow256(4)
    ensures ReadFiles(f, FileOf(f, o)) == Some(o.files)
  {
    hide FileOf, FormatOk, Off, Pow256, Strings, PutName, FilesFrom;
    var t := Strings(f, o);
    OffBack(f, o, FileBlk);
    OffBack(f, o, Symdef);
    BlockAt(f, o, FileBlk);
    var recs := PutNames(t, o.files);
    FixedStart(recs, REF_SIZE, |recs|);
    assert recs[..|recs|] == recs;
    FlatSlice(Contents(o, t), Rank(FileBlk));
    assert Contents(o, t)[Rank(FileBlk)] == Content(o, t, FileBlk) == Flat(recs);
    assert Offset(f, o, Symdef) == Offset(f, o, FileBlk) + REF_SIZE * |o.files|;
    FilesRun(f, o, Offset(f, o, FileBlk), o.files);
  }

  // ----- the text before the object -----

  predicate StartsAt(file: seq<Byte>, i: nat, pat: seq<Byte>) { i + |pat| <= |file| && file[i..i + |pat|] == pat }

  /** The first place where a pattern occurs. */
  function Find(file: seq<Byte>, pat: seq<Byte>, i: nat): Option<nat>
    decreases |file| - i
  {
    if i > |file| then None else if StartsAt(file, i, pat) then Some(i) else Find(file, pat, i + 1)
  }

  const NEWLINE: Byte := 10
  /** "go object " and the line that ends the text. */
  const GO_OBJECT: seq<Byte> := [103, 111, 32, 111, 98, 106, 101, 99, 116, 32]
  const MARK: seq<Byte> := [33, 10]

  /** Opening a file: the object begins at the first magic. */
  function Open(f: Format, file: seq<Byte>): Option<seq<Byte>> {
    if NEWLINE !in file || !StartsAt(file, 0, GO_OBJECT) then None else
      var i := Find(file, f.magic, 0);
      if i.None? || |file| - i.value < HeaderSize(f) then None else Some(file[i.value..])
  }

  /** The text is a "go object" line without zero bytes, and the magic starts with one. */
  ghost predicate TextOk(f: Format, text: seq<Byte>) {
    && StartsAt(text, 0, GO_OBJECT) && 0 !in text && f.magic != [] && f.magic[0] == 0
  }

  lemma {:induction false} FindsMagic(file: seq<Byte>, pat: seq<Byte>, i: nat, n: nat)
    requires i <= n <= |file| && pat != [] && StartsAt(file, n, pat) && forall k :: i <= k < n ==> file[k] != pat[0]
    ensures Find(file, pat, i) == Some(n)
    decreases n - i
  {
    if i < n {
      NotHere(file, pat, i);
      FindsMagic(file, pat, i + 1, n);
    }
  }

  lemma NotHere(file: seq<Byte>, pat: seq<Byte>, i: nat)
    requires pat != [] && i < |file| && file[i] != pat[0]
    ensures !StartsAt(file, i, pat)
  {
    if i + |pat| <= |file| { assert file[i..i + |pat|][0] == file[i]; }
  }

  lemma OpenBack(f: Format, o: Obj, text: seq<Byte>)
    requires TextOk(f, text)
    ensures Open(f, text + MARK + FileOf(f, o)) == Some(FileOf(f, o))
  {
    var b := FileOf(f, o);
    var file, n := text + MARK + b, |text| + 2;
    HeadSize(f, o);
    assert b[..|f.magic|] == f.magic;
    assert file[n..] == b && file[n..n + |f.magic|] == b[..|f.magic|];
    assert file[0..|GO_OBJECT|] == text[0..|GO_OBJECT|];
    assert file[|text| + 1] == NEWLINE;
    forall k | 0 <= k < n
      ensures file[k] != 0
    {
      if k < |text| { assert file[k] == text[k] && text[k] in text; }
    }
    FindsMagic(file, f.magic, 0, n);
  }

  // ----- the writer -----

  method AddStrings(base: nat, vs: seq<Name>) returns (t: Tab)
    ensures t == AddedAll(base, vs)
  {
    t := Tab([], map[]);
    for n := 0 to |vs|
      invariant t == AddedAll(base, vs[..n])
    {
      assert vs[..n + 1][..n] == vs[..n];
      if vs[n] !in t.pos { t := Tab(t.bytes + vs[n], t.pos[vs[n] := base + |t.bytes|]); }
    }
    assert vs[..|vs|] == vs;
  }

  method EmitAll(parts: seq<seq<Byte>>) returns (b: seq<Byte>)
    ensures b == Flat(parts)
  {
    b := [];
    for n := 0 to |parts|
      invariant b == Flat(parts[..n])
    {
      assert parts[..n + 1][..n] == parts[..n];
      b := b + parts[n];
    }
    assert parts[..|parts|] == parts;
  }

  /** The bytes of one block. */
  method Emit(o: Obj, t: Tab, k: Blk) returns (b: seq<Byte>)
    ensures b == Content(o, t, k)
  {
    b := [];
    match k {
      case PkgIdx => b := PutName(t, []);
      case FileBlk => b := EmitAll(PutNames(t, o.files));
      case Symdef => b := EmitAll(PutRecs(t, Recs(o.defs)));
      case Hashed64def => b := EmitAll(PutRecs(t, Recs(o.hashed64)));
      case Hasheddef => b := EmitAll(PutRecs(t, Recs(o.hashed)));
      case Nonpkgdef => b := EmitAll(PutRecs(t, Recs(o.nonpkgdefs)));
      case Nonpkgref => b := EmitAll(PutRecs(t, o.nonpkgrefs));
      case Hash64 => b := EmitAll(o.hash64);
      case Hash => b := EmitAll(o.hash);
      case RelocIdx => b := WriteIndex(RelocParts(o.Items()));
      case AuxIdx => b := WriteIndex(AuxParts(o.Items()));
      case DataIdx => b := WriteIndex(DataParts(o.Items()));
      case RelocBlk => b := WriteRecords(RelocParts(o.Items()));
      case AuxBlk => b := WriteRecords(AuxParts(o.Items()));
      case DataBlk => b := EmitAll(DataParts(o.Items()));
      case _ =>
    }
  }

  /** The blocks after the strings, and where each begins, in the header's order. */
  method EmitBlocks(f: Format, o: Obj, t: Tab) returns (b: seq<Byte>, offsets: seq<nat>)
    requires t == Strings(f, o) && Distinct(f.order) && forall k: Blk :: k in f.order
    ensures b == Flat(Contents(o, t)) && offsets == Offsets(f, o)
  {
    hide Content, Strings;
    b, offsets := [], seq(|f.order|, _ => 0);
    for i := 0 to |WRITTEN|
      invariant b == Flat(Contents(o, t)[..i]) && |offsets| == |f.order|
      invariant forall j :: 0 <= j < |f.order| && Rank(f.order[j]) < i ==> offsets[j] == Offset(f, o, f.order[j])
    {
      var k := WRITTEN[i];
      RankAt(i);
      offsets := offsets[IndexOf(f.order, k) := HeaderSize(f) + |t.bytes| + |b|];
      Marked(f, o, i, offsets);
      var piece := Emit(o, t, k);
      b := b + piece;
      assert Contents(o, t)[..i + 1][..i] == Contents(o, t)[..i];
    }
    assert Contents(o, t)[..|WRITTEN|] == Contents(o, t);
  }

  lemma RankAt(i: nat)
    requires i < |WRITTEN|
    ensures Rank(WRITTEN[i]) == i
  {
  }

  /** Only the entry of block i changes. */
  lemma Marked(f: Format, o: Obj, i: nat, offsets: seq<nat>)
    requires i < |WRITTEN| && |offsets| == |f.order| && Distinct(f.order) && WRITTEN[i] in f.order
      && Rank(WRITTEN[i]) == i
    requires offsets[IndexOf(f.order, WRITTEN[i])] == Offset(f, o, WRITTEN[i])
    requires forall j :: 0 <= j < |f.order| && Rank(f.order[j]) < i && j != IndexOf(f.order, WRITTEN[i]) ==>
      offsets[j] == Offset(f, o, f.order[j])
    ensures forall j :: 0 <= j < |f.order| && Rank(f.order[j]) < i + 1 ==> offsets[j] == Offset(f, o, f.order[j])
  {
    hide Offset;
    forall j | 0 <= j < |f.order| && Rank(f.order[j]) == i
      ensures j == IndexOf(f.order, WRITTEN[i])
    {
      assert f.order[j] == WRITTEN[i];
    }
  }

  /** The offsets go into the header, which was written with zeros. */
  method Patch(all: seq<Byte>, at: nat, offsets: seq<nat>) returns (b: seq<Byte>)
    requires at + 4 * |offsets| <= |all|
    ensures b == all[..at] + Flat(U32s(offsets)) + all[at + 4 * |offsets|..]
  {
    b := all;
    assert offsets[..0] == [] && U32s([]) == [];
    for n := 0 to |offsets|
      invariant b == all[..at] + Flat(U32s(offsets[..n])) + all[at + 4 * n..] && |Flat(U32s(offsets[..n]))| == 4 * n
    {
      var o := at + 4 * n;
      b := b[..o] + Le(4, offsets[n]) + b[o + 4..];
      PatchStep(offsets, n);
      assert all[at + 4 * n..][4..] == all[at + 4 * (n + 1)..];
    }
    assert offsets[..|offsets|] == offsets;
  }

  lemma PatchStep(offsets: seq<nat>, n: nat)
    requires n < |offsets|
    ensures Flat(U32s(offsets[..n + 1])) == Flat(U32s(offsets[..n])) + Le(4, offsets[n])
  {
    var more := U32s(offsets[..n + 1]);
    assert more[..n] == U32s(offsets[..n]);
  }

  /** The whole file; refused exactly when the end is not the last block. */
  method WriteFile(f: Format, o: Obj) returns (r: Option<seq<Byte>>)
    requires Distinct(f.order) && forall k: Blk :: k in f.order
    ensures r.None? <==> f.order == [] || f.order[|f.order| - 1] != End
    ensures r.Some? ==> r.value == FileOf(f, o)
  {
    if f.order == [] || f.order[|f.order| - 1] != End { return None; }
    hide Fixed, Strings, Contents, Offsets, Flat, U32s, FileOf, Body;
    var head := Fixed(f);
    var zeros := seq(4 * |f.order|, _ => 0);
    var t := AddStrings(HeaderSize(f), o.strings);
    assert t == Strings(f, o) by { StringsAre(f, o); }
    var blocks, offsets := EmitBlocks(f, o, t);
    var all := head + zeros + (t.bytes + blocks);
    assert |offsets| == |f.order| by { OffsetsSize(f, o); }
    FileIs(f, o);
    var b := Patch(all, |head|, offsets);
    Patched(head, zeros, Body(f, o), Flat(U32s(offsets)), |head| + 4 * |offsets|);
    return Some(b);
  }

  lemma Patched(a: seq<Byte>, b: seq<Byte>, c: seq<Byte>, words: seq<Byte>, at: nat)
    requires at == |a| + |b|
    ensures var all := a + b + c; all[..|a|] + words + all[at..] == a + words + c
  {
    var all := a + b + c;
    assert all[..|a|] == a && all[at..] == c;
  }

  lemma StringsAre(f: Format, o: Obj)
    ensures Strings(f, o) == AddedAll(HeaderSize(f), o.strings)
  {
  }

  lemma OffsetsSize(f: Format, o: Obj)
    ensures |Offsets(f, o)| == |f.order|
  {
  }
}
