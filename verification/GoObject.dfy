/** The records of a Go object: relocations, auxiliary symbols and FuncInfos; runs
    of records of fixed size, and index blocks that say where each symbol's begin. */
module GoObject {
  import opened Options
  import opened ByteType
  import opened LittleEndian

  // ----- records -----

  /** `add` is a 64-bit word; `pkg` and `idx` are the target's reference. */
  datatype Reloc = Reloc(off: nat, size: Byte, typ: nat, add: nat, pkg: nat, idx: nat)

  datatype Aux = Aux(typ: Byte, pkg: nat, idx: nat)

  ghost predicate RelocOk(r: Reloc) {
    r.off < Pow256(4) && r.typ < Pow256(2) && r.add < Pow256(8) && r.pkg < Pow256(4) && r.idx < Pow256(4)
  }

  ghost predicate AuxOk(a: Aux) { a.pkg < Pow256(4) && a.idx < Pow256(4) }

  const RELOC_SIZE := 23
  const AUX_SIZE := 9

  function PutReloc(r: Reloc): (b: seq<Byte>)
    ensures |b| == RELOC_SIZE
  {
    Le(4, r.off) + [r.size] + Le(2, r.typ) + Le(8, r.add) + Le(4, r.pkg) + Le(4, r.idx)
  }

  function GetReloc(b: seq<Byte>): Reloc
    requires |b| == RELOC_SIZE
  {
    Reloc(UnLe(b[0..4]), b[4], UnLe(b[5..7]), UnLe(b[7..15]), UnLe(b[15..19]), UnLe(b[19..23]))
  }

  function PutAux(a: Aux): (b: seq<Byte>)
    ensures |b| == AUX_SIZE
  {
    [a.typ] + Le(4, a.pkg) + Le(4, a.idx)
  }

  function GetAux(b: seq<Byte>): Aux
    requires |b| == AUX_SIZE
  {
    Aux(b[0], UnLe(b[1..5]), UnLe(b[5..9]))
  }

  lemma RelocBack(r: Reloc)
    requires RelocOk(r)
    ensures GetReloc(PutReloc(r)) == r
  {
    hide Le, UnLe, Pow256;
    var b := PutReloc(r);
    assert b[0..4] == Le(4, r.off) && b[5..7] == Le(2, r.typ) && b[7..15] == Le(8, r.add);
    assert b[15..19] == Le(4, r.pkg) && b[19..23] == Le(4, r.idx);
    LeBack(4, r.off);
    LeBack(2, r.typ);
    LeBack(8, r.add);
    LeBack(4, r.pkg);
    LeBack(4, r.idx);
  }

  lemma AuxBack(a: Aux)
    requires AuxOk(a)
    ensures GetAux(PutAux(a)) == a
  {
    hide Le, UnLe, Pow256;
    var b := PutAux(a);
    assert b[1..5] == Le(4, a.pkg) && b[5..9] == Le(4, a.idx);
    LeBack(4, a.pkg);
    LeBack(4, a.idx);
  }

  // ----- FuncInfo symbols -----

  datatype InlNode = InlNode(parent: nat, file: nat, line: nat, pkg: nat, idx: nat, parentPc: nat)

  datatype Info = Info(args: nat, locals: nat, id: Byte, flag: Byte, startLine: nat, files: seq<nat>, inl: seq<InlNode>)

  const INL_SIZE := 24

  function PutInl(n: InlNode): (b: seq<Byte>)
    ensures |b| == INL_SIZE
  {
    Le(4, n.parent) + Le(4, n.file) + Le(4, n.line) + Le(4, n.pkg) + Le(4, n.idx) + Le(4, n.parentPc)
  }

  function GetInl(b: seq<Byte>): InlNode
    requires |b| == INL_SIZE
  {
    InlNode(UnLe(b[0..4]), UnLe(b[4..8]), UnLe(b[8..12]), UnLe(b[12..16]), UnLe(b[16..20]), UnLe(b[20..24]))
  }

  function PutInls(ns: seq<InlNode>): (b: seq<Byte>)
    ensures |b| == INL_SIZE * |ns|
  {
    if ns == [] then [] else PutInl(ns[0]) + PutInls(ns[1..])
  }

  function PutWords(ns: seq<nat>): (b: seq<Byte>)
    ensures |b| == 4 * |ns|
  {
    if ns == [] then [] else Le(4, ns[0]) + PutWords(ns[1..])
  }

  function PutInfo(i: Info, startLine: bool): seq<Byte> {
    Le(4, i.args) + Le(4, i.locals) + [i.id, i.flag, 0, 0] + (if startLine then Le(4, i.startLine) else [])
    + (Le(4, |i.files|) + (PutWords(i.files) + (Le(4, |i.inl|) + PutInls(i.inl))))
  }

  function GetWords(b: seq<Byte>, n: nat): Option<(seq<nat>, seq<Byte>)> {
    if n == 0 then Some(([], b))
    else if |b| < 4 then None
    else
      var more := GetWords(b[4..], n - 1);
      if more.None? then None else Some(([UnLe(b[..4])] + more.value.0, more.value.1))
  }

  function GetInls(b: seq<Byte>, n: nat): Option<seq<InlNode>> {
    if n == 0 then Some([])
    else if |b| < INL_SIZE then None
    else
      var more := GetInls(b[INL_SIZE..], n - 1);
      if more.None? then None else Some([GetInl(b[..INL_SIZE])] + more.value)
  }

  /** The decoder: none for contents that are too short. */
  function GetInfo(b: seq<Byte>, startLine: bool): Option<Info> {
    var o := if startLine then 16 else 12;
    if |b| < o + 4 then None else
      var files := GetWords(b[o + 4..], UnLe(b[o..o + 4]));
      if files.None? || |files.value.1| < 4 then None else
        var inl := GetInls(files.value.1[4..], UnLe(files.value.1[..4]));
        if inl.None? then None else
          Some(Info(UnLe(b[0..4]), UnLe(b[4..8]), b[8], b[9], if startLine then UnLe(b[12..16]) else 0, files.value.0,
                    inl.value))
  }

  ghost predicate Word(v: nat) { v < Pow256(4) }

  ghost predicate InlOk(n: InlNode) {
    Word(n.parent) && Word(n.file) && Word(n.line) && Word(n.pkg) && Word(n.idx) && Word(n.parentPc)
  }

  ghost predicate InfoOk(i: Info) {
    && Word(i.args) && Word(i.locals) && Word(i.startLine) && Word(|i.files|) && Word(|i.inl|)
    && (forall k :: 0 <= k < |i.files| ==> Word(i.files[k])) && forall k :: 0 <= k < |i.inl| ==> InlOk(i.inl[k])
  }

  lemma WordBack(v: nat)
    requires Word(v)
    ensures UnLe(Le(4, v)) == v
  {
    LeBack(4, v);
  }

  lemma InlBack(n: InlNode)
    requires InlOk(n)
    ensures GetInl(PutInl(n)) == n
  {
    hide Le, UnLe, Word;
    var b := PutInl(n);
    assert b[0..4] == Le(4, n.parent) && b[4..8] == Le(4, n.file) && b[8..12] == Le(4, n.line);
    assert b[12..16] == Le(4, n.pkg) && b[16..20] == Le(4, n.idx) && b[20..24] == Le(4, n.parentPc);
    WordBack(n.parent);
    WordBack(n.file);
    WordBack(n.line);
    WordBack(n.pkg);
    WordBack(n.idx);
    WordBack(n.parentPc);
  }

  lemma {:induction false} WordsBack(ns: seq<nat>, rest: seq<Byte>)
    requires forall k :: 0 <= k < |ns| ==> Word(ns[k])
    ensures GetWords(PutWords(ns) + rest, |ns|) == Some((ns, rest))
  {
    hide Le, UnLe, Word;
    var b := PutWords(ns) + rest;
    if ns == [] {
      assert b == rest;
    } else {
      assert b[..4] == Le(4, ns[0]) && b[4..] == PutWords(ns[1..]) + rest;
      WordBack(ns[0]);
      WordsBack(ns[1..], rest);
      assert [ns[0]] + ns[1..] == ns;
    }
  }

  lemma {:induction false} InlsBack(ns: seq<InlNode>)
    requires forall k :: 0 <= k < |ns| ==> InlOk(ns[k])
    ensures GetInls(PutInls(ns), |ns|) == Some(ns)
  {
    hide PutInl, GetInl, InlOk;
    var b := PutInls(ns);
    if ns != [] {
      assert b[..INL_SIZE] == PutInl(ns[0]) && b[INL_SIZE..] == PutInls(ns[1..]);
      InlBack(ns[0]);
      InlsBack(ns[1..]);
      assert [ns[0]] + ns[1..] == ns;
    }
  }

  /** A FuncInfo decodes to itself; without the release's flag its start line is lost. */
  lemma InfoBack(i: Info, startLine: bool)
    requires InfoOk(i)
    ensures GetInfo(PutInfo(i, startLine), startLine) == Some(if startLine then i else i.(startLine := 0))
  {
    hide Le, UnLe, Word, InlOk, PutWords, PutInls;
    var b, o := PutInfo(i, startLine), if startLine then 16 else 12;
    var tail := Le(4, |i.inl|) + PutInls(i.inl);
    assert b[0..4] == Le(4, i.args) && b[4..8] == Le(4, i.locals) && b[8] == i.id && b[9] == i.flag;
    assert startLine ==> b[12..16] == Le(4, i.startLine);
    assert b[o..] == Le(4, |i.files|) + (PutWords(i.files) + tail);
    assert b[o..o + 4] == Le(4, |i.files|) && b[o + 4..] == PutWords(i.files) + tail;
    WordBack(i.args);
    WordBack(i.locals);
    WordBack(i.startLine);
    WordBack(|i.files|);
    WordsBack(i.files, tail);
    assert tail[..4] == Le(4, |i.inl|) && tail[4..] == PutInls(i.inl);
    WordBack(|i.inl|);
    InlsBack(i.inl);
  }

  // ----- runs of records -----

  function Flat<T>(parts: seq<seq<T>>): seq<T> {
    if parts == [] then [] else Flat(parts[..|parts| - 1]) + parts[|parts| - 1]
  }

  /** How many elements come before part i. */
  function Begin<T>(parts: seq<seq<T>>, i: nat): nat
    requires i <= |parts|
  {
    |Flat(parts[..i])|
  }

  lemma {:induction false} FlatSlice<T>(parts: seq<seq<T>>, i: nat)
    requires i < |parts|
    ensures Begin(parts, i) + |parts[i]| == Begin(parts, i + 1) <= |Flat(parts)|
    ensures Flat(parts)[Begin(parts, i)..Begin(parts, i + 1)] == parts[i]
    decreases |parts|
  {
    var n := |parts| - 1;
    assert parts[..i + 1][..i] == parts[..i];
    if i < n {
      FlatSlice(parts[..n], i);
      assert parts[..n][..i] == parts[..i] && parts[..n][..i + 1] == parts[..i + 1];
    } else {
      assert parts[..i + 1] == parts;
    }
  }

  /** In a run of records of one size, record k starts at k times the size. */
  lemma {:induction false} FixedStart(recs: seq<seq<Byte>>, size: nat, k: nat)
    requires k <= |recs| && forall i :: 0 <= i < |recs| ==> |recs[i]| == size
    ensures Begin(recs, k) == size * k
  {
    if k > 0 {
      FixedStart(recs, size, k - 1);
      assert recs[..k][..k - 1] == recs[..k - 1];
      assert size * k == size * (k - 1) + size;
    }
  }

  // ----- the writer -----

  function U32s(ns: seq<nat>): seq<seq<Byte>> { seq(|ns|, i requires 0 <= i < |ns| => Le(4, ns[i])) }

  /** The running counts: one per symbol and one more. */
  function Counts<T>(parts: seq<seq<T>>): seq<nat> { seq(|parts| + 1, i requires 0 <= i <= |parts| => Begin(parts, i)) }

  /** Writes the counts of the symbols' records. */
  method WriteIndex<T>(parts: seq<seq<T>>) returns (b: seq<Byte>)
    ensures b == Flat(U32s(Counts(parts)))
  {
    var n := 0;
    b := [];
    for i := 0 to |parts|
      invariant n == Begin(parts, i) && b == Flat(U32s(Counts(parts)[..i]))
    {
      b := b + Le(4, n);
      NextCount(parts, i);
      assert parts[..i + 1][..i] == parts[..i];
      n := n + |parts[i]|;
    }
    NextCount(parts, |parts|);
    b := b + Le(4, n);
    assert Counts(parts)[..|parts| + 1] == Counts(parts);
  }

  lemma NextCount<T>(parts: seq<seq<T>>, i: nat)
    requires i <= |parts|
    ensures Flat(U32s(Counts(parts)[..i + 1])) == Flat(U32s(Counts(parts)[..i])) + Le(4, Begin(parts, i))
  {
    var more, was := U32s(Counts(parts)[..i + 1]), U32s(Counts(parts)[..i]);
    assert more[..|more| - 1] == was;
  }

  /** Writes the records themselves, symbol after symbol. */
  method WriteRecords(parts: seq<seq<seq<Byte>>>) returns (b: seq<Byte>)
    ensures b == Flat(Flat(parts))
  {
    b := [];
    for i := 0 to |parts|
      invariant b == Flat(Flat(parts[..i]))
    {
      assert parts[..i + 1][..i] == parts[..i];
      ghost var done := b;
      for k := 0 to |parts[i]|
        invariant b == done + Flat(parts[i][..k])
      {
        assert parts[i][..k + 1][..k] == parts[i][..k];
        b := b + parts[i][k];
      }
      assert parts[i][..|parts[i]|] == parts[i];
      FlatJoin(Flat(parts[..i]), parts[i]);
    }
    assert parts[..|parts|] == parts;
  }

  lemma {:induction false} FlatJoin(a: seq<seq<Byte>>, b: seq<seq<Byte>>)
    ensures Flat(a + b) == Flat(a) + Flat(b)
    decreases |b|
  {
    if b == [] {
      assert a + b == a && Flat(a) + [] == Flat(a);
    } else {
      hide Flat;
      var n := |b| - 1;
      FlatJoin(a, b[..n]);
      FlatMore(a + b[..n], b[n]);
      FlatMore(b[..n], b[n]);
      AppendTwice(a, b[..n], [b[n]]);
      AppendTwice(Flat(a), Flat(b[..n]), b[n]);
      assert b == b[..n] + [b[n]];
    }
  }

  lemma AppendTwice<T>(a: seq<T>, b: seq<T>, c: seq<T>)
    ensures a + (b + c) == a + b + c
  {
  }

  lemma FlatMore(a: seq<seq<Byte>>, x: seq<Byte>)
    ensures Flat(a + [x]) == Flat(a) + x
  {
    assert (a + [x])[..|a|] == a;
  }

  // ----- reading -----

  /** A block of the file: `bytes` at offset `at`. */
  ghost predicate Block(file: seq<Byte>, at: nat, bytes: seq<Byte>) {
    at + |bytes| <= |file| && file[at..at + |bytes|] == bytes
  }

  lemma BlockSlice(file: seq<Byte>, at: nat, bytes: seq<Byte>, a: nat, b: nat)
    requires Block(file, at, bytes) && a <= b <= |bytes|
    ensures at + b <= |file| && file[at + a..at + b] == bytes[a..b]
  {
    forall k | a <= k < b
      ensures file[at + k] == bytes[k]
    {
      assert file[at + k] == file[at..at + |bytes|][k];
    }
  }

  lemma BlockGrows(file: seq<Byte>, more: seq<Byte>, at: nat, bytes: seq<Byte>)
    requires Block(file, at, bytes)
    ensures Block(file + more, at, bytes)
  {
    assert (file + more)[at..at + |bytes|] == file[at..at + |bytes|];
  }

  lemma BlockShifts(head: seq<Byte>, file: seq<Byte>, at: nat, bytes: seq<Byte>)
    requires Block(file, at, bytes)
    ensures Block(head + file, |head| + at, bytes)
  {
    assert (head + file)[|head| + at..|head| + at + |bytes|] == file[at..at + |bytes|];
  }

  /** A part of a block is a block. */
  lemma BlockPart(file: seq<Byte>, at: nat, bytes: seq<Byte>, a: nat, b: nat)
    requires Block(file, at, bytes) && a <= b <= |bytes|
    ensures Block(file, at + a, bytes[a..b])
  {
    BlockSlice(file, at, bytes, a, b);
  }

  /** A slice of the file; none where the reader would run past its end. */
  function Slice(file: seq<Byte>, lo: nat, hi: nat): Option<seq<Byte>> {
    if lo <= hi <= |file| then Some(file[lo..hi]) else None
  }

  function ReadU32(file: seq<Byte>, o: nat): Option<nat> {
    var s := Slice(file, o, o + 4);
    if s.None? then None else Some(UnLe(s.value))
  }

  /** The records a up to b of a run. */
  function ReadRun(file: seq<Byte>, at: nat, size: nat, a: nat, b: nat): (raw: Option<seq<seq<Byte>>>)
    ensures raw.Some? ==> forall k :: 0 <= k < |raw.value| ==> |raw.value[k]| == size
    decreases b
  {
    if b <= a then Some([]) else
      var most, last := ReadRun(file, at, size, a, b - 1), Slice(file, at + size * (b - 1), at + size * (b - 1) + size);
      if most.None? || last.None? then None else Some(most.value + [last.value])
  }

  /** A record of a run is read back as it was written. */
  lemma RecordBack(file: seq<Byte>, at: nat, recs: seq<seq<Byte>>, size: nat, k: nat)
    requires Block(file, at, Flat(recs)) && k < |recs| && forall i :: 0 <= i < |recs| ==> |recs[i]| == size
    ensures Slice(file, at + size * k, at + size * k + size) == Some(recs[k])
  {
    FixedStart(recs, size, k);
    FlatSlice(recs, k);
    BlockSlice(file, at, Flat(recs), size * k, size * k + size);
  }

  lemma {:induction false} RunBack(file: seq<Byte>, at: nat, recs: seq<seq<Byte>>, size: nat, a: nat, b: nat)
    requires Block(file, at, Flat(recs)) && a <= b <= |recs|
    requires forall i :: 0 <= i < |recs| ==> |recs[i]| == size
    ensures ReadRun(file, at, size, a, b) == Some(recs[a..b])
    decreases b - a
  {
    hide Block, Flat, Slice;
    if a < b {
      RunBack(file, at, recs, size, a, b - 1);
      RecordBack(file, at, recs, size, b - 1);
      assert recs[a..b] == recs[a..b - 1] + [recs[b - 1]];
    }
  }

  lemma WordRead(file: seq<Byte>, o: nat, v: nat)
    requires Slice(file, o, o + 4) == Some(Le(4, v)) && v < Pow256(4)
    ensures ReadU32(file, o) == Some(v)
  {
    LeBack(4, v);
  }

  /** The index gives the bounds of symbol i's records. */
  lemma SpanBack<T>(file: seq<Byte>, at: nat, parts: seq<seq<T>>, i: nat)
    requires Block(file, at, Flat(U32s(Counts(parts)))) && i < |parts| && |Flat(parts)| < Pow256(4)
    ensures ReadU32(file, at + 4 * i) == Some(Begin(parts, i))
      && ReadU32(file, at + 4 * i + 4) == Some(Begin(parts, i + 1))
  {
    hide Le, UnLe, Pow256, Flat, Slice, ReadU32;
    var recs := U32s(Counts(parts));
    RecordBack(file, at, recs, 4, i);
    RecordBack(file, at, recs, 4, i + 1);
    FlatSlice(parts, i);
    WordRead(file, at + 4 * i, Begin(parts, i));
    WordRead(file, at + 4 * (i + 1), Begin(parts, i + 1));
  }

  /** What the reader returns for symbol i: the records between its bounds. */
  function ReadRecords(file: seq<Byte>, index: nat, body: nat, size: nat, i: nat): (raw: Option<seq<seq<Byte>>>)
    ensures raw.Some? ==> forall k :: 0 <= k < |raw.value| ==> |raw.value[k]| == size
  {
    var a, b := ReadU32(file, index + 4 * i), ReadU32(file, index + 4 * i + 4);
    if a.None? || b.None? then None else ReadRun(file, body, size, a.value, b.value)
  }

  /** Every symbol's records come back, and no other symbol's. */
  lemma RecordsBack(file: seq<Byte>, index: nat, body: nat, parts: seq<seq<seq<Byte>>>, size: nat, i: nat)
    requires Block(file, index, Flat(U32s(Counts(parts)))) && Block(file, body, Flat(Flat(parts))) && i < |parts|
    requires |Flat(parts)| < Pow256(4) && forall k :: 0 <= k < |Flat(parts)| ==> |Flat(parts)[k]| == size
    ensures ReadRecords(file, index, body, size, i) == Some(parts[i])
  {
    hide Flat, ReadU32, Block, Pow256, ReadRun;
    SpanBack(file, index, parts, i);
    FlatSlice(parts, i);
    RunBack(file, body, Flat(parts), size, Begin(parts, i), Begin(parts, i + 1));
  }

  lemma {:induction false} FlatSized(parts: seq<seq<seq<Byte>>>, size: nat)
    requires forall i, k :: 0 <= i < |parts| && 0 <= k < |parts[i]| ==> |parts[i][k]| == size
    ensures forall k :: 0 <= k < |Flat(parts)| ==> |Flat(parts)[k]| == size
  {
    if parts != [] {
      var n := |parts| - 1;
      forall i, k | 0 <= i < n && 0 <= k < |parts[..n][i]|
        ensures |parts[..n][i][k]| == size
      {
        assert |parts[i][k]| == size;
      }
      FlatSized(parts[..n], size);
    }
  }

  /** The contents of every symbol are read back. */
  lemma DataBack(file: seq<Byte>, index: nat, body: nat, data: seq<seq<Byte>>, i: nat)
    requires Block(file, index, Flat(U32s(Counts(data)))) && Block(file, body, Flat(data)) && i < |data|
    requires |Flat(data)| < Pow256(4)
    ensures ReadU32(file, index + 4 * i) == Some(Begin(data, i))
      && ReadU32(file, index + 4 * i + 4) == Some(Begin(data, i + 1))
    ensures Slice(file, body + Begin(data, i), body + Begin(data, i + 1)) == Some(data[i])
  {
    hide Flat, ReadU32, Pow256;
    SpanBack(file, index, data, i);
    FlatSlice(data, i);
    BlockSlice(file, body, Flat(data), Begin(data, i), Begin(data, i + 1));
  }

  /** Parts i up to j of a run, together. */
  /** A run of parts stands where its first part begins. */
  lemma FlatRange(parts: seq<seq<Byte>>, i: nat, j: nat)
    requires i <= j <= |parts|
    ensures Block(Flat(parts), Begin(parts, i), Flat(parts[i..j]))
  {
    hide Flat, Block;
    Cuts(parts, i, j);
    FlatJoin(parts[..i], parts[i..j]);
    FlatJoin(parts[..j], parts[j..]);
    Middle(Flat(parts[..i]), Flat(parts[i..j]), Flat(parts[j..]));
  }

  lemma Cuts<T>(parts: seq<T>, i: nat, j: nat)
    requires i <= j <= |parts|
    ensures parts[..i] + parts[i..j] == parts[..j] && parts[..j] + parts[j..] == parts
  {
  }

  lemma Middle(a: seq<Byte>, b: seq<Byte>, c: seq<Byte>)
    ensures Block(a + b + c, |a|, b)
  {
  }
}
