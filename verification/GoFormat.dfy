/** The layouts of a Go object's records, field by field, as every linker of the
    release reads them. */
module GoFormat {
  import opened ByteType
  import opened LittleEndian
  import opened GoObject
  import opened GoFile

  lemma RelocLayout(r: Reloc)
    ensures var b := PutReloc(r);
      && |b| == 23 && Field(b, 0, 4, r.off) && b[4] == r.size && Field(b, 5, 2, r.typ) && Field(b, 7, 8, r.add)
      && Field(b, 15, 4, r.pkg) && Field(b, 19, 4, r.idx)
  {
    hide Le, Field;
    var p0, p1, p2, p3, p4 := Le(4, r.off), [r.size], Le(2, r.typ), Le(8, r.add), Le(4, r.pkg);
    FieldOf([], 4, r.off, p1 + p2 + p3 + p4 + Le(4, r.idx));
    FieldOf(p0 + p1, 2, r.typ, p3 + p4 + Le(4, r.idx));
    FieldOf(p0 + p1 + p2, 8, r.add, p4 + Le(4, r.idx));
    FieldOf(p0 + p1 + p2 + p3, 4, r.pkg, Le(4, r.idx));
    FieldOf(p0 + p1 + p2 + p3 + p4, 4, r.idx, []);
    var b := PutReloc(r);
    assert b == [] + p0 + (p1 + p2 + p3 + p4 + Le(4, r.idx)) && b == p0 + p1 + p2 + (p3 + p4 + Le(4, r.idx));
    assert b == p0 + p1 + p2 + p3 + (p4 + Le(4, r.idx)) && b == p0 + p1 + p2 + p3 + p4 + Le(4, r.idx) + [];
  }

  lemma AuxLayout(a: Aux)
    ensures var b := PutAux(a); |b| == 9 && b[0] == a.typ && Field(b, 1, 4, a.pkg) && Field(b, 5, 4, a.idx)
  {
    hide Le, Field;
    FieldOf([a.typ], 4, a.pkg, Le(4, a.idx));
    FieldOf([a.typ] + Le(4, a.pkg), 4, a.idx, []);
    assert PutAux(a) == [a.typ] + Le(4, a.pkg) + Le(4, a.idx) + [];
  }

  lemma InlLayout(n: InlNode)
    ensures var b := PutInl(n);
      && |b| == 24 && Field(b, 0, 4, n.parent) && Field(b, 4, 4, n.file) && Field(b, 8, 4, n.line)
        && Field(b, 12, 4, n.pkg)
      && Field(b, 16, 4, n.idx) && Field(b, 20, 4, n.parentPc)
  {
    hide Le, Field;
    var p0, p1, p2, p3, p4, p5 := Le(4, n.parent), Le(4, n.file), Le(4, n.line), Le(4, n.pkg), Le(4, n.idx),
      Le(4, n.parentPc);
    var b := PutInl(n);
    FieldOf([], 4, n.parent, p1 + p2 + p3 + p4 + p5);
    assert b == [] + p0 + (p1 + p2 + p3 + p4 + p5);
    FieldOf(p0, 4, n.file, p2 + p3 + p4 + p5);
    assert b == p0 + p1 + (p2 + p3 + p4 + p5);
    FieldOf(p0 + p1, 4, n.line, p3 + p4 + p5);
    assert b == p0 + p1 + p2 + (p3 + p4 + p5);
    FieldOf(p0 + p1 + p2, 4, n.pkg, p4 + p5);
    assert b == p0 + p1 + p2 + p3 + (p4 + p5);
    FieldOf(p0 + p1 + p2 + p3, 4, n.idx, p5);
    FieldOf(p0 + p1 + p2 + p3 + p4, 4, n.parentPc, []);
    assert b == p0 + p1 + p2 + p3 + p4 + p5 + [];
  }

  /** A FuncInfo: the fixed part, then the file numbers and the inline tree, each
      after its count. */
  lemma InfoLayout(i: Info, startLine: bool)
    ensures var b, o := PutInfo(i, startLine), if startLine then 16 else 12;
      && |b| >= o + 4 && Field(b, 0, 4, i.args) && Field(b, 4, 4, i.locals) && b[8] == i.id && b[9] == i.flag
      && b[10] == b[11] == 0 && (startLine ==> Field(b, 12, 4, i.startLine)) && Field(b, o, 4, |i.files|)
      && b[o + 4..] == PutWords(i.files) + Le(4, |i.inl|) + PutInls(i.inl)
  {
    hide Le, Field, PutWords, PutInls;
    var p0, p1, p2, p3 := Le(4, i.args), Le(4, i.locals), [i.id, i.flag, 0, 0], if startLine then Le(4, i.startLine)
      else [];
    var n, rest := Le(4, |i.files|), PutWords(i.files) + (Le(4, |i.inl|) + PutInls(i.inl));
    var b := PutInfo(i, startLine);
    assert b == p0 + p1 + p2 + p3 + (n + rest);
    FieldOf([], 4, i.args, p1 + p2 + p3 + (n + rest));
    assert b == [] + p0 + (p1 + p2 + p3 + (n + rest));
    FieldOf(p0, 4, i.locals, p2 + p3 + (n + rest));
    assert b == p0 + p1 + (p2 + p3 + (n + rest));
    if startLine {
      FieldOf(p0 + p1 + p2, 4, i.startLine, n + rest);
    }
    FieldOf(p0 + p1 + p2 + p3, 4, |i.files|, rest);
    assert b == p0 + p1 + p2 + p3 + n + rest;
    assert rest == PutWords(i.files) + Le(4, |i.inl|) + PutInls(i.inl);
  }

  lemma {:induction false} WordsLayout(ns: seq<nat>, j: nat)
    requires j < |ns|
    ensures Field(PutWords(ns), 4 * j, 4, ns[j])
  {
    if j == 0 {
      FieldOf([], 4, ns[0], PutWords(ns[1..]));
      assert PutWords(ns) == [] + Le(4, ns[0]) + PutWords(ns[1..]);
    } else {
      WordsLayout(ns[1..], j - 1);
      forall i | 0 <= i < 4
        ensures PutWords(ns)[4 * j + i] == Digit(ns[j], i)
      {
        assert PutWords(ns)[4 * j + i] == PutWords(ns[1..])[4 * (j - 1) + i];
      }
    }
  }

  lemma {:induction false} InlsLayout(ns: seq<InlNode>, j: nat)
    requires j < |ns|
    ensures PutInls(ns)[24 * j..24 * j + 24] == PutInl(ns[j])
  {
    hide PutInl;
    if j > 0 {
      InlsLayout(ns[1..], j - 1);
      assert PutInls(ns)[24 * j..24 * j + 24] == PutInls(ns[1..])[24 * (j - 1)..24 * (j - 1) + 24];
    }
  }

  /** A symbol record: its name's length and position come first. */
  lemma RecLayout(t: Tab, r: Rec)
    requires r.name in t.pos
    ensures var b := PutRec(t, r);
      && |b| == 21 && Field(b, 0, 4, |r.name|) && Field(b, 4, 4, t.pos[r.name]) && Field(b, 8, 2, r.abi)
      && b[10] == r.kind && b[11] == r.flag && b[12] == r.flag2 && Field(b, 13, 4, r.size) && Field(b, 17, 4, r.align)
  {
    hide Le, Field;
    var p0, p1, p2, p3 := Le(4, |r.name|), Le(4, t.pos[r.name]), Le(2, r.abi), [r.kind, r.flag, r.flag2];
    var p4, p5 := Le(4, r.size), Le(4, r.align);
    var b := PutRec(t, r);
    assert b == p0 + p1 + p2 + p3 + p4 + p5;
    FieldOf([], 4, |r.name|, p1 + p2 + p3 + p4 + p5);
    assert b == [] + p0 + (p1 + p2 + p3 + p4 + p5);
    FieldOf(p0, 4, t.pos[r.name], p2 + p3 + p4 + p5);
    assert b == p0 + p1 + (p2 + p3 + p4 + p5);
    FieldOf(p0 + p1, 2, r.abi, p3 + p4 + p5);
    assert b == p0 + p1 + p2 + (p3 + p4 + p5);
    FieldOf(p0 + p1 + p2 + p3, 4, r.size, p5);
    FieldOf(p0 + p1 + p2 + p3 + p4, 4, r.align, []);
    assert b == p0 + p1 + p2 + p3 + p4 + p5 + [];
  }

  /** The file: magic, eight zero bytes, the flags, and every block's offset. */
  lemma HeaderLayout(f: Format, o: Obj, j: nat)
    requires j < |f.order|
    ensures var b, m := FileOf(f, o), |f.magic|;
      && |b| >= m + 12 + 4 * |f.order| && b[..m] == f.magic && b[m..m + 8] == [0, 0, 0, 0, 0, 0, 0, 0]
      && Field(b, m + 8, 4, f.flags) && Field(b, m + 12 + 4 * j, 4, Offset(f, o, f.order[j]))
  {
    hide FileOf, Offset, Field;
    FixedLayout(f, o);
    OffsetLayout(f, o, j);
  }

  lemma FixedFields(magic: seq<Byte>, flags: nat, rest: seq<Byte>)
    ensures var b, m := magic + [0, 0, 0, 0, 0, 0, 0, 0] + Le(4, flags) + rest, |magic|;
      b[..m] == magic && b[m..m + 8] == [0, 0, 0, 0, 0, 0, 0, 0] && Field(b, m + 8, 4, flags)
  {
    hide Le, Field;
    FieldOf(magic + [0, 0, 0, 0, 0, 0, 0, 0], 4, flags, rest);
  }

  lemma FixedLayout(f: Format, o: Obj)
    ensures var b, m := FileOf(f, o), |f.magic|;
      && |b| >= m + 12 + 4 * |f.order| && b[..m] == f.magic && b[m..m + 8] == [0, 0, 0, 0, 0, 0, 0, 0]
      && Field(b, m + 8, 4, f.flags)
  {
    FileIs(f, o);
    HeadSize(f, o);
    hide Le, Flat, Body, Offsets, Field, U32s, FileOf;
    var all, body := Flat(U32s(Offsets(f, o))), Body(f, o);
    FixedFields(f.magic, f.flags, all + body);
    AppendTwice(Fixed(f), all, body);
  }

  /** Word j of a run of words, behind other bytes. */
  lemma WordField(head: seq<Byte>, all: seq<Byte>, tail: seq<Byte>, at: nat, v: nat)
    requires at + 4 <= |all| && all[at..at + 4] == Le(4, v)
    ensures Field(head + all + tail, |head| + at, 4, v)
  {
    forall i | 0 <= i < 4
      ensures (head + all + tail)[|head| + at + i] == Digit(v, i)
    {
      assert all[at + i] == all[at..at + 4][i];
      LeDigits(4, v, i);
    }
  }

  lemma WordAt(ns: seq<nat>, j: nat)
    requires j < |ns|
    ensures 4 * j + 4 <= |Flat(U32s(ns))| && Flat(U32s(ns))[4 * j..4 * j + 4] == Le(4, ns[j])
  {
    hide Le, Flat, Begin;
    FixedStart(U32s(ns), 4, j);
    FlatSlice(U32s(ns), j);
  }

  lemma OffsetLayout(f: Format, o: Obj, j: nat)
    requires j < |f.order|
    ensures Field(FileOf(f, o), |f.magic| + 12 + 4 * j, 4, Offset(f, o, f.order[j]))
  {
    FileIs(f, o);
    hide Le, Flat, Begin, Body, Offset, Field, U32s, FileOf, Fixed;
    WordAt(Offsets(f, o), j);
    WordField(Fixed(f), Flat(U32s(Offsets(f, o))), Body(f, o), 4 * j, Offset(f, o, f.order[j]));
  }
}
