/** The function section: each record names its tables, its GC map and its
    inline tree by the offset of their records plus one. */
module FuncRecords {
  import opened ByteType
  import opened Options
  import opened Varint
  import opened RecordCodec
  import opened FuncSections

  // ----- one record -----

  function PutSlots(ss: seq<nat>): seq<Byte> { if ss == [] then [] else Uleb(ss[0]) + PutSlots(ss[1..]) }

  function GetSlots(b: seq<Byte>, n: nat): Option<Got<seq<nat>>>
    decreases n
  {
    if n == 0 then Some(Got([], b)) else
      var s := GetU(b);
      if s.None? then None else
        var more := GetSlots(s.value.rest, n - 1);
        if more.None? then None else Some(Got([s.value.value] + more.value.value, more.value.rest))
  }

  lemma {:induction false} BackSlots(ss: seq<nat>, rest: seq<Byte>)
    requires forall k :: 0 <= k < |ss| ==> IsU64(ss[k])
    ensures GetSlots(PutSlots(ss) + rest, |ss|) == Some(Got(ss, rest))
    decreases |ss|
  {
    hide GetU, Uleb;
    if ss == [] {
      assert PutSlots(ss) + rest == rest;
    } else {
      assert PutSlots(ss) + rest == Uleb(ss[0]) + (PutSlots(ss[1..]) + rest);
      BackU(ss[0], PutSlots(ss[1..]) + rest);
      BackSlots(ss[1..], rest);
      assert [ss[0]] + ss[1..] == ss;
    }
  }

  function PutHead(h: Head): seq<Byte> {
    Uleb(h.name) + (Uleb(h.text) +
      (Uleb(h.frame) + (Uleb(h.args) +
      ([h.abi] + ([h.kind] + (Uleb(h.flags) + ([h.id] + (Uleb(h.file) + Uleb(h.line)))))))))
  }

  /** The first half of a head: four numbers and the two bytes. */
  function GetSizes(b: seq<Byte>): Option<Got<Head>> {
    var name := GetU(b);
    if name.None? then None else
      var text := GetU(name.value.rest);
      if text.None? then None else
        var frame := GetU(text.value.rest);
        if frame.None? then None else
          var args := GetU(frame.value.rest);
          if args.None? then None else
            var abi := GetB(args.value.rest);
            if abi.None? then None else
              Some(Got(Head(name.value.value, text.value.value, frame.value.value, args.value.value, abi.value.value, 0,
                0, 0, 0, 0), abi.value.rest))
  }

  function GetHead(b: seq<Byte>): Option<Got<Head>> {
    var h := GetSizes(b);
    if h.None? then None else
      var kind := GetB(h.value.rest);
      if kind.None? then None else
        var flags := GetU(kind.value.rest);
        if flags.None? then None else
          var id := GetB(flags.value.rest);
          if id.None? then None else
            var file := GetU(id.value.rest);
            if file.None? then None else
              var line := GetU(file.value.rest);
              if line.None? then None else
                Some(Got(h.value.value.(kind := kind.value.value, flags := flags.value.value, id := id.value.value,
                  file := file.value.value, line := line.value.value), line.value.rest))
  }

  ghost predicate HeadOk(h: Head) {
    IsU64(h.name) && IsU64(h.text) && IsU64(h.frame) && IsU64(h.args) && IsU64(h.flags) && IsU64(h.file)
      && IsU64(h.line)
  }

  lemma BackHead(h: Head, rest: seq<Byte>)
    requires HeadOk(h)
    ensures GetHead(PutHead(h) + rest) == Some(Got(h, rest))
  {
    hide Uleb, GetU;
    var b10 := Uleb(h.line) + rest;
    var b9 := Uleb(h.file) + b10;
    var b8 := [h.id] + b9;
    var b7 := Uleb(h.flags) + b8;
    var b6 := [h.kind] + b7;
    var b5 := [h.abi] + b6;
    var b4 := Uleb(h.args) + b5;
    var b3 := Uleb(h.frame) + b4;
    var b2 := Uleb(h.text) + b3;
    assert PutHead(h) + rest == Uleb(h.name) + b2;
    BackU(h.name, b2);
    BackU(h.text, b3);
    BackU(h.frame, b4);
    BackU(h.args, b5);
    BackB(h.abi, b6);
    BackB(h.kind, b7);
    BackU(h.flags, b8);
    BackB(h.id, b9);
    BackU(h.file, b10);
    BackU(h.line, rest);
  }

  /** What a function record says: the rest is in the records it points to. */
  datatype Stub = Stub(head: Head, pcvOff: nat, gcOff: nat, inlOff: nat, sysv: nat, slots: seq<nat>)

  /** Version 1.1 added the pointer registers, 1.2 the slots. */
  function PutTail(s: Stub, minor: nat): seq<Byte> {
    (if minor >= 1 then Uleb(s.sysv) else []) + (if minor >= 2 then Uleb(|s.slots|) + PutSlots(s.slots) else [])
  }

  function PutStub(s: Stub, minor: nat): seq<Byte> {
    PutHead(s.head) + (Uleb(s.pcvOff) + (Uleb(s.gcOff) + (Uleb(s.inlOff) + PutTail(s, minor))))
  }

  function GetTail(s: Stub, b: seq<Byte>): Option<Stub> {
    if b == [] then Some(s) else
      var sysv := GetU(b);
      if sysv.None? then None
      else if sysv.value.rest == [] then Some(s.(sysv := sysv.value.value)) else
        var n := GetU(sysv.value.rest);
        if n.None? then None else
          var slots := GetSlots(n.value.rest, n.value.value);
          if slots.None? then None else Some(s.(sysv := sysv.value.value, slots := slots.value.value))
  }

  function GetStub(b: seq<Byte>): Option<Stub> {
    var h := GetHead(b);
    if h.None? then None else
      var p := GetU(h.value.rest);
      if p.None? then None else
        var g := GetU(p.value.rest);
        if g.None? then None else
          var i := GetU(g.value.rest);
          if i.None? then None else
            GetTail(Stub(h.value.value, p.value.value, g.value.value, i.value.value, 0, []), i.value.rest)
  }

  ghost predicate StubOk(s: Stub) {
    && HeadOk(s.head) && IsU64(s.pcvOff) && IsU64(s.gcOff) && IsU64(s.inlOff) && IsU64(s.sysv) && IsU64(|s.slots|)
    && forall k :: 0 <= k < |s.slots| ==> IsU64(s.slots[k])
  }

  /** Fields newer than the format's minor version are not written. */
  function Trimmed(s: Stub, minor: nat): Stub {
    s.(sysv := if minor >= 1 then s.sysv else 0, slots := if minor >= 2 then s.slots else [])
  }

  lemma BackTail(s: Stub, minor: nat)
    requires StubOk(s)
    ensures GetTail(s.(sysv := 0, slots := []), PutTail(s, minor)) == Some(Trimmed(s, minor))
  {
    if minor == 1 {
      assert PutTail(s, minor) == Uleb(s.sysv) + [];
      BackU(s.sysv, []);
    } else if minor >= 2 {
      var b := PutSlots(s.slots);
      assert PutTail(s, minor) == Uleb(s.sysv) + (Uleb(|s.slots|) + b);
      BackU(s.sysv, Uleb(|s.slots|) + b);
      BackU(|s.slots|, b);
      BackSlots(s.slots, []);
      assert b + [] == b;
    }
  }

  lemma BackStub(s: Stub, minor: nat)
    requires StubOk(s)
    ensures GetStub(PutStub(s, minor)) == Some(Trimmed(s, minor))
  {
    hide Uleb, GetU, GetTail, PutTail;
    var tail := PutTail(s, minor);
    var b3 := Uleb(s.inlOff) + tail;
    var b2 := Uleb(s.gcOff) + b3;
    BackHead(s.head, Uleb(s.pcvOff) + b2);
    BackU(s.pcvOff, b2);
    BackU(s.gcOff, b3);
    BackU(s.inlOff, tail);
    BackTail(s, minor);
  }

  // ----- the sections -----

  datatype Sections = Sections(funcs: seq<Byte>, pcvs: seq<Byte>, gcs: seq<Byte>, inls: seq<Byte>)

  /** The three kinds of record a function refers to. */
  datatype Part = Pcv | Gc | Inl

  /** The record of one kind, if the function has it. */
  function Body(f: Func, k: Part): Option<seq<Byte>> {
    match k
    case Pcv => if f.pcv.Some? then Some(PcvBody(f.pcv.value)) else None
    case Gc => if f.gc.Some? then Some(GcBody(f.gc.value)) else None
    case Inl => if f.inl.Some? then Some(InlBody(f.inl.value)) else None
  }

  function Bodies(fs: seq<Func>, k: Part): seq<seq<Byte>> {
    if fs == [] then []
    else
      var n := |fs| - 1;
      Bodies(fs[..n], k) + (if Body(fs[n], k).Some? then [Body(fs[n], k).value] else [])
  }

  /** A reference to a record about to be written at offset `at`: 0 stands for none. */
  function Ref(f: Func, k: Part, at: nat): nat { if Body(f, k).Some? then at + 1 else 0 }

  /** The record of function f when the other sections are p, g and i bytes long. */
  function Linked(f: Func, p: nat, g: nat, i: nat): Stub {
    Stub(f.head, Ref(f, Pcv, p), Ref(f, Gc, g), Ref(f, Inl, i), f.sysv, f.slots)
  }

  /** The record of function f, written after the functions before it. */
  function StubOf(before: seq<Func>, f: Func): Stub {
    Linked(f, |Cat(Bodies(before, Pcv))|, |Cat(Bodies(before, Gc))|, |Cat(Bodies(before, Inl))|)
  }

  function FuncBodies(fs: seq<Func>, minor: nat): seq<seq<Byte>> {
    if fs == [] then []
    else FuncBodies(fs[..|fs| - 1], minor) + [PutStub(StubOf(fs[..|fs| - 1], fs[|fs| - 1]), minor)]
  }

  function Written(fs: seq<Func>, minor: nat): Sections {
    Sections(Cat(FuncBodies(fs, minor)), Cat(Bodies(fs, Pcv)), Cat(Bodies(fs, Gc)), Cat(Bodies(fs, Inl)))
  }

  lemma NothingWritten(minor: nat)
    ensures Cat(FuncBodies([], minor)) == [] && forall k :: Cat(Bodies([], k)) == []
  {
  }

  /** A section after one more function. */
  function Grown(b: seq<Byte>, body: Option<seq<Byte>>): seq<Byte> { if body.Some? then b + Record(body.value) else b }

  /** What one function adds to each section. */
  lemma PartGrows(fs: seq<Func>, k: Part, n: nat)
    requires n < |fs|
    ensures Cat(Bodies(fs[..n + 1], k)) == Grown(Cat(Bodies(fs[..n], k)), Body(fs[n], k))
  {
    hide Body;
    var now := fs[..n + 1];
    assert now[..|now| - 1] == fs[..n] && now[|now| - 1] == fs[n];
    if Body(fs[n], k).Some? { CatMore(Bodies(fs[..n], k), Body(fs[n], k).value); }
    else { assert Bodies(now, k) == Bodies(fs[..n], k); }
  }

  lemma FuncsGrow(fs: seq<Func>, minor: nat, n: nat)
    requires n < |fs|
    ensures Cat(FuncBodies(fs[..n + 1], minor)) == Cat(FuncBodies(fs[..n], minor)) +
      Record(PutStub(StubOf(fs[..n], fs[n]), minor))
  {
    hide StubOf, PutStub;
    var now := fs[..n + 1];
    assert now[..|now| - 1] == fs[..n] && now[|now| - 1] == fs[n];
    CatMore(FuncBodies(fs[..n], minor), PutStub(StubOf(fs[..n], fs[n]), minor));
  }

  /** Writes one optional record and returns the reference to it. */
  method WritePart(f: Func, k: Part, e: Enc) returns (ref: nat)
    modifies e
    ensures e.b == Grown(old(e.b), Body(f, k)) && ref == Ref(f, k, |old(e.b)|)
  {
    hide Record, Body;
    ref := 0;
    if Body(f, k).Some? {
      ref := e.AddRecord(Body(f, k).value);
      ref := ref + 1;
    }
  }

  /** Writes one function: its tables, its GC map, its inline tree, then its own record. */
  method WriteFunc(f: Func, minor: nat, funcs: Enc, pcvs: Enc, gcs: Enc, inls: Enc)
    requires funcs != pcvs && funcs != gcs && funcs != inls && pcvs != gcs && pcvs != inls && gcs != inls
    modifies funcs, pcvs, gcs, inls
    ensures pcvs.b == Grown(old(pcvs.b), Body(f, Pcv)) && gcs.b == Grown(old(gcs.b), Body(f, Gc))
    ensures inls.b == Grown(old(inls.b), Body(f, Inl))
    ensures funcs.b == old(funcs.b) + Record(PutStub(Linked(f, |old(pcvs.b)|, |old(gcs.b)|, |old(inls.b)|), minor))
  {
    hide Record, Body, PutStub, Grown, Ref;
    var pcvOff := WritePart(f, Pcv, pcvs);
    var gcOff := WritePart(f, Gc, gcs);
    var inlOff := WritePart(f, Inl, inls);
    var off := funcs.AddRecord(PutStub(Stub(f.head, pcvOff, gcOff, inlOff, f.sysv, f.slots), minor));
  }

  /** The writer's loop over the functions. */
  method WriteSections(fs: seq<Func>, minor: nat) returns (s: Sections)
    ensures s == Written(fs, minor)
  {
    NothingWritten(minor);
    assert fs[..0] == [];
    hide Cat, Bodies, FuncBodies, Record, Body, Grown, PutStub, Linked;
    var funcs := new Enc();
    var pcvs := new Enc();
    var gcs := new Enc();
    var inls := new Enc();
    for n := 0 to |fs|
      invariant fresh(funcs) && fresh(pcvs) && fresh(gcs) && fresh(inls)
      invariant funcs != pcvs && funcs != gcs && funcs != inls && pcvs != gcs && pcvs != inls && gcs != inls
      invariant funcs.b == Cat(FuncBodies(fs[..n], minor)) && pcvs.b == Cat(Bodies(fs[..n], Pcv))
      invariant gcs.b == Cat(Bodies(fs[..n], Gc)) && inls.b == Cat(Bodies(fs[..n], Inl))
    {
      PartGrows(fs, Pcv, n);
      PartGrows(fs, Gc, n);
      PartGrows(fs, Inl, n);
      FuncsGrow(fs, minor, n);
      WriteFunc(fs[n], minor, funcs, pcvs, gcs, inls);
    }
    assert fs[..|fs|] == fs;
    return Sections(funcs.b, pcvs.b, gcs.b, inls.b);
  }

  // ----- reading them back -----

  /** The record is a well-formed one of its kind. */
  predicate Parses(k: Part, body: seq<Byte>) {
    match k
    case Pcv => GetPcv(body).Some?
    case Gc => GetGc(body).Some?
    case Inl => GetInl(body).Some?
  }

  predicate AllParse(recs: seq<Rec>, k: Part) { forall i :: 0 <= i < |recs| ==> Parses(k, recs[i].body) }

  /** A list read back without elements is nil, like a list that was never written. */
  function Listed<T>(s: Option<seq<T>>): Option<seq<T>> { if s == Some([]) then None else s }

  function Fetched(ref: nat, recs: seq<Rec>): Option<seq<Byte>> { if ref == 0 then None else Find(recs, ref - 1) }

  /** A function, from its record and the records that it points to. */
  function Resolved(s: Stub, pcvs: seq<Rec>, gcs: seq<Rec>, inls: seq<Rec>): Func {
    var p, g, i := Fetched(s.pcvOff, pcvs), Fetched(s.gcOff, gcs), Fetched(s.inlOff, inls);
    Func(s.head, s.sysv, s.slots,
         if p.None? then None else Listed(GetPcv(p.value)),
         if g.None? then None else GetGc(g.value),
         if i.None? then None else Listed(GetInl(i.value)))
  }

  function ReadFuncs(recs: seq<Rec>, pcvs: seq<Rec>, gcs: seq<Rec>, inls: seq<Rec>): Option<seq<Func>> {
    if recs == [] then Some([]) else
      var s, more := GetStub(recs[0].body), ReadFuncs(recs[1..], pcvs, gcs, inls);
      if s.None? || more.None? then None else Some([Resolved(s.value, pcvs, gcs, inls)] + more.value)
  }

  function ReadPart(b: seq<Byte>, k: Part): Option<seq<Rec>> {
    var recs := Split(b, 0);
    if recs.Some? && AllParse(recs.value, k) then recs else None
  }

  function Parse(s: Sections): Option<seq<Func>> {
    var pcvs, gcs, inls, funcs := ReadPart(s.pcvs, Pcv), ReadPart(s.gcs, Gc), ReadPart(s.inls, Inl), Split(s.funcs, 0);
    if pcvs.None? || gcs.None? || inls.None? || funcs.None? then None
    else ReadFuncs(funcs.value, pcvs.value, gcs.value, inls.value)
  }

  ghost predicate FuncOk(f: Func) {
    && HeadOk(f.head) && IsU64(f.sysv) && IsU64(|f.slots|) && (forall k :: 0 <= k < |f.slots| ==> IsU64(f.slots[k]))
    && (f.pcv.Some? ==> TablesOk(f.pcv.value)) && (f.gc.Some? ==> GcOk(f.gc.value))
      && (f.inl.Some? ==> InlOk(f.inl.value))
  }

  /** What reading makes of a function. */
  function Restored(f: Func, minor: nat): Func {
    f.(sysv := if minor >= 1 then f.sysv else 0, slots := if minor >= 2 then f.slots else [],
       pcv := if f.pcv.None? then None else Listed(Some(CollapsedAll(f.pcv.value))), inl := Listed(f.inl))
  }

  /** Exactly which functions come back as they were. */
  lemma RestoredIff(f: Func, minor: nat)
    ensures Restored(f, minor) == f <==>
      && (minor >= 1 || f.sysv == 0) && (minor >= 2 || f.slots == []) && f.pcv != Some([]) && f.inl != Some([])
      && (f.pcv.Some? ==> forall k :: 0 <= k < |f.pcv.value| ==> Clean(f.pcv.value[k]))
  {
    hide Clean, Collapsed;
    if f.pcv.Some? { CollapsedIff(f.pcv.value); }
  }

  // ----- the round trip -----

  /** Each section's length is a 64-bit number. */
  ghost predicate Fits(s: Sections) { IsU64(|s.funcs|) && IsU64(|s.pcvs|) && IsU64(|s.gcs|) && IsU64(|s.inls|) }

  lemma {:induction false} CatBound(bodies: seq<seq<Byte>>, k: nat)
    requires k < |bodies|
    ensures |bodies[k]| < |Cat(bodies)| && |Cat(bodies[..k])| < |Cat(bodies)|
    decreases |bodies|
  {
    var n := |bodies| - 1;
    if k < n {
      CatBound(bodies[..n], k);
      assert bodies[..n][..k] == bodies[..k];
    }
  }

  lemma CatSmall(bodies: seq<seq<Byte>>)
    requires IsU64(|Cat(bodies)|)
    ensures Small(bodies)
  {
    forall k | 0 <= k < |bodies|
      ensures IsU64(|bodies[k]|)
    {
      CatBound(bodies, k);
    }
  }

  lemma {:induction false} RecBodies(bodies: seq<seq<Byte>>, off: nat)
    ensures |Recs(bodies, off)| == |bodies| && forall k :: 0 <= k < |bodies| ==> Recs(bodies, off)[k].body == bodies[k]
    decreases |bodies|
  {
    if bodies != [] { RecBodies(bodies[1..], off + |Record(bodies[0])|); }
  }

  /** The record of function n stands after those of the functions before it. */
  lemma {:induction false} PartAt(fs: seq<Func>, k: Part, n: nat)
    requires n < |fs| && Body(fs[n], k).Some?
    ensures var j := |Bodies(fs[..n], k)|;
      j < |Bodies(fs, k)| && Bodies(fs, k)[..j] == Bodies(fs[..n], k) && Bodies(fs, k)[j] == Body(fs[n], k).value
    decreases |fs|
  {
    hide Body;
    var m := |fs| - 1;
    if n < m {
      PartAt(fs[..m], k, n);
      assert fs[..m][..n] == fs[..n];
      var j := |Bodies(fs[..n], k)|;
      assert Bodies(fs, k)[..j] == Bodies(fs[..m], k)[..j];
    } else {
      assert Bodies(fs, k) == Bodies(fs[..n], k) + [Body(fs[n], k).value];
    }
  }

  lemma {:induction false} FuncAt(fs: seq<Func>, minor: nat, n: nat)
    requires n < |fs|
    ensures |FuncBodies(fs, minor)| == |fs| && FuncBodies(fs, minor)[n] == PutStub(StubOf(fs[..n], fs[n]), minor)
    decreases |fs|
  {
    hide StubOf, PutStub;
    var m := |fs| - 1;
    if n < m {
      FuncAt(fs[..m], minor, n);
      assert fs[..m][..n] == fs[..n];
    } else if m > 0 {
      FuncAt(fs[..m], minor, 0);
    }
  }

  lemma BodyParses(f: Func, k: Part)
    requires FuncOk(f) && Body(f, k).Some?
    ensures Parses(k, Body(f, k).value)
  {
    match k
    case Pcv => BackPcv(f.pcv.value);
    case Gc => BackGc(f.gc.value);
    case Inl => BackInl(f.inl.value);
  }

  lemma {:induction false} PartsParse(fs: seq<Func>, k: Part)
    requires forall i :: 0 <= i < |fs| ==> FuncOk(fs[i])
    ensures forall j :: 0 <= j < |Bodies(fs, k)| ==> Parses(k, Bodies(fs, k)[j])
    decreases |fs|
  {
    hide FuncOk, Parses, Body;
    if fs != [] {
      var m := |fs| - 1;
      PartsParse(fs[..m], k);
      assert FuncOk(fs[m]);
      if Body(fs[m], k).Some? { BodyParses(fs[m], k); }
    }
  }

  /** A function's reference finds its own record again. */
  lemma PartFound(fs: seq<Func>, k: Part, n: nat)
    requires n < |fs| && IsU64(|Cat(Bodies(fs, k))|)
    ensures var ref := Ref(fs[n], k, |Cat(Bodies(fs[..n], k))|);
      IsU64(ref) && Fetched(ref, Recs(Bodies(fs, k), 0)) == Body(fs[n], k)
  {
    hide Cat, Bodies, Recs, Find, Body;
    if Body(fs[n], k).Some? {
      PartAt(fs, k, n);
      CatBound(Bodies(fs, k), |Bodies(fs[..n], k)|);
      FindsRecord(Bodies(fs, k), 0, |Bodies(fs[..n], k)|);
    }
  }

  ghost predicate PartsFit(fs: seq<Func>) {
    IsU64(|Cat(Bodies(fs, Pcv))|) && IsU64(|Cat(Bodies(fs, Gc))|) && IsU64(|Cat(Bodies(fs, Inl))|)
  }

  /** What the three records of a function say. */
  lemma BodiesBack(f: Func)
    requires FuncOk(f)
    ensures f.pcv.Some? ==>
      Body(f, Pcv) == Some(PcvBody(f.pcv.value)) && GetPcv(PcvBody(f.pcv.value)) == Some(CollapsedAll(f.pcv.value))
    ensures f.gc.Some? ==> Body(f, Gc) == Some(GcBody(f.gc.value)) && GetGc(GcBody(f.gc.value)) == f.gc
    ensures f.inl.Some? ==> Body(f, Inl) == Some(InlBody(f.inl.value)) && GetInl(InlBody(f.inl.value)) == f.inl
    ensures (f.pcv.None? ==> Body(f, Pcv) == None) && (f.gc.None? ==> Body(f, Gc) == None)
      && (f.inl.None? ==> Body(f, Inl) == None)
  {
    hide PcvBody, GcBody, InlBody, GetPcv, GetGc, GetInl, TablesOk, GcOk, InlOk, CollapsedAll;
    if f.pcv.Some? { BackPcv(f.pcv.value); }
    if f.gc.Some? { BackGc(f.gc.value); }
    if f.inl.Some? { BackInl(f.inl.value); }
  }

  /** One function is found again through its three offsets. */
  lemma FuncBack(fs: seq<Func>, minor: nat, n: nat)
    requires n < |fs| && FuncOk(fs[n]) && PartsFit(fs)
    ensures var s := GetStub(PutStub(StubOf(fs[..n], fs[n]), minor));
      s.Some? && Resolved(s.value, Recs(Bodies(fs, Pcv), 0), Recs(Bodies(fs, Gc), 0), Recs(Bodies(fs, Inl), 0)) ==
        Restored(fs[n], minor)
  {
    hide Cat, Bodies, Recs, Find, Fetched, Ref, PutStub, GetStub, GetPcv, GetGc, GetInl, PcvBody, GcBody, InlBody, Body,
      CollapsedAll, HeadOk, TablesOk, GcOk, InlOk;
    PartFound(fs, Pcv, n);
    PartFound(fs, Gc, n);
    PartFound(fs, Inl, n);
    BodiesBack(fs[n]);
    BackStub(StubOf(fs[..n], fs[n]), minor);
  }

  lemma ReadCons(r: Rec, rest: seq<Rec>, pcvs: seq<Rec>, gcs: seq<Rec>, inls: seq<Rec>, out: seq<Func>)
    requires GetStub(r.body).Some? && ReadFuncs(rest, pcvs, gcs, inls) == Some(out)
    ensures ReadFuncs([r] + rest, pcvs, gcs, inls) == Some([Resolved(GetStub(r.body).value, pcvs, gcs, inls)] + out)
  {
    hide GetStub, Resolved;
    assert ([r] + rest)[1..] == rest;
  }

  lemma {:induction false} ReadAll(bodies: seq<seq<Byte>>, off: nat, pcvs: seq<Rec>, gcs: seq<Rec>, inls: seq<Rec>,
      out: seq<Func>)
    requires |out| == |bodies|
    requires forall k :: 0 <= k < |bodies| ==>
      GetStub(bodies[k]).Some? && Resolved(GetStub(bodies[k]).value, pcvs, gcs, inls) == out[k]
    ensures ReadFuncs(Recs(bodies, off), pcvs, gcs, inls) == Some(out)
    decreases |bodies|
  {
    hide GetStub, Resolved, Record;
    if bodies != [] {
      var next := off + |Record(bodies[0])|;
      ReadAll(bodies[1..], next, pcvs, gcs, inls, out[1..]);
      ReadCons(Rec(off, bodies[0]), Recs(bodies[1..], next), pcvs, gcs, inls, out[1..]);
      assert [out[0]] + out[1..] == out;
    }
  }

  function RestoredAll(fs: seq<Func>, minor: nat): seq<Func> {
    seq(|fs|, i requires 0 <= i < |fs| => Restored(fs[i], minor))
  }

  lemma SectionRead(bodies: seq<seq<Byte>>)
    requires IsU64(|Cat(bodies)|)
    ensures Split(Cat(bodies), 0) == Some(Recs(bodies, 0))
  {
    CatSmall(bodies);
    SplitCat(bodies, 0);
  }

  lemma PartRead(fs: seq<Func>, k: Part)
    requires (forall i :: 0 <= i < |fs| ==> FuncOk(fs[i])) && IsU64(|Cat(Bodies(fs, k))|)
    ensures ReadPart(Cat(Bodies(fs, k)), k) == Some(Recs(Bodies(fs, k), 0))
  {
    hide FuncOk, Parses, Recs, Bodies, Cat, Split;
    SectionRead(Bodies(fs, k));
    PartsParse(fs, k);
    RecBodies(Bodies(fs, k), 0);
  }

  lemma FuncsRead(fs: seq<Func>, minor: nat)
    requires (forall i :: 0 <= i < |fs| ==> FuncOk(fs[i])) && PartsFit(fs)
    ensures ReadFuncs(Recs(FuncBodies(fs, minor), 0), Recs(Bodies(fs, Pcv), 0), Recs(Bodies(fs, Gc), 0),
      Recs(Bodies(fs, Inl), 0))
      == Some(RestoredAll(fs, minor))
  {
    hide Cat, Recs, GetStub, PutStub, Resolved, StubOf, Bodies, FuncOk, Restored, FuncBodies, PartsFit;
    var bodies, pcvs, gcs, inls := FuncBodies(fs, minor), Recs(Bodies(fs, Pcv), 0), Recs(Bodies(fs, Gc), 0),
      Recs(Bodies(fs, Inl), 0);
    NoFuncs(fs, minor);
    forall k | 0 <= k < |fs|
      ensures |bodies| == |fs| && GetStub(bodies[k]).Some?
      ensures Resolved(GetStub(bodies[k]).value, pcvs, gcs, inls) == RestoredAll(fs, minor)[k]
    {
      FuncAt(fs, minor, k);
      FuncBack(fs, minor, k);
    }
    ReadAll(bodies, 0, pcvs, gcs, inls, RestoredAll(fs, minor));
  }

  lemma NoFuncs(fs: seq<Func>, minor: nat)
    ensures |FuncBodies(fs, minor)| == |fs|
  {
    if fs != [] { FuncAt(fs, minor, 0); }
  }

  /** Reading what was written gives back every function, its tables, its GC map
      and its inline tree, up to what `Restored` says. */
  lemma SectionsRoundTrip(fs: seq<Func>, minor: nat)
    requires (forall i :: 0 <= i < |fs| ==> FuncOk(fs[i])) && Fits(Written(fs, minor))
    ensures Parse(Written(fs, minor)) == Some(RestoredAll(fs, minor))
  {
    hide Cat, Split, Recs, ReadPart, ReadFuncs, FuncBodies, Bodies, FuncOk, RestoredAll;
    SectionRead(FuncBodies(fs, minor));
    PartRead(fs, Pcv);
    PartRead(fs, Gc);
    PartRead(fs, Inl);
    FuncsRead(fs, minor);
  }
}
