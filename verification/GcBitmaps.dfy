/** The locals bitmap written for every call: which words of the frame hold
    pointers, down to the byte and bit. */
module GcBitmaps {
  import opened Options
  import StackCheck

  /** A stack-map location: type 2 is a slot addressed from a register, type 4 a
      constant offset from SP. */
  datatype Loc = Loc(kind: nat, reg: nat, size: nat, off: int)

  /** A word the cold block pushes: C argument register `arg`, `word` words below varp. */
  datatype Stub = Stub(arg: nat, word: nat)

  /** `slots` are byte distances below varp; `ptrs` the argument registers that
      hold pointers; `fpSave` is where X29 points, relative to the entry SP. */
  datatype Frame = Frame(size: nat, arm: bool, hasFP: bool, fpSave: int, slots: seq<nat>, stubs: seq<Stub>,
    ptrs: set<nat>)

  datatype Site = Site(morestack: bool, roots: seq<Loc>)

  const X86_BP := 6
  const ARM_FP := 29
  const ARM_SP := 31

  // ----- where the writer thinks a root is -----

  /** Bytes below varp, for the locations the writer understands. */
  function Below(f: Frame, l: Loc): Option<int> {
    if f.arm then
      if l.kind == 2 && l.reg == ARM_FP && f.hasFP && l.size == 8 then Some(-(f.fpSave + l.off) - 8)
      else if l.kind == 2 && l.reg == ARM_SP && l.size == 8 then Some(f.size - 8 - l.off)
      else if l.kind == 4 && l.off >= 0 && l.off % 8 == 0 then Some(f.size - 8 - l.off)
      else None
    else if l.kind == 2 && l.reg == X86_BP && l.off < 0 && l.size == 8 then Some(-l.off)
    else if l.kind == 4 && l.off >= 0 && l.off % 8 == 0 then Some(f.size - 8 - l.off)
    else None
  }

  // ----- one bit -----

  function Mask(j: nat): bv8
    requires j < 8
  {
    if j == 0 then 1 else if j == 1 then 2 else if j == 2 then 4 else if j == 3 then 8
    else if j == 4 then 16 else if j == 5 then 32 else if j == 6 then 64 else 128
  }

  predicate BitOf(b: bv8, j: nat)
    requires j < 8
  {
    b & Mask(j) != 0
  }

  lemma MaskSets(b: bv8, i: nat, j: nat)
    requires i < 8 && j < 8
    ensures BitOf(b | Mask(j), i) <==> i == j || BitOf(b, i)
  {
    MaskMeets(i, j);
    hide Mask;
    if i == j { MaskIncluded(b, Mask(i)); } else { MaskApart(b, Mask(i), Mask(j)); }
  }

  lemma MaskIncluded(b: bv8, m: bv8)
    requires m != 0
    ensures (b | m) & m != 0
  {
    assert (b | m) & m == m;
  }

  lemma MaskApart(b: bv8, m: bv8, k: bv8)
    requires k & m == 0
    ensures (b | k) & m == b & m
  {
  }

  lemma MaskMeets(i: nat, j: nat)
    requires i < 8 && j < 8
    ensures Mask(j) & Mask(i) == if i == j then Mask(i) else 0
    ensures Mask(i) != 0
  {
  }

  /** Bit i of a bitmap. */
  predicate Bit(b: seq<bv8>, i: nat)
    requires i / 8 < |b|
  {
    BitOf(b[i / 8], i % 8)
  }

  function Bytes(words: nat): nat { (words + 7) / 8 }

  lemma InBytes(i: nat, words: nat)
    requires i < words
    ensures i / 8 < Bytes(words)
  {
  }

  /** Bit i of a bitmap of that many words stands for the word at
      varp - 8 * words + 8 * i. */
  function WordAt(varp: int, words: nat, i: nat): int { varp - 8 * words + 8 * i }

  /** The bits named by byte distances below varp, and no others. */
  ghost predicate Holds(b: seq<bv8>, words: nat, offs: seq<int>) {
    |b| == Bytes(words) && forall i :: 0 <= i < words ==> BitNames(b, words, offs, i)
  }

  ghost predicate BitNames(b: seq<bv8>, words: nat, offs: seq<int>, i: nat)
    requires |b| == Bytes(words) && i < words
  {
    InBytes(i, words);
    Bit(b, i) <==> 8 * (words - i) in offs
  }

  /** Sets the bit of the word `off` bytes below varp; anything else is ignored. */
  method SetWord(b: seq<bv8>, words: nat, off: int, ghost offs: seq<int>) returns (c: seq<bv8>)
    requires Holds(b, words, offs)
    ensures Holds(c, words, offs + [off])
  {
    c := b;
    if off < 8 || off % 8 != 0 || off / 8 > words {
      forall i | 0 <= i < words
        ensures BitNames(c, words, offs + [off], i)
      {
        assert BitNames(b, words, offs, i);
        NotThisWord(words, off, i);
      }
      return;
    }
    var bit := words - off / 8;
    InBytes(bit, words);
    c := c[bit / 8 := c[bit / 8] | Mask(bit % 8)];
    forall i | 0 <= i < words
      ensures BitNames(c, words, offs + [off], i)
    {
      assert BitNames(b, words, offs, i);
      OneBit(b, c, bit, i, words);
      assert 8 * (words - i) == off <==> i == bit;
    }
  }

  lemma NotThisWord(words: nat, off: int, i: nat)
    requires i < words && (off < 8 || off % 8 != 0 || off / 8 > words)
    ensures 8 * (words - i) != off
  {
  }

  lemma OneBit(b: seq<bv8>, c: seq<bv8>, bit: nat, i: nat, words: nat)
    requires |b| == Bytes(words) && bit < words && i < words && bit / 8 < |b| && i / 8 < |b|
    requires c == b[bit / 8 := b[bit / 8] | Mask(bit % 8)]
    ensures Bit(c, i) <==> i == bit || Bit(b, i)
  {
    hide BitOf, Mask;
    if i / 8 == bit / 8 {
      MaskSets(b[bit / 8], i % 8, bit % 8);
      assert i == 8 * (i / 8) + i % 8 && bit == 8 * (bit / 8) + bit % 8;
    }
  }

  // ----- one call -----

  /** The bytes below varp that a call's bitmap must name. */
  function Stubs(ss: seq<Stub>, ptrs: set<nat>): seq<int> {
    if ss == [] then []
    else Stubs(ss[..|ss| - 1], ptrs) + if ss[|ss| - 1].arg in ptrs then [8 * ss[|ss| - 1].word] else []
  }

  function Roots(f: Frame, ls: seq<Loc>): seq<int> {
    if ls == [] then []
    else Roots(f, ls[..|ls| - 1]) + match Below(f, ls[|ls| - 1]) { case Some(d) => [d] case None => [] }
  }

  function Slots(ss: seq<nat>): seq<int> { seq(|ss|, i requires 0 <= i < |ss| => ss[i]) }

  function Named(f: Frame, c: Site): seq<int> {
    (if c.morestack then Stubs(f.stubs, f.ptrs) else Slots(f.slots)) + Roots(f, c.roots)
  }

  /** The number of words: the frame's, or more if a pushed argument lies deeper. */
  method FrameWords(f: Frame) returns (words: nat)
    ensures f.size > 8 ==> words >= (f.size - 8) / 8
    ensures forall k :: 0 <= k < |f.stubs| ==> f.stubs[k].word <= words
    ensures words != (if f.size > 8 then (f.size - 8) / 8 else 0) ==>
      exists k :: 0 <= k < |f.stubs| && f.stubs[k].word == words
  {
    words := if f.size > 8 then (f.size - 8) / 8 else 0;
    var least := words;
    for n := 0 to |f.stubs|
      invariant words >= least && forall k :: 0 <= k < n ==> f.stubs[k].word <= words
      invariant words == least || exists k :: 0 <= k < n && f.stubs[k].word == words
    {
      if f.stubs[n].word > words { words := f.stubs[n].word; }
    }
  }

  lemma Empty(words: nat)
    ensures Holds(seq(Bytes(words), _ => 0), words, [])
  {
    var b: seq<bv8> := seq(Bytes(words), _ => 0);
    forall i | 0 <= i < words
      ensures BitNames(b, words, [], i)
    {
      InBytes(i, words);
    }
  }

  /** The bitmap every call starts from: the slots declared to hold stack pointers. */
  method BaseBitmap(f: Frame, words: nat) returns (b: seq<bv8>)
    ensures Holds(b, words, Slots(f.slots))
  {
    hide Holds, Bytes;
    b := seq(Bytes(words), _ => 0);
    Empty(words);
    for n := 0 to |f.slots|
      invariant Holds(b, words, Slots(f.slots)[..n])
    {
      b := SetWord(b, words, f.slots[n], Slots(f.slots)[..n]);
      assert Slots(f.slots)[..n + 1] == Slots(f.slots)[..n] + [f.slots[n]];
    }
    assert Slots(f.slots)[..|f.slots|] == Slots(f.slots);
  }

  method StubBitmap(f: Frame, words: nat) returns (b: seq<bv8>)
    ensures Holds(b, words, Stubs(f.stubs, f.ptrs))
  {
    hide Holds, Bytes;
    b := seq(Bytes(words), _ => 0);
    Empty(words);
    for n := 0 to |f.stubs|
      invariant Holds(b, words, Stubs(f.stubs[..n], f.ptrs))
    {
      assert f.stubs[..n + 1][..n] == f.stubs[..n];
      if f.stubs[n].arg in f.ptrs { b := SetWord(b, words, 8 * f.stubs[n].word, Stubs(f.stubs[..n], f.ptrs)); }
      else { assert Stubs(f.stubs[..n + 1], f.ptrs) == Stubs(f.stubs[..n], f.ptrs); }
    }
    assert f.stubs[..|f.stubs|] == f.stubs;
  }

  /** The bitmap of one call. */
  method SiteBitmap(f: Frame, c: Site, words: nat, base: seq<bv8>) returns (b: seq<bv8>)
    requires Holds(base, words, Slots(f.slots))
    ensures Holds(b, words, Named(f, c))
  {
    b := base;
    if c.morestack { b := StubBitmap(f, words); }
    var known := if c.morestack then Stubs(f.stubs, f.ptrs) else Slots(f.slots);
    b := AddRoots(f, c.roots, words, b, known);
  }

  /** Adds the bits of the roots. */
  method AddRoots(f: Frame, ls: seq<Loc>, words: nat, b0: seq<bv8>, known: seq<int>) returns (b: seq<bv8>)
    requires Holds(b0, words, known)
    ensures Holds(b, words, known + Roots(f, ls))
  {
    b := b0;
    assert ls[..0] == [] && known + Roots(f, []) == known;
    hide Holds, Below, Roots;
    for n := 0 to |ls|
      invariant Holds(b, words, known + Roots(f, ls[..n]))
    {
      RootsStep(f, ls, n);
      match Below(f, ls[n]) {
        case Some(d) =>
          b := SetWord(b, words, d, known + Roots(f, ls[..n]));
          assert known + Roots(f, ls[..n + 1]) == known + Roots(f, ls[..n]) + [d];
        case None => assert Roots(f, ls[..n + 1]) == Roots(f, ls[..n]);
      }
    }
    assert ls[..|ls|] == ls;
  }

  lemma RootsStep(f: Frame, ls: seq<Loc>, n: nat)
    requires n < |ls|
    ensures Roots(f, ls[..n + 1]) == Roots(f, ls[..n]) + if Below(f, ls[n]).Some? then [Below(f, ls[n]).value] else []
  {
    hide Below;
    assert ls[..n + 1][..n] == ls[..n];
  }

  /** The whole GC map of a function: one bitmap for each of its calls. */
  method GcMap(f: Frame, calls: seq<Site>) returns (words: nat, maps: seq<seq<bv8>>)
    ensures forall k :: 0 <= k < |f.stubs| ==> f.stubs[k].word <= words
    ensures |maps| == |calls| && forall k :: 0 <= k < |calls| ==> Holds(maps[k], words, Named(f, calls[k]))
  {
    hide Holds, Named;
    words := FrameWords(f);
    var base := BaseBitmap(f, words);
    maps := [];
    for n := 0 to |calls|
      invariant |maps| == n && forall k :: 0 <= k < n ==> Holds(maps[k], words, Named(f, calls[k]))
    {
      var b := SiteBitmap(f, calls[n], words, base);
      maps := maps + [b];
    }
  }

  // ----- what the bits mean to the runtime -----

  /** The machine's registers inside the function, from varp: on x86 BP is varp
      and SP lies the frame below; on arm64 varp is one word below the entry SP. */
  function RegisterValue(f: Frame, varp: int, reg: nat): int {
    if !f.arm then varp
    else if reg == ARM_FP then varp + 8 + f.fpSave
    else varp + 8 - f.size
  }

  function StackPointer(f: Frame, varp: int): int { if f.arm then varp + 8 - f.size else varp - (f.size - 8) }

  /** The address of a location, as the stack map defines it. */
  function AddressOf(f: Frame, varp: int, l: Loc): int {
    if l.kind == 2 then RegisterValue(f, varp, l.reg) + l.off else StackPointer(f, varp) + l.off
  }

  /** The writer's distance is the location's address. */
  lemma BelowIsAddress(f: Frame, varp: int, l: Loc)
    requires Below(f, l).Some?
    ensures AddressOf(f, varp, l) == varp - Below(f, l).value
  {
  }

  lemma {:induction false} RootsListed(f: Frame, ls: seq<Loc>, d: int)
    ensures d in Roots(f, ls) <==> exists k :: 0 <= k < |ls| && Below(f, ls[k]) == Some(d)
    decreases |ls|
  {
    hide Below;
    if ls != [] {
      var n := |ls| - 1;
      RootsListed(f, ls[..n], d);
      assert forall k :: 0 <= k < n ==> ls[..n][k] == ls[k];
      if d in Roots(f, ls[..n]) {
        var k :| 0 <= k < n && Below(f, ls[..n][k]) == Some(d);
        assert Below(f, ls[k]) == Some(d);
      }
    }
  }

  lemma {:induction false} StubsListed(ss: seq<Stub>, ptrs: set<nat>, d: int)
    ensures d in Stubs(ss, ptrs) <==> exists k :: 0 <= k < |ss| && ss[k].arg in ptrs && d == 8 * ss[k].word
    decreases |ss|
  {
    if ss != [] {
      var n := |ss| - 1;
      StubsListed(ss[..n], ptrs, d);
      assert forall k :: 0 <= k < n ==> ss[..n][k] == ss[k];
      if d in Stubs(ss[..n], ptrs) {
        var k :| 0 <= k < n && ss[..n][k].arg in ptrs && d == 8 * ss[..n][k].word;
        assert ss[k].arg in ptrs;
      }
    }
  }

  /** Some root that the stack map lists lies at address `a`. */
  ghost predicate RootAt(f: Frame, c: Site, varp: int, a: int) {
    exists k :: 0 <= k < |c.roots| && Below(f, c.roots[k]).Some? && AddressOf(f, varp, c.roots[k]) == a
  }

  /** At a call in the body, a bit is set exactly for the words that are a
      declared pointer slot or the address of a root; at the morestack call,
      exactly for the pushed pointer arguments and the roots. */
  lemma BitsNameTheirWords(f: Frame, c: Site, words: nat, b: seq<bv8>, varp: int, i: nat)
    requires Holds(b, words, Named(f, c)) && i < words && i / 8 < |b|
    ensures var a := WordAt(varp, words, i);
      Bit(b, i) <==>
        || (!c.morestack && exists k :: 0 <= k < |f.slots| && a == varp - f.slots[k])
        || (c.morestack &&
            exists k :: 0 <= k < |f.stubs| && f.stubs[k].arg in f.ptrs && a == varp - 8 * f.stubs[k].word)
        || RootAt(f, c, varp, a)
  {
    hide Bit, Below;
    var d, a := 8 * (words - i), WordAt(varp, words, i);
    assert BitNames(b, words, Named(f, c), i);
    assert a == varp - d;
    RootsListed(f, c.roots, d);
    forall k | 0 <= k < |c.roots| && Below(f, c.roots[k]).Some?
      ensures AddressOf(f, varp, c.roots[k]) == a <==> Below(f, c.roots[k]) == Some(d)
    {
      BelowIsAddress(f, varp, c.roots[k]);
    }
    if c.morestack { StubsListed(f.stubs, f.ptrs, d); }
    else { SlotsListed(f.slots, d); }
  }

  lemma SlotsListed(ss: seq<nat>, d: int)
    ensures d in Slots(ss) <==> exists k :: 0 <= k < |ss| && ss[k] == d
  {
    if k :| 0 <= k < |ss| && ss[k] == d { assert Slots(ss)[k] == d; }
  }

  // ----- the morestack call on x86 -----

  /** The stub slots of a C function. */
  function C_STUBS(): seq<Stub> { seq(6, i requires 0 <= i < 6 => Stub(i, StackCheck.StubSlot(i))) }

  /** For every frame size, the bit of a pointer argument is set and the word it
      names is the one the argument's register was pushed to. */
  lemma PushedPointersAreNamed(f: Frame, c: Site, words: nat, b: seq<bv8>, g: int, s: StackCheck.Cpu, i: nat)
    requires Holds(b, words, Named(f, c)) && c.morestack && f.stubs == C_STUBS() && i < 6 && i in f.ptrs
    requires forall k :: 0 <= k < |f.stubs| ==> f.stubs[k].word <= words
    ensures var bit := words - StackCheck.StubSlot(i); 0 <= bit < words && bit / 8 < |b| && Bit(b, bit)
    ensures var bit := words - StackCheck.StubSlot(i);
      StackCheck.Run(g, StackCheck.SaveCode(StackCheck.ARGS + StackCheck.SAVED, StackCheck.VECTORS, StackCheck.R14), s)
        .mem(WordAt(s.sp - 8, words, bit)) == s.regs(StackCheck.C_ARGS[i])
  {
    hide StackCheck.Run, StackCheck.SaveCode, Bit;
    assert f.stubs[i] == Stub(i, StackCheck.StubSlot(i));
    var bit := words - StackCheck.StubSlot(i);
    InBytes(bit, words);
    BitsNameTheirWords(f, c, words, b, s.sp - 8, bit);
    StackCheck.StubSlotsNameTheirWords(g, s, i);
  }
}
