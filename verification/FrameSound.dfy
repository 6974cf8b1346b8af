/** The transfer function over-approximates the symbolic machine: what an
    abstract state claims of every register and slot stays true. */
module FrameSound {
  import opened FrameLattice
  import opened FrameTransfer
  import opened FrameMachine

  function ValAt(s: AState, l: Loc): Val
    requires |s.units| == GPRS && InRange(l, |s.slots|)
  {
    match l
    case R(n) => s.units[n]
    case S(n) => s.slots[n]
  }

  /** What a kind says of a word: how often this frame's position enters it.
      Only `Tainted` leaves that open. */
  ghost predicate KindHolds(k: Kind, x: Sym, m: Ideal) {
    x.Lin? ==>
      match k
      case Unset => false
      case Plain => x.own == 0
      case Exact(b, c) => x == Lin(1, 0, m.BaseOff(b) + c)
      case Shifts => x.own == 1
      case Maybe => x.own == 0 || x.own == 1
      case Tainted => true
  }

  ghost predicate AliasHolds(v: Val, x: Sym, m: Ideal) {
    x.Lin? && v.alias >= 0 ==> v.alias < |m.slots| && m.slots[v.alias] == x
  }

  ghost predicate Holds(v: Val, x: Sym, m: Ideal) { KindHolds(v.kind, x, m) && AliasHolds(v, x, m) }

  /** Two words of one copy group are the same word. */
  ghost predicate SameGroup(v: Val, x: Sym, w: Val, y: Sym) {
    v.copyId == w.copyId != NO_COPY && x.Lin? && y.Lin? ==> x == y
  }

  ghost predicate Sound(s: AState, m: Ideal) {
    && s.Valid(|m.slots|) && m.Valid(|m.slots|)
    && (forall l :: InRange(l, |m.slots|) ==> Holds(ValAt(s, l), SymAt(m, l), m))
    && (forall l, k :: InRange(l, |m.slots|) && InRange(k, |m.slots|) ==>
      SameGroup(ValAt(s, l), SymAt(m, l), ValAt(s, k), SymAt(m, k)))
  }

  // ----- merges -----

  function JoinStates(s: AState, t: AState): AState
    requires |s.units| == |t.units| && |s.slots| == |t.slots|
  {
    AState(seq(|s.units|, i requires 0 <= i < |s.units| => Join(s.units[i], t.units[i])),
           seq(|s.slots|, i requires 0 <= i < |s.slots| => Join(s.slots[i], t.slots[i])))
  }

  /** A merge claims no more than either side. */
  lemma JoinSound(s: AState, t: AState, m: Ideal)
    requires s.Valid(|m.slots|) && t.Valid(|m.slots|)
    requires Sound(s, m) || Sound(t, m)
    ensures Sound(JoinStates(s, t), m)
  {
    var j := JoinStates(s, t);
    var u := if Sound(s, m) then s else t;
    forall l | InRange(l, |m.slots|)
      ensures Holds(ValAt(j, l), SymAt(m, l), m)
      ensures SymAt(m, l).Lin? ==> ValAt(j, l).copyId in {ValAt(u, l).copyId, NO_COPY}
    {
      assert Holds(ValAt(u, l), SymAt(m, l), m);
    }
    forall l, k | InRange(l, |m.slots|) && InRange(k, |m.slots|)
      ensures SameGroup(ValAt(j, l), SymAt(m, l), ValAt(j, k), SymAt(m, k))
    {
      assert SameGroup(ValAt(u, l), SymAt(m, l), ValAt(u, k), SymAt(m, k));
    }
  }

  // ----- one location at a time -----

  /** A value that may be written to register n: it describes the new word, and
      the rest of its copy group holds the same word. */
  ghost predicate Fits(s: AState, m: Ideal, n: nat, v: Val, x: Sym)
    requires s.Valid(|m.slots|) && m.Valid(|m.slots|) && n < GPRS
  {
    && Holds(v, x, m)
    && forall l :: InRange(l, |m.slots|) && l != R(n) ==> SameGroup(v, x, ValAt(s, l), SymAt(m, l))
  }

  lemma WriteSound(s: AState, m: Ideal, n: nat, v: Val, x: Sym)
    requires Sound(s, m) && n < GPRS && Fits(s, m, n, v, x)
    ensures Sound(Write(s, Gpr(n), v), IdealWrite(m, Gpr(n), x))
  {
    var s', m' := Write(s, Gpr(n), v), IdealWrite(m, Gpr(n), x);
    forall l | InRange(l, |m.slots|)
      ensures Holds(ValAt(s', l), SymAt(m', l), m')
    {
      if l != R(n) { assert Holds(ValAt(s, l), SymAt(m, l), m); }
    }
    forall l, k | InRange(l, |m.slots|) && InRange(k, |m.slots|)
      ensures SameGroup(ValAt(s', l), SymAt(m', l), ValAt(s', k), SymAt(m', k))
    {
      if l != R(n) && k != R(n) { assert SameGroup(ValAt(s, l), SymAt(m, l), ValAt(s, k), SymAt(m, k)); }
      else if l != R(n) { assert SameGroup(v, x, ValAt(s, l), SymAt(m, l)); }
    }
  }

  /** No exact address built on base b is left. */
  ghost predicate NoExact(s: AState, b: Base) {
    && (forall i :: 0 <= i < |s.units| ==> !(s.units[i].kind.Exact? && s.units[i].kind.base == b))
    && (forall i :: 0 <= i < |s.slots| ==> !(s.slots[i].kind.Exact? && s.slots[i].kind.base == b))
  }

  /** Rewriting values one by one, each to something weaker. */
  lemma WeakenSound(s: AState, t: AState, m: Ideal)
    requires Sound(s, m) && t.Valid(|m.slots|)
    requires forall l :: InRange(l, |m.slots|) ==> Holds(ValAt(t, l), SymAt(m, l), m)
    requires forall l :: InRange(l, |m.slots|) ==> ValAt(t, l).copyId in {ValAt(s, l).copyId, NO_COPY}
    ensures Sound(t, m)
  {
    forall l, k | InRange(l, |m.slots|) && InRange(k, |m.slots|)
      ensures SameGroup(ValAt(t, l), SymAt(m, l), ValAt(t, k), SymAt(m, k))
    {
      assert SameGroup(ValAt(s, l), SymAt(m, l), ValAt(s, k), SymAt(m, k));
    }
  }

  lemma InvalidateSound(s: AState, m: Ideal, b: Base)
    requires Sound(s, m)
    ensures Sound(Invalidate(s, b), m) && NoExact(Invalidate(s, b), b)
    ensures forall c :: NoExact(s, c) ==> NoExact(Invalidate(s, b), c)
  {
    forall l | InRange(l, |m.slots|)
      ensures Holds(ValAt(Invalidate(s, b), l), SymAt(m, l), m)
      ensures ValAt(Invalidate(s, b), l).copyId in {ValAt(s, l).copyId, NO_COPY}
    {
      assert Holds(ValAt(s, l), SymAt(m, l), m);
    }
    WeakenSound(s, Invalidate(s, b), m);
  }

  lemma {:induction false} InvalidateAllSound(s: AState, m: Ideal, rs: seq<Reg>)
    requires Sound(s, m)
    ensures Sound(InvalidateAll(s, rs), m)
    ensures forall b :: Frame(b) in rs ==> NoExact(InvalidateAll(s, rs), b)
  {
    if rs != [] {
      var n := |rs| - 1;
      InvalidateAllSound(s, m, rs[..n]);
      if rs[n].Frame? { InvalidateSound(InvalidateAll(s, rs[..n]), m, rs[n].base); }
      assert forall b :: Frame(b) in rs ==> Frame(b) in rs[..n] || rs[n] == Frame(b);
    }
  }

  lemma MoveBaseSound(s: AState, m: Ideal, b: Base, x: Sym)
    requires Sound(s, m) && NoExact(s, b)
    ensures Sound(s, IdealWrite(m, Frame(b), x))
  {
    var m' := IdealWrite(m, Frame(b), x);
    forall l | InRange(l, |m.slots|)
      ensures Holds(ValAt(s, l), SymAt(m', l), m')
    {
      assert Holds(ValAt(s, l), SymAt(m, l), m);
    }
    forall l, k | InRange(l, |m.slots|) && InRange(k, |m.slots|)
      ensures SameGroup(ValAt(s, l), SymAt(m', l), ValAt(s, k), SymAt(m', k))
    {
      assert SameGroup(ValAt(s, l), SymAt(m, l), ValAt(s, k), SymAt(m, k));
    }
  }

  /** Several definitions of one instruction, all classed as words from outside
      this frame, or all as unknown. */
  lemma {:induction false} WritesSound(s: AState, m: Ideal, rs: seq<Reg>, v: Val, xs: seq<Sym>)
    requires Sound(s, m) && ValidRegs(rs) && |xs| >= |rs| && v in {Of(Plain), Of(Tainted)}
    requires v == Of(Plain) ==> forall k :: 0 <= k < |rs| && rs[k].Gpr? ==> Foreign(xs[k])
    requires forall b :: Frame(b) in rs ==> NoExact(s, b)
    ensures Sound(WriteAll(s, rs, v), IdealWrites(m, rs, xs))
    ensures forall b :: NoExact(s, b) ==> NoExact(WriteAll(s, rs, v), b)
  {
    if rs != [] {
      var n := |rs| - 1;
      WritesSound(s, m, rs[..n], v, xs);
      var t, k := WriteAll(s, rs[..n], v), IdealWrites(m, rs[..n], xs);
      match rs[n]
      case Gpr(r) => WriteSound(t, k, r, v, xs[n]);
      case Frame(b) => MoveBaseSound(t, k, b, xs[n]);
    }
  }

  // ----- slots -----

  lemma ForgetSound(s: AState, m: Ideal, sl: nat)
    requires Sound(s, m) && sl < |m.slots|
    ensures Sound(Forget(s, sl), m)
    ensures forall l :: InRange(l, |m.slots|) ==> ValAt(Forget(s, sl), l).alias != sl
  {
    forall l | InRange(l, |m.slots|)
      ensures Holds(ValAt(Forget(s, sl), l), SymAt(m, l), m) && ValAt(Forget(s, sl), l).alias != sl
      ensures ValAt(Forget(s, sl), l).copyId == ValAt(s, l).copyId
    {
      assert Holds(ValAt(s, l), SymAt(m, l), m);
    }
    WeakenSound(s, Forget(s, sl), m);
  }

  /** Overwriting a slot nobody aliases. */
  lemma SlotWriteSound(s: AState, m: Ideal, sl: nat, v: Val, x: Sym)
    requires Sound(s, m) && sl < |m.slots| && v.alias == NO_ALIAS && KindHolds(v.kind, x, m)
    requires forall l :: InRange(l, |m.slots|) ==> ValAt(s, l).alias != sl
    requires forall l :: InRange(l, |m.slots|) && l != S(sl) ==> SameGroup(v, x, ValAt(s, l), SymAt(m, l))
    ensures Sound(s.(slots := s.slots[sl := v]), m.(slots := m.slots[sl := x]))
  {
    var s', m' := s.(slots := s.slots[sl := v]), m.(slots := m.slots[sl := x]);
    forall l | InRange(l, |m.slots|)
      ensures Holds(ValAt(s', l), SymAt(m', l), m')
    {
      assert Holds(ValAt(s, l), SymAt(m, l), m) && ValAt(s, l).alias != sl;
    }
    forall l, k | InRange(l, |m.slots|) && InRange(k, |m.slots|)
      ensures SameGroup(ValAt(s', l), SymAt(m', l), ValAt(s', k), SymAt(m', k))
    {
      if l != S(sl) && k != S(sl) { assert SameGroup(ValAt(s, l), SymAt(m, l), ValAt(s, k), SymAt(m, k)); }
      else if l != S(sl) { assert SameGroup(v, x, ValAt(s, l), SymAt(m, l)); }
      else if k != S(sl) { assert SameGroup(v, x, ValAt(s, k), SymAt(m, k)); }
    }
  }

  lemma StorePartSound(s: AState, m: Ideal, sl: nat, vals: seq<Reg>, x: Sym)
    requires Sound(s, m) && sl < |m.slots| && ValidRegs(vals) && KindHolds(StorePart(s, sl, vals).slots[sl].kind, x, m)
    ensures Sound(StorePart(s, sl, vals), m.(slots := m.slots[sl := x]))
  {
    ForgetSound(s, m, sl);
    SlotWriteSound(Forget(s, sl), m, sl, StorePart(s, sl, vals).slots[sl], x);
  }

  lemma ReadHolds(s: AState, m: Ideal, r: Reg)
    requires Sound(s, m) && ValidReg(r)
    ensures Holds(Read(s, r), IdealRead(m, r), m)
    ensures forall l :: InRange(l, |m.slots|) ==> SameGroup(Read(s, r), IdealRead(m, r), ValAt(s, l), SymAt(m, l))
  {
    if r.Gpr? {
      assert Holds(ValAt(s, R(r.n)), SymAt(m, R(r.n)), m);
      forall l | InRange(l, |m.slots|)
        ensures SameGroup(Read(s, r), IdealRead(m, r), ValAt(s, l), SymAt(m, l))
      {
        assert SameGroup(ValAt(s, R(r.n)), SymAt(m, R(r.n)), ValAt(s, l), SymAt(m, l));
      }
    }
  }

  lemma StoreWholeSound(s: AState, m: Ideal, sl: nat, src: Reg)
    requires Sound(s, m) && sl < |m.slots| && ValidReg(src)
    requires Read(s, src).copyId != NO_COPY ==> IdealRead(m, src).Lin?
    ensures Sound(StoreWhole(s, sl, src), m.(slots := m.slots[sl := IdealRead(m, src)]))
  {
    var x, id := IdealRead(m, src), Read(s, src).copyId;
    var f := Forget(s, sl);
    ForgetSound(s, m, sl);
    ReadHolds(f, m, src);
    var v := Read(f, src);
    assert v.copyId == id;
    SlotWriteSound(f, m, sl, v.(alias := NO_ALIAS), x);
    var t, m' := f.(slots := f.slots[sl := v.(alias := NO_ALIAS)]), m.(slots := m.slots[sl := x]);
    ReadHolds(t, m', src);
    if id == NO_COPY {
      if src.Gpr? {
        WriteSound(t, m', src.n, v.(alias := sl), x);
        assert IdealWrite(m', src, x) == m';
      }
    } else {
      var u := t.(units := MapVals(t.units, w => Marked(w, id, sl)));
      forall l | InRange(l, |m.slots|)
        ensures Holds(ValAt(u, l), SymAt(m', l), m') && ValAt(u, l).copyId == ValAt(t, l).copyId
      {
        assert Holds(ValAt(t, l), SymAt(m', l), m');
        if l.R? { assert ValAt(u, l) == Marked(ValAt(t, l), id, sl); }
        assert SameGroup(ValAt(t, S(sl)), SymAt(m', S(sl)), ValAt(t, l), SymAt(m', l));
      }
      WeakenSound(t, u, m');
    }
  }
}
