/** Which values of a function may be stack addresses: propagation through
    instructions, and through the frame slots that hold such addresses. */
module StackAddresses {
  import opened Options
  import opened Counting

  /** `Nothing` is a null or undefined pointer. */
  datatype Operand = Nothing | Constant | Value(id: nat)

  /** A word of a static alloca. */
  datatype Slot = Slot(alloca: nat, off: int)

  datatype Passed = Passed(pointer: bool, op: Operand)

  /** `pointer` tells whether the result (or the stored value) is a pointer.
      `Derive` is a GEP or a cast. `slot` is the static alloca and offset the
      address operand is known to be, if it is. */
  datatype Inst =
    | Alloca(fixed: bool)
    | Derive(from: Operand)
    | Freeze(pointer: bool, from: Operand)
    | Phi(pointer: bool, ins: seq<Operand>)
    | Select(pointer: bool, yes: Operand, no: Operand)
    | Call(pointer: bool, inlineAsm: bool, frameAddress: bool, args: seq<Passed>)
    | Store(pointer: bool, value: Operand, slot: Option<Slot>)
    | Load(pointer: bool, slot: Option<Slot>)
    | Unrelated

  /** Instruction k is value k; the arguments follow. `given` are the arguments
      already known to be stack addresses. */
  datatype Body = Body(insts: seq<Inst>, args: nat, given: set<nat>) {
    function Size(): nat { |insts| + args }

    predicate Valid() { forall a :: a in given ==> |insts| <= a < Size() }
  }

  // ----- the rules -----

  predicate In(op: Operand, s: set<nat>) { op.Value? && op.id in s }

  /** The propagation rule of one instruction. */
  predicate Follows(i: Inst, s: set<nat>) {
    match i
    case Derive(p) => In(p, s)
    case Freeze(pointer, p) => pointer && In(p, s)
    case Phi(pointer, ins) =>
      pointer && (exists k :: 0 <= k < |ins| && In(ins[k], s)) && forall k :: 0 <= k < |ins| ==>
        ins[k].Nothing? || In(ins[k], s)
    case Select(pointer, yes, no) =>
      pointer && (yes.Nothing? || In(yes, s)) && (no.Nothing? || In(no, s)) && (In(yes, s) || In(no, s))
    case Call(pointer, inlineAsm, frameAddress, args) =>
      pointer && !inlineAsm && (frameAddress || exists k :: 0 <= k < |args| && args[k].pointer && In(args[k].op, s))
    case _ => false
  }

  predicate Stores(i: Inst, x: Slot) { i.Store? && i.pointer && i.slot == Some(x) }

  predicate Loads(i: Inst, x: Slot) { i.Load? && i.pointer && i.slot == Some(x) }

  /** A stack address is stored to the slot somewhere. */
  ghost predicate Fed(f: Body, s: set<nat>, x: Slot) {
    exists j :: 0 <= j < |f.insts| && Stores(f.insts[j], x) && In(f.insts[j].value, s)
  }

  ghost predicate Seeded(f: Body, s: set<nat>) {
    f.given <= s && forall k :: 0 <= k < |f.insts| && f.insts[k] == Alloca(true) ==> k in s
  }

  ghost predicate Propagated(f: Body, s: set<nat>) {
    forall k :: 0 <= k < |f.insts| && Follows(f.insts[k], s) ==> k in s
  }

  /** Every load of a fed slot is in the set. */
  ghost predicate SlotDone(f: Body, s: set<nat>, x: Slot) {
    Fed(f, s, x) ==> forall k :: 0 <= k < |f.insts| && Loads(f.insts[k], x) ==> k in s
  }

  ghost predicate Closed(f: Body, s: set<nat>) { Seeded(f, s) && Propagated(f, s) && forall x :: SlotDone(f, s, x) }

  ghost predicate Within(f: Body, s: set<nat>) { forall t: set<nat> :: Closed(f, t) ==> s <= t }

  ghost predicate Least(f: Body, s: set<nat>) { Closed(f, s) && Within(f, s) }

  lemma FollowsGrows(i: Inst, s: set<nat>, t: set<nat>)
    requires s <= t && Follows(i, s)
    ensures Follows(i, t)
  {
  }

  /** Sets of values, all of which every closed set contains. */
  ghost predicate Sure(f: Body, s: set<nat>) { Within(f, s) && forall v :: v in s ==> v < f.Size() }

  lemma RuleSure(f: Body, s: set<nat>, k: nat)
    requires Sure(f, s) && k < |f.insts| && Follows(f.insts[k], s)
    ensures Sure(f, s + {k})
  {
    forall t: set<nat> | Closed(f, t)
      ensures s + {k} <= t
    {
      assert s <= t;
      FollowsGrows(f.insts[k], s, t);
      assert Propagated(f, t);
    }
  }

  lemma LoadSure(f: Body, s: set<nat>, x: Slot, k: nat)
    requires Sure(f, s) && k < |f.insts| && Loads(f.insts[k], x) && Fed(f, s, x)
    ensures Sure(f, s + {k})
  {
    forall t: set<nat> | Closed(f, t)
      ensures s + {k} <= t
    {
      assert s <= t && SlotDone(f, t, x);
      var j :| 0 <= j < |f.insts| && Stores(f.insts[j], x) && In(f.insts[j].value, s);
      assert In(f.insts[j].value, t);
    }
  }

  // ----- the slots -----

  datatype Info = Info(stored: seq<Operand>, loads: seq<nat>)

  /** What the first n instructions do with one slot. */
  ghost predicate InfoOk(f: Body, n: nat, x: Slot, i: Info)
    requires n <= |f.insts|
  {
    && (forall v :: v in i.stored <==> exists j :: 0 <= j < n && Stores(f.insts[j], x) && f.insts[j].value == v)
    && (forall k :: k in i.loads <==> 0 <= k < n && Loads(f.insts[k], x))
  }

  function InfoFor(slots: map<Slot, Info>, x: Slot): Info { if x in slots then slots[x] else Info([], []) }

  ghost predicate SlotsOk(f: Body, n: nat, slots: map<Slot, Info>)
    requires n <= |f.insts|
  {
    forall x :: InfoOk(f, n, x, InfoFor(slots, x))
  }

  lemma InfoStep(f: Body, n: nat, x: Slot, i: Info, j: Info)
    requires n < |f.insts| && InfoOk(f, n, x, i)
    requires j == Info(if Stores(f.insts[n], x) then i.stored + [f.insts[n].value] else i.stored,
                       if Loads(f.insts[n], x) then i.loads + [n] else i.loads)
    ensures InfoOk(f, n + 1, x, j)
  {
    forall v
      ensures v in j.stored <==> exists m :: 0 <= m < n + 1 && Stores(f.insts[m], x) && f.insts[m].value == v
    {
      if v in i.stored {
        var m :| 0 <= m < n && Stores(f.insts[m], x) && f.insts[m].value == v;
        assert Stores(f.insts[m], x);
      } else if v in j.stored {
        assert Stores(f.insts[n], x);
      }
    }
  }

  /** Collects the stores to and loads from every slot. */
  method Collect(f: Body) returns (slots: map<Slot, Info>)
    ensures SlotsOk(f, |f.insts|, slots)
  {
    hide InfoOk;
    slots := map[];
    forall x
      ensures InfoOk(f, 0, x, InfoFor(slots, x))
    {
      NoInfo(f, x);
    }
    for n := 0 to |f.insts|
      invariant SlotsOk(f, n, slots)
    {
      var i, was := f.insts[n], slots;
      if i.Store? && i.pointer && i.slot.Some? {
        var info := InfoFor(slots, i.slot.value);
        slots := slots[i.slot.value := info.(stored := info.stored + [i.value])];
      } else if i.Load? && i.pointer && i.slot.Some? {
        var info := InfoFor(slots, i.slot.value);
        slots := slots[i.slot.value := info.(loads := info.loads + [n])];
      }
      forall x
        ensures InfoOk(f, n + 1, x, InfoFor(slots, x))
      {
        InfoStep(f, n, x, InfoFor(was, x), InfoFor(slots, x));
      }
    }
  }

  lemma NoInfo(f: Body, x: Slot)
    ensures InfoOk(f, 0, x, Info([], []))
  {
  }

  // ----- propagation to a fixpoint -----

  /** The rule of one instruction, tested operand by operand. */
  method Test(i: Inst, s: set<nat>) returns (b: bool)
    ensures b == Follows(i, s)
  {
    match i {
      case Phi(pointer, ins) =>
        if !pointer { return false; }
        var any, all := false, true;
        for k := 0 to |ins|
          invariant all && (any <==> exists j :: 0 <= j < k && In(ins[j], s))
          invariant forall j :: 0 <= j < k ==> ins[j].Nothing? || In(ins[j], s)
        {
          if !ins[k].Nothing? {
            if !In(ins[k], s) { return false; }
            any := true;
          }
        }
        return any && all;
      case Call(pointer, inlineAsm, frameAddress, args) =>
        if !pointer || inlineAsm { return false; }
        if frameAddress { return true; }
        for k := 0 to |args|
          invariant forall j :: 0 <= j < k ==> !(args[j].pointer && In(args[j].op, s))
        {
          if args[k].pointer && In(args[k].op, s) { return true; }
        }
        return false;
      case Select(pointer, yes, no) =>
        if !pointer { return false; }
        var knownYes, knownNo := yes.Nothing? || In(yes, s), no.Nothing? || In(no, s);
        return knownYes && knownNo && (In(yes, s) || In(no, s));
      case Freeze(pointer, p) => return pointer && In(p, s);
      case Derive(p) => return In(p, s);
      case _ => return false;
    }
  }

  /** One pass over the instructions. */
  method Pass(f: Body, s0: set<nat>) returns (s: set<nat>)
    requires Sure(f, s0)
    ensures s0 <= s && Sure(f, s) && (s == s0 ==> Propagated(f, s))
  {
    hide Follows, Sure;
    s := s0;
    for k := 0 to |f.insts|
      invariant s0 <= s && Sure(f, s)
      invariant s == s0 ==> forall j :: 0 <= j < k && Follows(f.insts[j], s) ==> j in s
    {
      if k !in s {
        var b := Test(f.insts[k], s);
        if b {
          RuleSure(f, s, k);
          s := s + {k};
        }
      }
    }
  }

  lemma Counted(f: Body, s0: set<nat>, s: set<nat>)
    requires Sure(f, s0) && Sure(f, s) && s0 <= s
    ensures |s0| <= |s| <= f.Size() && (s0 != s ==> |s0| < |s|)
  {
    BoundedCount(s, f.Size());
    if s0 != s { GrowsCount(s0, s); }
  }

  /** Passes until nothing changes. */
  method Close(f: Body, s0: set<nat>) returns (s: set<nat>)
    requires Sure(f, s0)
    ensures s0 <= s && Sure(f, s) && Propagated(f, s)
  {
    hide Sure, Propagated;
    s := s0;
    Counted(f, s, s);
    var grew := true;
    while grew
      invariant s0 <= s && Sure(f, s) && (!grew ==> Propagated(f, s)) && |s| <= f.Size()
      decreases f.Size() - |s|, grew
    {
      var t := Pass(f, s);
      Counted(f, s, t);
      grew := t != s;
      s := t;
    }
  }

  // ----- the whole analysis -----

  /** Slots marked as seeded have had all their loads added. */
  ghost predicate Loaded(slots: map<Slot, Info>, seeded: set<Slot>, s: set<nat>) {
    forall x, k :: x in seeded && x in slots && k in slots[x].loads ==> k in s
  }

  /** The slots visited in a round without progress are done. */
  ghost predicate Quiet(slots: map<Slot, Info>, xs: set<Slot>, s: set<nat>) {
    forall x, v :: x in xs && x in slots && v in slots[x].stored && In(v, s) ==> forall k :: k in slots[x].loads ==>
      k in s
  }

  lemma FedSlot(f: Body, slots: map<Slot, Info>, s: set<nat>, x: Slot)
    requires SlotsOk(f, |f.insts|, slots)
    ensures Fed(f, s, x) <==> exists v :: v in InfoFor(slots, x).stored && In(v, s)
    ensures forall k :: k in InfoFor(slots, x).loads ==> k < |f.insts| && Loads(f.insts[k], x)
  {
    assert InfoOk(f, |f.insts|, x, InfoFor(slots, x));
    if Fed(f, s, x) {
      var j :| 0 <= j < |f.insts| && Stores(f.insts[j], x) && In(f.insts[j].value, s);
      assert f.insts[j].value in InfoFor(slots, x).stored;
    }
  }

  lemma QuietCloses(f: Body, slots: map<Slot, Info>, s: set<nat>, x: Slot)
    requires SlotsOk(f, |f.insts|, slots) && Quiet(slots, slots.Keys, s)
    ensures SlotDone(f, s, x)
  {
    FedSlot(f, slots, s, x);
    if Fed(f, s, x) {
      assert InfoOk(f, |f.insts|, x, InfoFor(slots, x));
      var v :| v in InfoFor(slots, x).stored && In(v, s);
    }
  }

  method AnyStored(vs: seq<Operand>, s: set<nat>) returns (b: bool)
    ensures b <==> exists v :: v in vs && In(v, s)
  {
    b := false;
    for n := 0 to |vs|
      invariant b <==> exists k :: 0 <= k < n && In(vs[k], s)
    {
      if !vs[n].Nothing? && In(vs[n], s) { b := true; }
    }
  }

  /** Adds the loads of one fed slot. */
  method AddLoads(f: Body, slots: map<Slot, Info>, x: Slot, s0: set<nat>) returns (s: set<nat>)
    requires SlotsOk(f, |f.insts|, slots) && x in slots && Sure(f, s0) && Fed(f, s0, x)
    ensures s0 <= s && Sure(f, s) && forall k :: k in slots[x].loads ==> k in s
  {
    hide Sure, SlotsOk, Fed;
    s := s0;
    var ks := slots[x].loads;
    FedSlot(f, slots, s0, x);
    for n := 0 to |ks|
      invariant s0 <= s && Sure(f, s) && forall j :: 0 <= j < n ==> ks[j] in s
    {
      assert ks[n] in slots[x].loads;
      FedGrows(f, s0, s, x);
      LoadSure(f, s, x, ks[n]);
      s := s + {ks[n]};
    }
  }

  lemma FedGrows(f: Body, s: set<nat>, t: set<nat>, x: Slot)
    requires s <= t && Fed(f, s, x)
    ensures Fed(f, t, x)
  {
    var j :| 0 <= j < |f.insts| && Stores(f.insts[j], x) && In(f.insts[j].value, s);
    assert In(f.insts[j].value, t);
  }

  /** One round over the slots, in any order. */
  method Round(f: Body, slots: map<Slot, Info>, seeded0: set<Slot>, s0: set<nat>)
      returns (seeded: set<Slot>, s: set<nat>)
    requires SlotsOk(f, |f.insts|, slots) && Sure(f, s0) && Loaded(slots, seeded0, s0)
    ensures s0 <= s && Sure(f, s) && Loaded(slots, seeded, s) && (s == s0 ==> Quiet(slots, slots.Keys, s))
  {
    hide Sure, SlotsOk, Fed;
    seeded, s := seeded0, s0;
    var left := slots.Keys;
    while left != {}
      invariant left <= slots.Keys && s0 <= s && Sure(f, s) && Loaded(slots, seeded, s)
      invariant s == s0 ==> Quiet(slots, slots.Keys - left, s)
      decreases left
    {
      var x :| x in left;
      left := left - {x};
      if x !in seeded {
        FedSlot(f, slots, s, x);
        var seed := AnyStored(slots[x].stored, s);
        if seed {
          s := AddLoads(f, slots, x, s);
          seeded := seeded + {x};
        }
      }
    }
  }

  /** The least set that contains the static allocas and the given arguments and
      is closed under propagation and under the slots -- whatever the order in
      which slots are visited. */
  method StackAddresses(f: Body) returns (s: set<nat>)
    requires f.Valid()
    ensures Least(f, s)
  {
    hide Propagated, SlotsOk, Sure;
    var slots := Collect(f);
    s := f.given + set k | 0 <= k < |f.insts| && f.insts[k] == Alloca(true);
    StartSure(f, s);
    s := Close(f, s);
    Counted(f, s, s);
    var seeded: set<Slot> := {};
    var progress := true;
    while progress
      invariant Sure(f, s) && Seeded(f, s) && Propagated(f, s) && Loaded(slots, seeded, s) && |s| <= f.Size()
      invariant !progress ==> Quiet(slots, slots.Keys, s)
      decreases f.Size() - |s|, progress
    {
      var t;
      seeded, t := Round(f, slots, seeded, s);
      Counted(f, s, t);
      progress := t != s;
      if progress {
        s := Close(f, t);
        Counted(f, t, s);
      }
    }
    forall x
      ensures SlotDone(f, s, x)
    {
      QuietCloses(f, slots, s, x);
    }
    SureWithin(f, s);
  }

  lemma SureWithin(f: Body, s: set<nat>)
    requires Sure(f, s)
    ensures Within(f, s)
  {
  }

  lemma StartSure(f: Body, s: set<nat>)
    requires f.Valid() && s == f.given + set k | 0 <= k < |f.insts| && f.insts[k] == Alloca(true)
    ensures Sure(f, s) && Seeded(f, s)
  {
  }

  /** There is only one such set. */
  lemma LeastIsUnique(f: Body, s: set<nat>, t: set<nat>)
    requires Least(f, s) && Least(f, t)
    ensures s == t
  {
  }
}
