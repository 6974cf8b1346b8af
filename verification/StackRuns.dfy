/** What the stack-address analysis means on runs. Each value holds nothing, a
    word that stays, or one that moves when the stack is copied; instructions are
    executed in any order and any number of times. Every value the analysis lists
    moves on some run, and it lists all that ever move unless the function has one
    of the instructions it does not follow. */
module StackRuns {
  import opened StackAddresses

  datatype Word = Null | Still | Moves

  /** The latest word of every value, and the words in frame slots. */
  datatype State = State(vals: seq<Word>, slots: map<Slot, Word>)

  function Start(f: Body): State {
    State(seq(f.Size(), v requires v >= 0 => if v in f.given then Moves else if v < |f.insts| then Null else Still),
      map[])
  }

  function WordOf(st: State, op: Operand): Word {
    match op
    case Nothing => Null
    case Constant => Still
    case Value(v) => if v < |st.vals| then st.vals[v] else Null
  }

  function SlotWord(st: State, x: Slot): Word { if x in st.slots then st.slots[x] else Null }

  /** A pointer argument moves. */
  ghost predicate Handed(st: State, args: seq<Passed>) {
    exists k :: 0 <= k < |args| && args[k].pointer && WordOf(st, args[k].op).Moves?
  }

  /** The words instruction i may produce. What is no pointer never moves. A call
      may return what it was handed; memory that is not tracked may hold anything. */
  ghost predicate Gives(i: Inst, st: State, w: Word) {
    match i
    case Alloca(_) => w.Moves?
    case Derive(p) => w == WordOf(st, p)
    case Freeze(pointer, p) => if pointer then w == WordOf(st, p) else !w.Moves?
    case Phi(pointer, ins) =>
      if pointer then exists k :: 0 <= k < |ins| && w == WordOf(st, ins[k]) else !w.Moves?
    case Select(pointer, yes, no) => if pointer then w == WordOf(st, yes) || w == WordOf(st, no) else !w.Moves?
    case Call(pointer, inlineAsm, frameAddress, args) =>
      w.Moves? ==> pointer && (Handed(st, args) || (frameAddress && !inlineAsm))
    case Store(_, _, _) => w.Null?
    case Load(pointer, slot) =>
      if !pointer then !w.Moves? else if slot.Some? then w == SlotWord(st, slot.value) else true
    case Unrelated => !w.Moves?
  }

  function Stored(i: Inst, st: State): map<Slot, Word> {
    if i.Store? && i.slot.Some? then
      st.slots[i.slot.value := if i.pointer then WordOf(st, i.value) else Still]
    else st.slots
  }

  /** One executed instruction and the word it gave. */
  datatype Event = Event(k: nat, w: Word)

  function Exec(f: Body, evs: seq<Event>): (st: State)
    ensures |st.vals| == f.Size()
  {
    if evs == [] then Start(f) else
      var st, e := Exec(f, evs[..|evs| - 1]), evs[|evs| - 1];
      if e.k < |f.insts| then State(st.vals[e.k := e.w], Stored(f.insts[e.k], st)) else st
  }

  ghost predicate IsRun(f: Body, evs: seq<Event>) {
    evs == []
    || (var n := |evs| - 1;
        IsRun(f, evs[..n]) && evs[n].k < |f.insts| && Gives(f.insts[evs[n].k], Exec(f, evs[..n]), evs[n].w))
  }

  lemma OneMore(f: Body, evs: seq<Event>, e: Event)
    requires IsRun(f, evs) && e.k < |f.insts| && Gives(f.insts[e.k], Exec(f, evs), e.w)
    ensures IsRun(f, evs + [e])
    ensures Exec(f, evs + [e]) == State(Exec(f, evs).vals[e.k := e.w], Stored(f.insts[e.k], Exec(f, evs)))
  {
    assert (evs + [e])[..|evs|] == evs;
  }

  // ----- what is listed can move -----

  ghost predicate CanMove(f: Body, v: nat) {
    exists evs :: IsRun(f, evs) && v < f.Size() && Exec(f, evs).vals[v].Moves?
  }

  lemma Made(f: Body, evs: seq<Event>, k: nat)
    requires IsRun(f, evs) && k < |f.insts| && Gives(f.insts[k], Exec(f, evs), Moves)
    ensures CanMove(f, k)
  {
    OneMore(f, evs, Event(k, Moves));
    assert Exec(f, evs + [Event(k, Moves)]).vals[k].Moves?;
  }

  ghost function Movable(f: Body): set<nat> { set v | 0 <= v < f.Size() && CanMove(f, v) }

  lemma OperandMoves(f: Body, op: Operand) returns (evs: seq<Event>)
    requires In(op, Movable(f))
    ensures IsRun(f, evs) && WordOf(Exec(f, evs), op).Moves?
  {
    evs :| IsRun(f, evs) && op.id < f.Size() && Exec(f, evs).vals[op.id].Moves?;
  }

  lemma RuleMoves(f: Body, k: nat)
    requires k < |f.insts| && Follows(f.insts[k], Movable(f))
    ensures CanMove(f, k)
  {
    var s, evs := Movable(f), [];
    match f.insts[k] {
      case Derive(p) => evs := OperandMoves(f, p);
      case Freeze(_, p) => evs := OperandMoves(f, p);
      case Phi(_, ins) =>
        var j :| 0 <= j < |ins| && In(ins[j], s);
        evs := OperandMoves(f, ins[j]);
      case Select(_, yes, no) =>
        if In(yes, s) { evs := OperandMoves(f, yes); } else { evs := OperandMoves(f, no); }
      case Call(_, _, frameAddress, args) =>
        if !frameAddress {
          var j :| 0 <= j < |args| && args[j].pointer && In(args[j].op, s);
          evs := OperandMoves(f, args[j].op);
          assert Handed(Exec(f, evs), args);
        }
    }
    Made(f, evs, k);
  }

  lemma LoadMoves(f: Body, x: Slot, k: nat)
    requires k < |f.insts| && Loads(f.insts[k], x) && Fed(f, Movable(f), x)
    ensures CanMove(f, k)
  {
    var j :| 0 <= j < |f.insts| && Stores(f.insts[j], x) && In(f.insts[j].value, Movable(f));
    var evs := OperandMoves(f, f.insts[j].value);
    OneMore(f, evs, Event(j, Null));
    Made(f, evs + [Event(j, Null)], k);
  }

  lemma MovableClosed(f: Body)
    requires f.Valid()
    ensures Closed(f, Movable(f))
  {
    hide Follows, CanMove, Gives;
    var s := Movable(f);
    forall v | v in f.given
      ensures v in s
    {
      GivenMoves(f, v);
    }
    forall k | 0 <= k < |f.insts| && (f.insts[k] == Alloca(true) || Follows(f.insts[k], s))
      ensures k in s
    {
      if f.insts[k] == Alloca(true) { AllocaMoves(f, k); } else { RuleMoves(f, k); }
    }
    forall x
      ensures SlotDone(f, s, x)
    {
      if Fed(f, s, x) {
        forall k | 0 <= k < |f.insts| && Loads(f.insts[k], x)
          ensures k in s
        {
          LoadMoves(f, x, k);
        }
      }
    }
  }

  lemma GivenMoves(f: Body, v: nat)
    requires v in f.given && v < f.Size()
    ensures CanMove(f, v)
  {
    assert IsRun(f, []) && Exec(f, []).vals[v].Moves?;
  }

  lemma AllocaMoves(f: Body, k: nat)
    requires k < |f.insts| && f.insts[k].Alloca?
    ensures CanMove(f, k)
  {
    Made(f, [], k);
  }

  /** Every listed value moves on some run. */
  lemma ListedCanMove(f: Body, s: set<nat>, v: nat)
    requires f.Valid() && Least(f, s) && v in s
    ensures CanMove(f, v)
  {
    MovableClosed(f);
    assert s <= Movable(f);
  }

  // ----- what moves is listed -----

  /** Instructions the analysis does not follow: a dynamic alloca; a phi or select
      that mixes a listed value with one that is neither listed nor empty; inline
      assembly handed a listed value; a pointer load from memory that is not a
      frame slot. */
  ghost predicate Leaks(i: Inst, s: set<nat>) {
    match i
    case Alloca(fixed) => !fixed
    case Phi(pointer, ins) =>
      && pointer && (exists k :: 0 <= k < |ins| && In(ins[k], s))
      && exists k :: 0 <= k < |ins| && !ins[k].Nothing? && !In(ins[k], s)
    case Select(pointer, yes, no) =>
      pointer && (In(yes, s) || In(no, s)) && ((!yes.Nothing? && !In(yes, s)) || (!no.Nothing? && !In(no, s)))
    case Call(pointer, inlineAsm, _, args) =>
      pointer && inlineAsm && exists k :: 0 <= k < |args| && args[k].pointer && In(args[k].op, s)
    case Load(pointer, slot) => pointer && slot.None?
    case _ => false
  }

  /** On every run, all that moves is listed. */
  ghost predicate Covers(f: Body, s: set<nat>) {
    forall evs, v :: IsRun(f, evs) && 0 <= v < f.Size() && Exec(f, evs).vals[v].Moves? ==> v in s
  }

  ghost predicate Listed(f: Body, s: set<nat>, st: State) {
    && (forall v :: 0 <= v < |st.vals| && st.vals[v].Moves? ==> v in s)
    && (forall x :: x in st.slots && st.slots[x].Moves? ==> Fed(f, s, x))
  }

  lemma MovingIsIn(f: Body, s: set<nat>, st: State, op: Operand)
    requires Listed(f, s, st) && WordOf(st, op).Moves?
    ensures In(op, s)
  {
  }

  /** One instruction that is followed keeps everything listed. */
  lemma StepListed(f: Body, s: set<nat>, st: State, k: nat, w: Word)
    requires Closed(f, s) && k < |f.insts| && !Leaks(f.insts[k], s) && Listed(f, s, st) && Gives(f.insts[k], st, w)
    ensures w.Moves? ==> k in s
  {
    if w.Moves? {
      match f.insts[k] {
        case Alloca(_) =>
        case Derive(p) => MovingIsIn(f, s, st, p);
        case Freeze(_, p) => MovingIsIn(f, s, st, p);
        case Phi(_, ins) =>
          var j :| 0 <= j < |ins| && w == WordOf(st, ins[j]);
          MovingIsIn(f, s, st, ins[j]);
        case Select(_, yes, no) =>
          if w == WordOf(st, yes) { MovingIsIn(f, s, st, yes); } else { MovingIsIn(f, s, st, no); }
        case Call(_, inlineAsm, _, args) =>
          if Handed(st, args) {
            var j :| 0 <= j < |args| && args[j].pointer && WordOf(st, args[j].op).Moves?;
            MovingIsIn(f, s, st, args[j].op);
          }
        case Load(_, slot) =>
          assert SlotDone(f, s, slot.value) && Loads(f.insts[k], slot.value);
      }
      assert Propagated(f, s);
    }
  }

  lemma StoreListed(f: Body, s: set<nat>, st: State, k: nat)
    requires k < |f.insts| && Listed(f, s, st)
    ensures forall x :: x in Stored(f.insts[k], st) && Stored(f.insts[k], st)[x].Moves? ==> Fed(f, s, x)
  {
    var i := f.insts[k];
    if i.Store? && i.slot.Some? && i.pointer && WordOf(st, i.value).Moves? {
      MovingIsIn(f, s, st, i.value);
      assert Stores(i, i.slot.value);
    }
  }

  /** No instruction that is not followed gave a moving word. */
  ghost predicate NoLeak(f: Body, s: set<nat>, evs: seq<Event>) {
    forall n :: 0 <= n < |evs| && evs[n].k < |f.insts| && Leaks(f.insts[evs[n].k], s) ==> !evs[n].w.Moves?
  }

  /** On such a run all that moves is listed, and slots that hold it are fed. */
  lemma {:induction false} RunListed(f: Body, s: set<nat>, evs: seq<Event>)
    requires f.Valid() && Closed(f, s) && IsRun(f, evs) && NoLeak(f, s, evs)
    ensures Listed(f, s, Exec(f, evs))
  {
    hide Gives, Leaks;
    if evs != [] {
      var n := |evs| - 1;
      RunListed(f, s, evs[..n]);
      if !Leaks(f.insts[evs[n].k], s) { StepListed(f, s, Exec(f, evs[..n]), evs[n].k, evs[n].w); }
      StoreListed(f, s, Exec(f, evs[..n]), evs[n].k);
    }
  }

  // ----- and exactly then -----

  /** Nothing is listed without a reason. */
  lemma Justified(f: Body, s: set<nat>, k: nat)
    requires f.Valid() && Least(f, s) && k in s && k < |f.insts|
    ensures f.insts[k] == Alloca(true) || Follows(f.insts[k], s) || exists x :: Loads(f.insts[k], x)
  {
    if f.insts[k] != Alloca(true) && !Follows(f.insts[k], s) && forall x :: !Loads(f.insts[k], x) {
      var t := s - {k};
      forall j | 0 <= j < |f.insts| && Follows(f.insts[j], t)
        ensures j in t
      {
        FollowsGrows(f.insts[j], t, s);
      }
      forall x
        ensures SlotDone(f, t, x)
      {
        if Fed(f, t, x) { FedGrows(f, t, s, x); }
        assert SlotDone(f, s, x);
      }
      assert Closed(f, t);
    }
  }

  /** A leak gives a moving word that is not listed. */
  lemma LeakMoves(f: Body, s: set<nat>, k: nat)
    requires f.Valid() && Least(f, s) && k < |f.insts| && Leaks(f.insts[k], s)
    ensures k !in s && CanMove(f, k)
  {
    if k in s { Justified(f, s, k); }
    MovableClosed(f);
    assert s <= Movable(f);
    var evs := [];
    match f.insts[k] {
      case Alloca(_) =>
      case Phi(_, ins) =>
        var j :| 0 <= j < |ins| && In(ins[j], s);
        evs := OperandMoves(f, ins[j]);
      case Select(_, yes, no) =>
        if In(yes, s) { evs := OperandMoves(f, yes); } else { evs := OperandMoves(f, no); }
      case Call(_, _, _, args) =>
        var j :| 0 <= j < |args| && args[j].pointer && In(args[j].op, s);
        evs := OperandMoves(f, args[j].op);
        assert Handed(Exec(f, evs), args);
      case Load(_, _) =>
    }
    Made(f, evs, k);
  }

  /** The analysis lists all that ever moves exactly if the function has no
      instruction it does not follow. */
  lemma CoversIff(f: Body, s: set<nat>)
    requires f.Valid() && Least(f, s)
    ensures Covers(f, s) <==> forall k :: 0 <= k < |f.insts| ==> !Leaks(f.insts[k], s)
  {
    if forall k :: 0 <= k < |f.insts| ==> !Leaks(f.insts[k], s) {
      forall evs, v | IsRun(f, evs) && 0 <= v < f.Size() && Exec(f, evs).vals[v].Moves?
        ensures v in s
      {
        RunListed(f, s, evs);
      }
    } else {
      var k :| 0 <= k < |f.insts| && Leaks(f.insts[k], s);
      LeakMoves(f, s, k);
      var evs :| IsRun(f, evs) && k < f.Size() && Exec(f, evs).vals[k].Moves?;
    }
  }
}
