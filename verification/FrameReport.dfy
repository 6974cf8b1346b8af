/** What the pass reports and when it gives up: exactly the live words of which it
    knows nothing, and exactly the repairs it has no registers, no saved RBP or no
    encoding for. */
module FrameReport {
  import opened Counting
  import opened FrameLattice
  import opened FrameTransfer
  import opened FrameMachine
  import opened FrameSound
  import opened FrameRepair

  // ----- reports -----

  /** A live callee-saved register of unknown coefficient, unless the runtime
      adjusts the root it copies. */
  ghost predicate HopelessReg(s: AState, live: set<Loc>, fi: FrameInfo, n: nat)
    requires |s.units| == GPRS && n < GPRS
  {
    && n in CSRS && n !in fi.reserved && R(n) in live && s.units[n].kind == Tainted
    && !(0 <= s.units[n].alias < |fi.roots| && fi.roots[s.units[n].alias])
  }

  ghost predicate HopelessSlot(s: AState, live: set<Loc>, fi: FrameInfo, k: nat)
    requires k < |s.slots| == |fi.roots|
  {
    !fi.roots[k] && S(k) in live && s.slots[k].kind == Tainted
  }

  lemma ReportedIff(s: AState, live: set<Loc>, fi: FrameInfo)
    requires |s.units| == GPRS && |s.slots| == |fi.roots|
    ensures Reported(s, live, fi) <==>
      || (exists n :: 0 <= n < GPRS && HopelessReg(s, live, fi, n))
      || exists k :: 0 <= k < |fi.roots| && HopelessSlot(s, live, fi, k)
  {
    forall n | 0 <= n < GPRS
      ensures ReportedReg(s, live, fi, n) <==> HopelessReg(s, live, fi, n)
    {
    }
    forall k | 0 <= k < |fi.roots|
      ensures ReportedSlot(s, live, fi, k) <==> HopelessSlot(s, live, fi, k)
    {
    }
  }

  /** No computation from the stale word and the distance is right for all words
      of unknown coefficient. */
  lemma NoRepair(fix: (int, int) -> int)
    ensures exists x: Sym, base: int, delta: int ::
      x.Lin? && (forall m: Ideal :: KindHolds(Tainted, x, m)) && fix(At(x, base), delta) != At(x, base + delta)
  {
    var x, y := Lin(0, 0, 0), Lin(1, 0, 0);
    assert At(x, 0) == At(y, 0) == 0 && At(x, 0 + 1) == 0 && At(y, 0 + 1) == 1;
    var z := if fix(0, 1) == 0 then y else x;
    assert fix(At(z, 0), 1) != At(z, 0 + 1);
  }

  // ----- when the emission gives up -----

  lemma {:induction false} RegListed(s: AState, live: set<Loc>, fi: FrameInfo, rs: seq<nat>, f: (nat, Kind))
    requires |s.units| == GPRS && forall k :: 0 <= k < |rs| ==> rs[k] < GPRS
    ensures f in RegFixes(s, live, fi, rs) <==>
      f.0 in rs && f.0 < GPRS && NeedsFix(s, live, fi, f.0) && f.1 == s.units[f.0].kind
  {
    hide NeedsFix;
    if rs != [] { RegListed(s, live, fi, rs[..|rs| - 1], f); }
  }

  lemma {:induction false} SlotListed(s: AState, live: set<Loc>, fi: FrameInfo, n: nat, f: (nat, Kind))
    requires n <= |s.slots| == |fi.roots|
    ensures f in SlotFixes(s, live, fi, n) <==>
      f.0 < n && SlotNeedsFix(s, live, fi, f.0) && f.1 == s.slots[f.0].kind
  {
    hide SlotNeedsFix;
    if n > 0 { SlotListed(s, live, fi, n - 1, f); }
  }

  /** A word of kind k is to be repaired. */
  ghost predicate Repairs(s: AState, live: set<Loc>, fi: FrameInfo, k: Kind)
    requires |s.units| == GPRS && |s.slots| == |fi.roots|
  {
    || (exists n :: 0 <= n < GPRS && n in CSRS && NeedsFix(s, live, fi, n) && s.units[n].kind == k)
    || exists n :: 0 <= n < |s.slots| && SlotNeedsFix(s, live, fi, n) && s.slots[n].kind == k
  }

  ghost predicate Lists(fs: seq<(nat, Kind)>, k: Kind) { exists j :: 0 <= j < |fs| && fs[j].1 == k }

  lemma ListsIff(s: AState, live: set<Loc>, fi: FrameInfo, k: Kind)
    requires |s.units| == GPRS && |s.slots| == |fi.roots|
    ensures Repairs(s, live, fi, k) <==>
      Lists(RegFixes(s, live, fi, CSRS), k) || Lists(SlotFixes(s, live, fi, |s.slots|), k)
  {
    hide NeedsFix, SlotNeedsFix, RegFixes, SlotFixes;
    var rs, ss := RegFixes(s, live, fi, CSRS), SlotFixes(s, live, fi, |s.slots|);
    if n :| 0 <= n < GPRS && n in CSRS && NeedsFix(s, live, fi, n) && s.units[n].kind == k {
      RegListed(s, live, fi, CSRS, (n, k));
      var j :| 0 <= j < |rs| && rs[j] == (n, k);
    }
    if n :| 0 <= n < |s.slots| && SlotNeedsFix(s, live, fi, n) && s.slots[n].kind == k {
      SlotListed(s, live, fi, |s.slots|, (n, k));
      var j :| 0 <= j < |ss| && ss[j] == (n, k);
    }
    if j :| 0 <= j < |rs| && rs[j].1 == k { RegListed(s, live, fi, CSRS, rs[j]); }
    if j :| 0 <= j < |ss| && ss[j].1 == k { SlotListed(s, live, fi, |s.slots|, ss[j]); }
  }

  /** A scratch register that may be used: clobbered by the call, no result of it, dead after it. */
  lemma {:induction false} FreeListed(i: Instr, live: set<Loc>, rs: seq<nat>, r: nat)
    requires i.Call?
    ensures r in FreeRegs(i, live, rs) <==> r in rs && r in i.clobbers && r !in i.results && R(r) !in live
    ensures Distinct(rs) ==> Distinct(FreeRegs(i, live, rs))
  {
    if rs != [] {
      var n := |rs| - 1;
      FreeListed(i, live, rs[..n], r);
      FreeListed(i, live, rs[..n], rs[n]);
      if Distinct(rs) { assert rs[n] !in rs[..n] && Distinct(rs[..n]); }
    }
  }

  /** The emission fails exactly if something is to be repaired, and fewer than
      five scratch registers are free, or a word that is not exact is to be
      repaired without a saved RBP, or an exact offset or the frame's end does not
      fit an immediate. */
  lemma PlanFailsIff(s: AState, i: Instr, live: set<Loc>, fi: FrameInfo)
    requires |s.units| == GPRS && |s.slots| == |fi.roots| && i.Call?
    ensures PlanFor(s, i, live, fi).Err? <==>
      && (exists k :: Repairs(s, live, fi, k))
      && (|| |FreeRegs(i, live, SCRATCH)| < 5
          || (!fi.hasOldFP && exists k :: Repairs(s, live, fi, k) && !k.Exact?)
          || (exists k :: Repairs(s, live, fi, k) && k.Exact? && !(INT32_MIN <= k.off <= INT32_MAX))
          || (Repairs(s, live, fi, Maybe) && !(INT32_MIN <= fi.top <= INT32_MAX)))
  {
    hide Repairs, RegFixes, SlotFixes, FreeRegs, Reloads, FixRegs, FixSlots, Lists;
    var rs, ss := RegFixes(s, live, fi, CSRS), SlotFixes(s, live, fi, |s.slots|);
    forall k
      ensures Repairs(s, live, fi, k) <==> Lists(rs, k) || Lists(ss, k)
    {
      ListsIff(s, live, fi, k);
    }
    ListFacts(rs);
    ListFacts(ss);
  }

  /** The tests the emission makes on a list, by the kinds it holds. */
  lemma ListFacts(fs: seq<(nat, Kind)>)
    ensures fs != [] <==> exists k :: Lists(fs, k)
    ensures AnyInexact(fs) <==> exists k :: Lists(fs, k) && !k.Exact?
    ensures AnyMaybe(fs) <==> Lists(fs, Maybe)
    ensures Encodable(fs) <==> forall k :: Lists(fs, k) && k.Exact? ==> INT32_MIN <= k.off <= INT32_MAX
  {
    assert forall j :: 0 <= j < |fs| ==> Lists(fs, fs[j].1);
    if fs != [] { assert Lists(fs, fs[0].1); }
  }
}
