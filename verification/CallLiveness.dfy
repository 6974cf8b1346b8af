/** Liveness of one value across safepoints: the worklist, the query, and what
    the query means in terms of paths through the function. */
module CallLiveness {
  import opened Options
  import opened Counting

  /** An instruction: its block and its place in it. */
  datatype Pos = Pos(block: nat, idx: nat)

  /** Block lengths and successors; block 0 is the entry. */
  datatype Cfg = Cfg(len: seq<nat>, succs: seq<seq<nat>>)

  ghost predicate CfgOk(g: Cfg) {
    && |g.len| == |g.succs| && (forall b :: 0 <= b < |g.len| ==> g.len[b] > 0)
    && (forall b, i :: 0 <= b < |g.succs| && 0 <= i < |g.succs[b]| ==> g.succs[b][i] < |g.len|)
  }

  predicate At(g: Cfg, p: Pos) { p.block < |g.len| && p.idx < g.len[p.block] }

  predicate Edge(g: Cfg, b: nat, t: nat) { b < |g.succs| && t in g.succs[b] }

  /** Control may go from p to n. */
  predicate Next(g: Cfg, p: Pos, n: Pos) {
    && At(g, p) && At(g, n)
    && ((n.block == p.block && n.idx == p.idx + 1)
      || (p.idx + 1 == g.len[p.block] && n.idx == 0 && Edge(g, p.block, n.block)))
  }

  ghost predicate IsPath(g: Cfg, path: seq<Pos>) {
    |path| > 0 && At(g, path[0]) && forall i :: 0 < i < |path| ==> Next(g, path[i - 1], path[i])
  }

  /** No instruction of the path, from index k on, is the definition. */
  ghost predicate Avoids(path: seq<Pos>, def: Option<Pos>, k: nat) {
    forall i :: k <= i < |path| ==> Some(path[i]) != def
  }

  /** The value: where it is defined (None: on entry) and used. In the
      definition's own block uses come after it, as SSA form demands. */
  ghost predicate ValueOk(g: Cfg, def: Option<Pos>, uses: seq<Pos>) {
    && CfgOk(g) && (def.Some? ==> At(g, def.value)) && (forall i :: 0 <= i < |uses| ==> At(g, uses[i]))
    && (def.Some? ==> forall i :: 0 <= i < |uses| && uses[i].block == def.value.block ==> def.value.idx < uses[i].idx)
  }

  /** Some use can be reached from just after p without executing Def. */
  ghost predicate UseAhead(g: Cfg, def: Option<Pos>, uses: seq<Pos>, p: Pos) {
    exists path :: UsePath(g, def, uses, path) && path[0] == p
  }

  ghost predicate UsePath(g: Cfg, def: Option<Pos>, uses: seq<Pos>, path: seq<Pos>) {
    |path| > 1 && IsPath(g, path) && Avoids(path, def, 1) && path[|path| - 1] in uses
  }

  // ----- the worklist -----

  predicate InDefBlock(def: Option<Pos>, b: nat) { def.Some? && def.value.block == b }

  /** What the worklist computes, as a set of blocks. */
  ghost predicate Closed(g: Cfg, def: Option<Pos>, uses: seq<Pos>, liveIn: set<nat>, liveOut: set<nat>) {
    && (forall i :: 0 <= i < |uses| && !InDefBlock(def, uses[i].block) ==> uses[i].block in liveIn)
    && (forall b: nat, t: nat :: Edge(g, b, t) && t in liveIn ==> b in liveOut)
    && (forall b :: b in liveOut && !InDefBlock(def, b) ==> b in liveIn)
  }

  /** From the start of b a use can be reached without executing Def. */
  ghost predicate EntersLive(g: Cfg, def: Option<Pos>, uses: seq<Pos>, b: nat) {
    exists path :: EntryPath(g, def, uses, b, path)
  }

  ghost predicate EntryPath(g: Cfg, def: Option<Pos>, uses: seq<Pos>, b: nat, path: seq<Pos>) {
    IsPath(g, path) && path[0] == Pos(b, 0) && Avoids(path, def, 0) && path[|path| - 1] in uses
  }

  ghost predicate LeavesLive(g: Cfg, def: Option<Pos>, uses: seq<Pos>, b: nat) {
    exists t :: Edge(g, b, t) && EntersLive(g, def, uses, t)
  }

  ghost predicate SoundSets(g: Cfg, def: Option<Pos>, uses: seq<Pos>, liveIn: set<nat>, liveOut: set<nat>) {
    && (forall b :: b in liveIn ==> b < |g.len| && EntersLive(g, def, uses, b))
    && (forall b :: b in liveOut ==> b < |g.len| && LeavesLive(g, def, uses, b))
  }

  function Straight(b: nat, i: nat, j: nat): seq<Pos>
    requires i <= j
  {
    seq(j - i + 1, k requires 0 <= k < j - i + 1 => Pos(b, i + k))
  }

  lemma StraightIsPath(g: Cfg, b: nat, i: nat, j: nat)
    requires CfgOk(g) && b < |g.len| && i <= j < g.len[b]
    ensures IsPath(g, Straight(b, i, j))
  {
  }

  lemma Joined(g: Cfg, a: seq<Pos>, b: seq<Pos>)
    requires IsPath(g, a) && IsPath(g, b) && Next(g, a[|a| - 1], b[0])
    ensures IsPath(g, a + b)
  {
    var c := a + b;
    forall i | 0 < i < |c|
      ensures Next(g, c[i - 1], c[i])
    {
      if i < |a| {
        assert c[i - 1] == a[i - 1] && c[i] == a[i];
      } else if i > |a| {
        assert c[i - 1] == b[i - |a| - 1] && c[i] == b[i - |a|];
      }
    }
  }

  /** A use in a block that does not define the value is reached from its start. */
  lemma UseEnters(g: Cfg, def: Option<Pos>, uses: seq<Pos>, i: nat)
    requires ValueOk(g, def, uses) && i < |uses| && !InDefBlock(def, uses[i].block)
    ensures EntersLive(g, def, uses, uses[i].block)
  {
    var b := uses[i].block;
    StraightIsPath(g, b, 0, uses[i].idx);
    assert EntryPath(g, def, uses, b, Straight(b, 0, uses[i].idx));
  }

  /** A block that passes the value on to a live successor is itself live. */
  lemma LeavesEnters(g: Cfg, def: Option<Pos>, uses: seq<Pos>, b: nat)
    requires ValueOk(g, def, uses) && b < |g.len| && LeavesLive(g, def, uses, b) && !InDefBlock(def, b)
    ensures EntersLive(g, def, uses, b)
  {
    var t :| Edge(g, b, t) && EntersLive(g, def, uses, t);
    var path :| EntryPath(g, def, uses, t, path);
    var head := Straight(b, 0, g.len[b] - 1);
    StraightIsPath(g, b, 0, g.len[b] - 1);
    Joined(g, head, path);
    assert (head + path)[|head + path| - 1] == path[|path| - 1];
    assert EntryPath(g, def, uses, b, head + path);
  }

  method SeedBlocks(g: Cfg, def: Option<Pos>, uses: seq<Pos>) returns (liveIn: set<nat>, work: seq<nat>)
    requires ValueOk(g, def, uses)
    ensures SoundSets(g, def, uses, liveIn, {})
      && (forall i :: 0 <= i < |uses| && !InDefBlock(def, uses[i].block) ==> uses[i].block in liveIn)
    ensures Pending(g, def, uses, liveIn, {}, work)
  {
    liveIn, work := {}, [];
    for i := 0 to |uses|
      invariant SoundSets(g, def, uses, liveIn, {}) && forall j :: 0 <= j < i && !InDefBlock(def, uses[j].block) ==>
        uses[j].block in liveIn
      invariant forall b :: b in liveIn <==> b in work
    {
      var b := uses[i].block;
      if def.Some? && b == def.value.block && def.value.idx < uses[i].idx { continue; }
      UseEnters(g, def, uses, i);
      if b !in liveIn {
        liveIn, work := liveIn + {b}, work + [b];
      }
    }
  }

  /** Everything is closed except for the blocks still on the list. */
  ghost predicate Pending(g: Cfg, def: Option<Pos>, uses: seq<Pos>, liveIn: set<nat>, liveOut: set<nat>,
      work: seq<nat>) {
    && (forall i :: 0 <= i < |uses| && !InDefBlock(def, uses[i].block) ==> uses[i].block in liveIn)
    && (forall b: nat, t: nat :: Edge(g, b, t) && t in liveIn && t !in work ==> b in liveOut)
    && (forall b :: b in liveOut && !InDefBlock(def, b) ==> b in liveIn)
    && (forall b :: b in work ==> b in liveIn)
  }

  /** As `Pending`, with b done up to predecessor p. */
  ghost predicate Propagated(g: Cfg, liveIn: set<nat>, liveOut: set<nat>, work: seq<nat>, b: nat, p: nat) {
    forall a: nat, t: nat :: Edge(g, a, t) && t in liveIn && t !in work && (t != b || a < p) ==> a in liveOut
  }

  ghost predicate Walking(g: Cfg, def: Option<Pos>, uses: seq<Pos>, liveIn: set<nat>, liveOut: set<nat>,
      work: seq<nat>, b: nat, p: nat) {
    && SoundSets(g, def, uses, liveIn, liveOut) && Propagated(g, liveIn, liveOut, work, b, p) && b in liveIn
    && (forall i :: 0 <= i < |uses| && !InDefBlock(def, uses[i].block) ==> uses[i].block in liveIn)
    && (forall a :: a in liveOut && !InDefBlock(def, a) ==> a in liveIn)
    && (forall a :: a in work ==> a in liveIn)
  }

  lemma WalkStarts(g: Cfg, def: Option<Pos>, uses: seq<Pos>, liveIn: set<nat>, liveOut: set<nat>, work: seq<nat>,
      b: nat)
    requires SoundSets(g, def, uses, liveIn, liveOut) && Pending(g, def, uses, liveIn, liveOut, work + [b])
    ensures Walking(g, def, uses, liveIn, liveOut, work, b, 0)
  {
    assert (work + [b])[|work|] == b;
    forall a | a in work
      ensures a in liveIn
    {
      assert a in work + [b];
    }
    forall a: nat, t: nat | Edge(g, a, t) && t in liveIn && t !in work && t != b
      ensures a in liveOut
    {
      assert t !in work + [b];
    }
  }

  /** p is no predecessor of b. */
  lemma WalkPast(g: Cfg, def: Option<Pos>, uses: seq<Pos>, liveIn: set<nat>, liveOut: set<nat>, work: seq<nat>, b: nat,
      p: nat)
    requires Walking(g, def, uses, liveIn, liveOut, work, b, p) && !Edge(g, p, b)
    ensures Walking(g, def, uses, liveIn, liveOut, work, b, p + 1)
  {
  }

  lemma PredecessorLive(g: Cfg, def: Option<Pos>, uses: seq<Pos>, liveIn: set<nat>, liveOut: set<nat>, work: seq<nat>,
      b: nat, p: nat)
    requires ValueOk(g, def, uses) && Walking(g, def, uses, liveIn, liveOut, work, b, p) && Edge(g, p, b)
    ensures p < |g.len| && LeavesLive(g, def, uses, p) && (!InDefBlock(def, p) ==> EntersLive(g, def, uses, p))
  {
    assert EntersLive(g, def, uses, b);
    if !InDefBlock(def, p) { LeavesEnters(g, def, uses, p); }
  }

  /** p is one: the value is live out of it; it defines it or is known live in. */
  lemma WalkKnown(g: Cfg, def: Option<Pos>, uses: seq<Pos>, liveIn: set<nat>, liveOut: set<nat>, work: seq<nat>,
      b: nat, p: nat)
    requires Walking(g, def, uses, liveIn, liveOut, work, b, p) && p < |g.len| && LeavesLive(g, def, uses, p)
      && (InDefBlock(def, p) || p in liveIn)
    ensures Walking(g, def, uses, liveIn, liveOut + {p}, work, b, p + 1)
  {
    hide LeavesLive, EntersLive;
  }

  /** p is one, and is found to be live in. */
  lemma WalkFound(g: Cfg, def: Option<Pos>, uses: seq<Pos>, liveIn: set<nat>, liveOut: set<nat>, work: seq<nat>,
      b: nat, p: nat)
    requires Walking(g, def, uses, liveIn, liveOut, work, b, p) && p < |g.len| && LeavesLive(g, def, uses, p)
      && EntersLive(g, def, uses, p)
    ensures Walking(g, def, uses, liveIn + {p}, liveOut + {p}, work + [p], b, p + 1)
  {
    hide LeavesLive, EntersLive;
    var more := work + [p];
    assert forall a :: a in more <==> a in work || a == p;
    assert Propagated(g, liveIn + {p}, liveOut + {p}, more, b, p + 1);
  }

  lemma WalkEnds(g: Cfg, def: Option<Pos>, uses: seq<Pos>, liveIn: set<nat>, liveOut: set<nat>, work: seq<nat>, b: nat)
    requires CfgOk(g) && Walking(g, def, uses, liveIn, liveOut, work, b, |g.len|)
    ensures SoundSets(g, def, uses, liveIn, liveOut) && Pending(g, def, uses, liveIn, liveOut, work)
  {
  }

  method Predecessors(g: Cfg, def: Option<Pos>, uses: seq<Pos>, b: nat, liveIn0: set<nat>, liveOut0: set<nat>,
      work0: seq<nat>)
    returns (liveIn: set<nat>, liveOut: set<nat>, work: seq<nat>)
    requires ValueOk(g, def, uses) && SoundSets(g, def, uses, liveIn0, liveOut0)
      && Pending(g, def, uses, liveIn0, liveOut0, work0 + [b])
    ensures SoundSets(g, def, uses, liveIn, liveOut) && Pending(g, def, uses, liveIn, liveOut, work)
    ensures liveIn0 <= liveIn && (liveIn == liveIn0 ==> work == work0)
  {
    hide SoundSets, Pending, Walking, LeavesLive, EntersLive;
    liveIn, liveOut, work := liveIn0, liveOut0, work0;
    WalkStarts(g, def, uses, liveIn, liveOut, work, b);
    for p := 0 to |g.len|
      invariant Walking(g, def, uses, liveIn, liveOut, work, b, p) && liveIn0 <= liveIn
        && (liveIn == liveIn0 ==> work == work0)
    {
      if b !in g.succs[p] {
        WalkPast(g, def, uses, liveIn, liveOut, work, b, p);
      } else {
        PredecessorLive(g, def, uses, liveIn, liveOut, work, b, p);
        if InDefBlock(def, p) || p in liveIn {
          WalkKnown(g, def, uses, liveIn, liveOut, work, b, p);
        } else {
          WalkFound(g, def, uses, liveIn, liveOut, work, b, p);
        }
        liveOut := liveOut + {p};
        if !InDefBlock(def, p) && p !in liveIn { liveIn, work := liveIn + {p}, work + [p]; }
      }
    }
    WalkEnds(g, def, uses, liveIn, liveOut, work, b);
  }

  lemma NothingPending(g: Cfg, def: Option<Pos>, uses: seq<Pos>, liveIn: set<nat>, liveOut: set<nat>, work: seq<nat>)
    requires Pending(g, def, uses, liveIn, liveOut, work) && work == []
    ensures Closed(g, def, uses, liveIn, liveOut)
  {
  }

  lemma SoundIsBounded(g: Cfg, def: Option<Pos>, uses: seq<Pos>, liveIn: set<nat>, liveOut: set<nat>)
    requires SoundSets(g, def, uses, liveIn, liveOut)
    ensures |liveIn| <= |g.len|
  {
    BoundedCount(liveIn, |g.len|);
  }

  /** The constructor: afterwards liveOut holds exactly the blocks out of which
      the value is live. */
  method LiveBlocks(g: Cfg, def: Option<Pos>, uses: seq<Pos>) returns (liveOut: set<nat>, ghost liveIn: set<nat>)
    requires ValueOk(g, def, uses)
    ensures Closed(g, def, uses, liveIn, liveOut) && SoundSets(g, def, uses, liveIn, liveOut)
  {
    hide ValueOk, SoundSets, Pending, Closed;
    var ins, work := SeedBlocks(g, def, uses);
    liveOut := {};
    while |work| > 0
      invariant SoundSets(g, def, uses, ins, liveOut) && Pending(g, def, uses, ins, liveOut, work)
      decreases |g.len| - |ins|, |work|
    {
      var b, rest := work[|work| - 1], work[..|work| - 1];
      assert work == rest + [b];
      ghost var before := ins;
      ins, liveOut, work := Predecessors(g, def, uses, b, ins, liveOut, rest);
      SoundIsBounded(g, def, uses, ins, liveOut);
      if ins != before { GrowsCount(before, ins); }
    }
    liveIn := ins;
    NothingPending(g, def, uses, ins, liveOut, work);
  }

  // ----- the query -----

  /** Block and place order within one block. */
  predicate ComesBefore(p: Pos, q: Pos) { p.block == q.block && p.idx < q.idx }

  predicate UsedLater(uses: seq<Pos>, p: Pos) { exists i :: 0 <= i < |uses| && ComesBefore(p, uses[i]) }

  predicate LiveAcross(def: Option<Pos>, uses: seq<Pos>, liveOut: set<nat>, p: Pos) {
    !(def.Some? && ComesBefore(p, def.value)) && (UsedLater(uses, p) || p.block in liveOut)
  }

  /** If the query says yes, there is a path to a use that avoids Def. */
  lemma LiveMeansUse(g: Cfg, def: Option<Pos>, uses: seq<Pos>, liveIn: set<nat>, liveOut: set<nat>, p: Pos)
    requires ValueOk(g, def, uses) && SoundSets(g, def, uses, liveIn, liveOut) && At(g, p)
      && LiveAcross(def, uses, liveOut, p)
    ensures UseAhead(g, def, uses, p)
  {
    if UsedLater(uses, p) {
      var i :| 0 <= i < |uses| && ComesBefore(p, uses[i]);
      StraightIsPath(g, p.block, p.idx, uses[i].idx);
      assert UsePath(g, def, uses, Straight(p.block, p.idx, uses[i].idx));
    } else {
      var t :| Edge(g, p.block, t) && EntersLive(g, def, uses, t);
      var path :| EntryPath(g, def, uses, t, path);
      var head := Straight(p.block, p.idx, g.len[p.block] - 1);
      StraightIsPath(g, p.block, p.idx, g.len[p.block] - 1);
      Joined(g, head, path);
      assert (head + path)[|head + path| - 1] == path[|path| - 1];
      assert UsePath(g, def, uses, head + path);
    }
  }

  lemma TailOfPath(g: Cfg, def: Option<Pos>, uses: seq<Pos>, path: seq<Pos>)
    requires UsePath(g, def, uses, path) && |path| > 2
    ensures UsePath(g, def, uses, path[1..])
  {
    var tail := path[1..];
    assert Next(g, path[0], path[1]);
    forall i | 0 < i < |tail|
      ensures Next(g, tail[i - 1], tail[i])
    {
      assert Next(g, path[i], path[i + 1]);
    }
  }

  /** The value enters block s: some use lies ahead of its start. */
  lemma EntersSet(g: Cfg, def: Option<Pos>, uses: seq<Pos>, liveIn: set<nat>, liveOut: set<nat>, s: nat)
    requires ValueOk(g, def, uses) && Closed(g, def, uses, liveIn, liveOut) && At(g, Pos(s, 0))
      && Some(Pos(s, 0)) != def
    requires Pos(s, 0) in uses || LiveAcross(def, uses, liveOut, Pos(s, 0))
    ensures s in liveIn
  {
    if Pos(s, 0) in uses {
      var i :| 0 <= i < |uses| && uses[i] == Pos(s, 0);
    } else if UsedLater(uses, Pos(s, 0)) {
      var i :| 0 <= i < |uses| && ComesBefore(Pos(s, 0), uses[i]);
    }
  }

  /** If a use lies ahead, the query says yes. */
  lemma {:induction false} UseMeansLive(g: Cfg, def: Option<Pos>, uses: seq<Pos>, liveIn: set<nat>, liveOut: set<nat>,
      path: seq<Pos>)
    requires ValueOk(g, def, uses) && Closed(g, def, uses, liveIn, liveOut) && UsePath(g, def, uses, path)
    ensures LiveAcross(def, uses, liveOut, path[0])
    decreases |path|
  {
    var p, n := path[0], path[1];
    assert Next(g, p, n) && Some(n) != def;
    if |path| > 2 {
      TailOfPath(g, def, uses, path);
      UseMeansLive(g, def, uses, liveIn, liveOut, path[1..]);
    }
    assert n in uses || LiveAcross(def, uses, liveOut, n);
    if n.block == p.block && n.idx == p.idx + 1 {
      SameBlock(g, def, uses, liveOut, p, n);
    } else {
      EntersSet(g, def, uses, liveIn, liveOut, n.block);
    }
  }

  lemma SameBlock(g: Cfg, def: Option<Pos>, uses: seq<Pos>, liveOut: set<nat>, p: Pos, n: Pos)
    requires ValueOk(g, def, uses) && n.block == p.block && n.idx == p.idx + 1 && Some(n) != def
    requires n in uses || LiveAcross(def, uses, liveOut, n)
    ensures LiveAcross(def, uses, liveOut, p)
  {
    if n in uses {
      var i :| 0 <= i < |uses| && uses[i] == n;
      assert ComesBefore(p, uses[i]);
    } else if UsedLater(uses, n) {
      var i :| 0 <= i < |uses| && ComesBefore(n, uses[i]);
      assert ComesBefore(p, uses[i]);
    }
  }

  /** The query is exact. */
  lemma LiveAcrossIsExact(g: Cfg, def: Option<Pos>, uses: seq<Pos>, liveIn: set<nat>, liveOut: set<nat>, p: Pos)
    requires ValueOk(g, def, uses) && Closed(g, def, uses, liveIn, liveOut) && SoundSets(g, def, uses, liveIn, liveOut)
      && At(g, p)
    ensures LiveAcross(def, uses, liveOut, p) <==> UseAhead(g, def, uses, p)
  {
    if LiveAcross(def, uses, liveOut, p) { LiveMeansUse(g, def, uses, liveIn, liveOut, p); }
    if UseAhead(g, def, uses, p) {
      var path :| UsePath(g, def, uses, path) && path[0] == p;
      UseMeansLive(g, def, uses, liveIn, liveOut, path);
    }
  }

  /** A path from the function's entry. */
  ghost predicate FromEntry(g: Cfg, path: seq<Pos>) { IsPath(g, path) && path[0] == Pos(0, 0) }

  /** SSA: no use is reached from the entry without executing Def. */
  ghost predicate Dominates(g: Cfg, def: Pos, uses: seq<Pos>) {
    forall path :: FromEntry(g, path) && path[|path| - 1] in uses ==> !Avoids(path, Some(def), 0)
  }

  /** So where a value is live across a call, it has been defined. */
  lemma LiveMeansDefined(g: Cfg, def: Pos, uses: seq<Pos>, liveIn: set<nat>, liveOut: set<nat>, route: seq<Pos>)
    requires ValueOk(g, Some(def), uses) && SoundSets(g, Some(def), uses, liveIn, liveOut) && Dominates(g, def, uses)
    requires FromEntry(g, route) && LiveAcross(Some(def), uses, liveOut, route[|route| - 1])
    ensures def in route
  {
    var p := route[|route| - 1];
    assert |route| > 1 ==> Next(g, route[|route| - 2], p);
    LiveMeansUse(g, Some(def), uses, liveIn, liveOut, p);
    var path :| UsePath(g, Some(def), uses, path) && path[0] == p;
    var whole := route + path[1..];
    Continued(g, route, path);
    assert FromEntry(g, whole) && whole[|whole| - 1] == path[|path| - 1];
    var i :| 0 <= i < |whole| && Some(whole[i]) == Some(def);
    assert whole[i] == route[i];
  }

  lemma Continued(g: Cfg, a: seq<Pos>, b: seq<Pos>)
    requires IsPath(g, a) && IsPath(g, b) && a[|a| - 1] == b[0] && |b| > 1
    ensures IsPath(g, a + b[1..])
  {
    assert Next(g, b[0], b[1]);
    forall i | 0 < i < |b[1..]|
      ensures Next(g, b[1..][i - 1], b[1..][i])
    {
      assert Next(g, b[i], b[i + 1]);
    }
    Joined(g, a, b[1..]);
  }

  // ----- reloads -----

  /** The register that holds the value and the stack slot that mirrors it. */
  datatype Copies = Copies(reg: int, slot: int)

  /** Executing instruction p as the k-th of a run: Def saves a fresh value, a
      safepoint leaves whatever the runtime put in the slot, and a reload
      follows the safepoints that the value is live across. */
  function Execute(def: Option<Pos>, uses: seq<Pos>, liveOut: set<nat>, safepoints: set<Pos>, defined: nat -> int,
      moved: nat -> int, p: Pos, k: nat, c: Copies): Copies {
    if Some(p) == def then Copies(defined(k), defined(k))
    else if p in safepoints then Copies(if LiveAcross(def, uses, liveOut, p) then moved(k) else c.reg, moved(k))
    else c
  }

  /** The copies before instruction k of the run. */
  function CopiesAt(def: Option<Pos>, uses: seq<Pos>, liveOut: set<nat>, safepoints: set<Pos>, defined: nat -> int,
      moved: nat -> int, run: seq<Pos>, k: nat, c: Copies): Copies
    requires k <= |run|
  {
    if k == 0 then c
    else Execute(def, uses, liveOut, safepoints, defined, moved, run[k - 1], k - 1,
      CopiesAt(def, uses, liveOut, safepoints, defined, moved, run, k - 1, c))
  }

  /** Until Def is executed again, a value whose use lies ahead on the run is
      the same in the register and in the slot. */
  lemma {:induction false} AgreeUntilUse(g: Cfg, def: Option<Pos>, uses: seq<Pos>, liveIn: set<nat>, liveOut: set<nat>,
      safepoints: set<Pos>,
                                         defined: nat -> int, moved: nat -> int, run: seq<Pos>, c: Copies, k: nat,
                                           m: nat)
    requires ValueOk(g, def, uses) && Closed(g, def, uses, liveIn, liveOut) && IsPath(g, run) && k <= m < |run|
      && run[m] in uses
    requires (k > 0 && Some(run[0]) == def) || c.reg == c.slot
    requires forall j :: k <= j < m ==> Some(run[j]) != def
    ensures var s := CopiesAt(def, uses, liveOut, safepoints, defined, moved, run, k, c); s.reg == s.slot
  {
    if k > 0 && Some(run[k - 1]) != def {
      AgreeUntilUse(g, def, uses, liveIn, liveOut, safepoints, defined, moved, run, c, k - 1, m);
      UseOnRun(g, def, uses, liveIn, liveOut, run, k - 1, m);
      hide LiveAcross, ValueOk, Closed, IsPath;
    }
  }

  /** Any instruction of a run before a use, with no Def in between, has the
      value live across it. */
  lemma UseOnRun(g: Cfg, def: Option<Pos>, uses: seq<Pos>, liveIn: set<nat>, liveOut: set<nat>, run: seq<Pos>, k: nat,
      m: nat)
    requires ValueOk(g, def, uses) && Closed(g, def, uses, liveIn, liveOut) && IsPath(g, run) && k < m < |run|
      && run[m] in uses
    requires forall j :: k < j < m ==> Some(run[j]) != def
    ensures LiveAcross(def, uses, liveOut, run[k])
  {
    UseNotDef(g, def, uses, run[m]);
    SubPath(g, run, k, m + 1);
    var path := run[k..m + 1];
    assert path[|path| - 1] == run[m];
    hide IsPath, ValueOk, Closed, LiveAcross;
    assert UsePath(g, def, uses, path);
    UseMeansLive(g, def, uses, liveIn, liveOut, path);
  }

  lemma UseNotDef(g: Cfg, def: Option<Pos>, uses: seq<Pos>, u: Pos)
    requires ValueOk(g, def, uses) && u in uses
    ensures Some(u) != def
  {
    var i :| 0 <= i < |uses| && uses[i] == u;
  }

  lemma SubPath(g: Cfg, run: seq<Pos>, i: nat, j: nat)
    requires IsPath(g, run) && i < j <= |run|
    ensures IsPath(g, run[i..j])
  {
    var s := run[i..j];
    assert i > 0 ==> Next(g, run[i - 1], run[i]);
    forall k | 0 < k < |s|
      ensures Next(g, s[k - 1], s[k])
    {
      assert Next(g, run[i + k - 1], run[i + k]);
    }
  }

  /** On every run from the definition (or from the entry, with the slot
      initialised), whatever each safepoint does to the slot, every use reads
      what the slot holds at that moment. */
  lemma UsesReadTheSlot(g: Cfg, def: Option<Pos>, uses: seq<Pos>, liveIn: set<nat>, liveOut: set<nat>,
      safepoints: set<Pos>,
                        defined: nat -> int, moved: nat -> int, run: seq<Pos>, c: Copies, m: nat)
    requires ValueOk(g, def, uses) && Closed(g, def, uses, liveIn, liveOut) && IsPath(g, run) && m < |run|
      && run[m] in uses
    requires Some(run[0]) == def || c.reg == c.slot
    ensures var s := CopiesAt(def, uses, liveOut, safepoints, defined, moved, run, m, c); s.reg == s.slot
  {
    UseNotDef(g, def, uses, run[m]);
    AgreeUntilUse(g, def, uses, liveIn, liveOut, safepoints, defined, moved, run, c, m, m);
  }
}
