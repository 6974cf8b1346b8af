/** Sequencing register moves that are meant to happen all at once, with one
    scratch register to break cycles. */
module ParallelMove {
  import opened ByteType
  import opened Counting

  type Word = s: seq<Byte> | |s| == 8 witness [0, 0, 0, 0, 0, 0, 0, 0]

  type RegFile = nat -> Word

  /** What a narrow write leaves above the bytes it writes: any rule will do. */
  type Upper = (Word, Word, nat) -> Word

  datatype Move = Move(src: nat, dst: nat, size: nat)

  function Low(w: Word, k: nat): seq<Byte> { w[..if k <= 8 then k else 8] }

  /** v written over `was` with width k. */
  function Merge(up: Upper, was: Word, v: Word, k: nat): (r: Word)
    ensures Low(r, k) == Low(v, k)
  {
    Low(v, k) + up(was, v, k)[|Low(v, k)|..]
  }

  /** A move is right for every width up to its own. */
  lemma Narrower(a: Word, b: Word, k: nat, j: nat)
    requires Low(a, k) == Low(b, k) && j <= k
    ensures Low(a, j) == Low(b, j)
  {
    assert Low(a, j) == Low(a, k)[..|Low(a, j)|] && Low(b, j) == Low(b, k)[..|Low(b, j)|];
  }

  function Do(up: Upper, m: Move, f: RegFile): RegFile {
    r => if r == m.dst then Merge(up, f(m.dst), f(m.src), m.size) else f(r)
  }

  function Exec(up: Upper, ms: seq<Move>, f: RegFile): RegFile {
    if ms == [] then f else Do(up, ms[|ms| - 1], Exec(up, ms[..|ms| - 1], f))
  }

  // ----- counting -----

  function Sources(ms: seq<Move>): set<nat> { set i | 0 <= i < |ms| :: ms[i].src }

  function Targets(ms: seq<Move>): set<nat> { set i | 0 <= i < |ms| :: ms[i].dst }

  ghost predicate DistinctTargets(ms: seq<Move>) { forall i, j :: 0 <= i < j < |ms| ==> ms[i].dst != ms[j].dst }

  lemma {:induction false} TargetCount(ms: seq<Move>)
    requires DistinctTargets(ms)
    ensures |Targets(ms)| == |ms|
  {
    if ms != [] {
      var rest, m := ms[..|ms| - 1], ms[|ms| - 1];
      TargetCount(rest);
      assert m.dst !in Targets(rest);
      assert Targets(ms) == Targets(rest) + {m.dst};
    }
  }

  lemma {:induction false} SourceCount(ms: seq<Move>)
    ensures |Sources(ms)| <= |ms|
    ensures |Sources(ms)| == |ms| ==> forall i, j :: 0 <= i < j < |ms| ==> ms[i].src != ms[j].src
  {
    if ms != [] {
      var rest, m := ms[..|ms| - 1], ms[|ms| - 1];
      SourceCount(rest);
      assert Sources(ms) == Sources(rest) + {m.src};
      assert m.src in Sources(rest) ==> Sources(ms) == Sources(rest);
    }
  }

  /** When every target is still somebody's source, the pending moves form
      cycles: sources are the targets, each read exactly once. */
  lemma Blocked(ms: seq<Move>)
    requires DistinctTargets(ms) && Targets(ms) <= Sources(ms)
    ensures Sources(ms) == Targets(ms)
    ensures forall i, j :: 0 <= i < j < |ms| ==> ms[i].src != ms[j].src
  {
    TargetCount(ms);
    SourceCount(ms);
    if Targets(ms) != Sources(ms) { GrowsCount(Targets(ms), Sources(ms)); }
  }

  // ----- the invariant -----

  /** pending[i] is what is left of todo[ids[i]]: its source may have been
      saved in the scratch register. */
  ghost predicate Tracks(todo: seq<Move>, pending: seq<Move>, ids: seq<nat>, scratch: nat) {
    && |ids| == |pending| && DistinctTargets(todo) && DistinctTargets(pending)
    && (forall k :: 0 <= k < |todo| ==> todo[k].src != scratch && todo[k].dst != scratch)
    && (forall i :: 0 <= i < |ids| ==> ids[i] < |todo| && Remains(todo[ids[i]], pending[i], scratch))
  }

  ghost predicate Remains(m: Move, p: Move, scratch: nat) {
    p.dst == m.dst && p.size == m.size && (p.src == m.src || p.src == scratch)
  }

  /** With g the registers after the moves made so far, from f. */
  ghost predicate Holds(todo: seq<Move>, pending: seq<Move>, ids: seq<nat>, scratch: nat, f: RegFile, g: RegFile)
    requires Tracks(todo, pending, ids, scratch)
  {
    && (forall i :: 0 <= i < |pending| ==>
      Low(g(pending[i].src), pending[i].size) == Low(f(todo[ids[i]].src), pending[i].size))
    && (forall k :: 0 <= k < |todo| && k !in ids ==>
      Low(g(todo[k].dst), todo[k].size) == Low(f(todo[k].src), todo[k].size))
    && (forall r: nat :: r != scratch && (r !in Targets(todo) || r in Targets(pending)) ==> g(r) == f(r))
  }

  ghost predicate Inv(todo: seq<Move>, pending: seq<Move>, ids: seq<nat>, scratch: nat, out: seq<Move>) {
    && Tracks(todo, pending, ids, scratch)
    && forall up: Upper, f: RegFile {:trigger Exec(up, out, f)} :: Holds(todo, pending, ids, scratch, f,
      Exec(up, out, f))
  }

  function Drop<T>(s: seq<T>, i: nat): seq<T>
    requires i < |s|
  {
    s[..i] + s[i + 1..]
  }

  lemma ReadyTracks(todo: seq<Move>, pending: seq<Move>, ids: seq<nat>, scratch: nat, j: nat)
    requires Tracks(todo, pending, ids, scratch) && j < |pending|
    ensures Tracks(todo, Drop(pending, j), Drop(ids, j), scratch)
    ensures forall k :: 0 <= k < |todo| && k !in Drop(ids, j) ==> k !in ids || k == ids[j]
    ensures forall k :: k in Drop(ids, j) ==> k != ids[j]
    ensures Targets(Drop(pending, j)) == Targets(pending) - {pending[j].dst}
  {
    var p, d := Drop(pending, j), Drop(ids, j);
    forall i | 0 <= i < |p|
      ensures p[i] == pending[if i < j then i else i + 1] && d[i] == ids[if i < j then i else i + 1]
    {
    }
    forall k | k in ids && k != ids[j]
      ensures k in d
    {
      var o :| 0 <= o < |ids| && ids[o] == k;
      assert d[if o < j then o else o - 1] == k;
    }
    forall t | t in Targets(pending) && t != pending[j].dst
      ensures t in Targets(p)
    {
      var o :| 0 <= o < |pending| && pending[o].dst == t;
      assert p[if o < j then o else o - 1].dst == t;
    }
  }

  /** A move whose target nobody still reads. */
  lemma ReadyHolds(todo: seq<Move>, pending: seq<Move>, ids: seq<nat>, scratch: nat, j: nat, up: Upper, f: RegFile,
      g: RegFile)
    requires Tracks(todo, pending, ids, scratch) && j < |pending| && pending[j].dst !in Sources(pending)
    requires Tracks(todo, Drop(pending, j), Drop(ids, j), scratch) && Holds(todo, pending, ids, scratch, f, g)
    ensures Holds(todo, Drop(pending, j), Drop(ids, j), scratch, f, Do(up, pending[j], g))
  {
    ReadyTracks(todo, pending, ids, scratch, j);
    var p, d, m, h := Drop(pending, j), Drop(ids, j), pending[j], Do(up, pending[j], g);
    forall i | 0 <= i < |p|
      ensures Low(h(p[i].src), p[i].size) == Low(f(todo[d[i]].src), p[i].size)
    {
      var o := if i < j then i else i + 1;
      assert p[i] == pending[o] && d[i] == ids[o] && pending[o].src in Sources(pending);
    }
    forall k | 0 <= k < |todo| && k !in d
      ensures Low(h(todo[k].dst), todo[k].size) == Low(f(todo[k].src), todo[k].size)
    {
      if k != ids[j] {
        assert todo[k].dst != todo[ids[j]].dst;
      }
    }
    forall r: nat | r != scratch && (r !in Targets(todo) || r in Targets(p))
      ensures h(r) == f(r)
    {
      assert todo[ids[j]].dst in Targets(todo);
    }
  }

  /** The scratch takes over the source of the first move. */
  function Rerouted(pending: seq<Move>, src: nat, scratch: nat): seq<Move> {
    seq(|pending|, i requires 0 <= i < |pending| => if pending[i].src == src then pending[i].(src := scratch)
      else pending[i])
  }

  /** The source of move 0 is nobody else's, and the scratch is nobody's. */
  lemma ReroutedTracks(todo: seq<Move>, pending: seq<Move>, ids: seq<nat>, scratch: nat)
    requires Tracks(todo, pending, ids, scratch) && pending != [] && Targets(pending) <= Sources(pending)
    ensures var p := Rerouted(pending, pending[0].src, scratch);
      && Tracks(todo, p, ids, scratch) && Targets(p) == Targets(pending) && p[0] == pending[0].(src := scratch)
      && forall i :: 0 < i < |p| ==> p[i] == pending[i] && pending[i].src != scratch
  {
    Blocked(pending);
    var p := Rerouted(pending, pending[0].src, scratch);
    forall i | 0 < i < |p|
      ensures p[i] == pending[i] && pending[i].src != scratch
    {
      assert pending[i].src in Sources(pending) && pending[0].src != pending[i].src;
    }
    assert forall i :: 0 <= i < |p| ==> p[i].dst == pending[i].dst;
  }

  lemma BlockedHolds(todo: seq<Move>, pending: seq<Move>, ids: seq<nat>, scratch: nat, up: Upper, f: RegFile,
      g: RegFile)
    requires Tracks(todo, pending, ids, scratch) && pending != [] && Targets(pending) <= Sources(pending)
    requires Holds(todo, pending, ids, scratch, f, g)
    ensures var p := Rerouted(pending, pending[0].src, scratch);
      Tracks(todo, p, ids, scratch)
        && Holds(todo, p, ids, scratch, f, Do(up, Move(pending[0].src, scratch, pending[0].size), g))
  {
    ReroutedTracks(todo, pending, ids, scratch);
    hide Rerouted, Targets, Sources, Low;
    var src := pending[0].src;
    var p, h := Rerouted(pending, src, scratch), Do(up, Move(src, scratch, pending[0].size), g);
    forall i | 0 <= i < |p|
      ensures Low(h(p[i].src), p[i].size) == Low(f(todo[ids[i]].src), p[i].size)
    {
    }
  }

  // ----- the sequencer -----

  /** All moves done at once: every target gets its source's old value (as many
      bytes as the move is wide) and nothing else changes but the scratch. */
  ghost predicate Simultaneous(moves: seq<Move>, out: seq<Move>, scratch: nat) {
    forall up: Upper, f: RegFile {:trigger Exec(up, out, f)} :: AllAtOnce(moves, scratch, f, Exec(up, out, f))
  }

  ghost predicate AllAtOnce(moves: seq<Move>, scratch: nat, f: RegFile, g: RegFile) {
    && (forall k :: 0 <= k < |moves| ==> Low(g(moves[k].dst), moves[k].size) == Low(f(moves[k].src), moves[k].size))
    && (forall r: nat :: r != scratch && r !in Targets(moves) ==> g(r) == f(r))
  }

  /** Moves that go nowhere are dropped. */
  method Nontrivial(moves: seq<Move>) returns (pending: seq<Move>, ghost kept: seq<nat>)
    ensures |kept| == |pending| && forall i :: 0 <= i < |kept| ==>
      kept[i] < |moves| && pending[i] == moves[kept[i]] && pending[i].src != pending[i].dst
    ensures forall i, j :: 0 <= i < j < |kept| ==> kept[i] < kept[j]
    ensures forall k :: 0 <= k < |moves| && moves[k].src != moves[k].dst ==> k in kept
  {
    pending, kept := [], [];
    for n := 0 to |moves|
      invariant |kept| == |pending| && forall i :: 0 <= i < |kept| ==>
        kept[i] < n && pending[i] == moves[kept[i]] && pending[i].src != pending[i].dst
      invariant forall i, j :: 0 <= i < j < |kept| ==> kept[i] < kept[j]
      invariant forall k :: 0 <= k < n && moves[k].src != moves[k].dst ==> k in kept
    {
      if moves[n].src != moves[n].dst {
        pending, kept := pending + [moves[n]], kept + [n];
      }
    }
  }

  /** The first pending move whose target is not a source, if any. */
  method FindReady(pending: seq<Move>) returns (ready: int)
    ensures -1 <= ready < |pending|
    ensures ready >= 0 ==> pending[ready].dst !in Sources(pending)
    ensures ready < 0 ==> Targets(pending) <= Sources(pending)
  {
    var sources := Sources(pending);
    for i := 0 to |pending|
      invariant forall j :: 0 <= j < i ==> pending[j].dst in sources
    {
      if pending[i].dst !in sources { return i; }
    }
    return -1;
  }

  function Unsaved(pending: seq<Move>, scratch: nat): nat {
    if pending == [] then 0 else (if pending[0].src == scratch then 0 else 1) + Unsaved(pending[1..], scratch)
  }

  lemma {:induction false} ReroutedSaves(pending: seq<Move>, src: nat, scratch: nat)
    requires src != scratch
    ensures Unsaved(Rerouted(pending, src, scratch), scratch) <= Unsaved(pending, scratch)
    ensures pending != [] && pending[0].src == src ==>
      Unsaved(Rerouted(pending, src, scratch), scratch) < Unsaved(pending, scratch)
  {
    if pending != [] {
      ReroutedSaves(pending[1..], src, scratch);
      assert Rerouted(pending, src, scratch)[1..] == Rerouted(pending[1..], src, scratch);
    }
  }

  method Sequence(moves: seq<Move>, scratch: nat) returns (out: seq<Move>)
    requires DistinctTargets(moves)
    requires forall k :: 0 <= k < |moves| ==> moves[k].src != scratch && moves[k].dst != scratch
    ensures Simultaneous(moves, out, scratch)
  {
    var pending, kept := Nontrivial(moves);
    ghost var todo := pending;
    ghost var ids: seq<nat> := seq(|pending|, (i: nat) => i);
    out := [];
    assert forall k :: 0 <= k < |todo| ==> ids[k] == k;
    while |pending| > 0
      invariant Inv(todo, pending, ids, scratch, out)
      decreases |pending|, Unsaved(pending, scratch)
    {
      var ready := FindReady(pending);
      if ready >= 0 {
        ReadyInv(todo, pending, ids, scratch, out, ready);
        out := out + [pending[ready]];
        pending, ids := Drop(pending, ready), Drop(ids, ready);
      } else {
        var src := pending[0].src;
        BlockedInv(todo, pending, ids, scratch, out);
        out := out + [Move(src, scratch, pending[0].size)];
        pending := Rerouted(pending, src, scratch);
      }
    }
    DoneInv(moves, kept, todo, ids, scratch, out);
  }

  lemma ExecAppend(up: Upper, out: seq<Move>, m: Move, f: RegFile)
    ensures Exec(up, out + [m], f) == Do(up, m, Exec(up, out, f))
  {
    assert (out + [m])[..|out|] == out;
  }

  lemma ReadyInv(todo: seq<Move>, pending: seq<Move>, ids: seq<nat>, scratch: nat, out: seq<Move>, j: nat)
    requires Inv(todo, pending, ids, scratch, out) && j < |pending| && pending[j].dst !in Sources(pending)
    ensures Inv(todo, Drop(pending, j), Drop(ids, j), scratch, out + [pending[j]])
  {
    ReadyTracks(todo, pending, ids, scratch, j);
    var o := out + [pending[j]];
    forall up: Upper, f: RegFile
      ensures Holds(todo, Drop(pending, j), Drop(ids, j), scratch, f, Exec(up, o, f))
    {
      ExecAppend(up, out, pending[j], f);
      ReadyHolds(todo, pending, ids, scratch, j, up, f, Exec(up, out, f));
    }
  }

  lemma BlockedInv(todo: seq<Move>, pending: seq<Move>, ids: seq<nat>, scratch: nat, out: seq<Move>)
    requires Inv(todo, pending, ids, scratch, out) && pending != [] && Targets(pending) <= Sources(pending)
    ensures var p := Rerouted(pending, pending[0].src, scratch);
      Inv(todo, p, ids, scratch, out + [Move(pending[0].src, scratch, pending[0].size)])
        && Unsaved(p, scratch) < Unsaved(pending, scratch)
  {
    var p, m := Rerouted(pending, pending[0].src, scratch), Move(pending[0].src, scratch, pending[0].size);
    var o := out + [m];
    var up0: Upper, f0: RegFile := (a, b, k) => a, r => [0, 0, 0, 0, 0, 0, 0, 0];
    assert Holds(todo, pending, ids, scratch, f0, Exec(up0, out, f0));
    BlockedHolds(todo, pending, ids, scratch, up0, f0, Exec(up0, out, f0));
    forall up: Upper, f: RegFile
      ensures Holds(todo, p, ids, scratch, f, Exec(up, o, f))
    {
      ExecAppend(up, out, m, f);
      BlockedHolds(todo, pending, ids, scratch, up, f, Exec(up, out, f));
    }
    Blocked(pending);
    assert pending[0].src in Sources(pending);
    ReroutedSaves(pending, pending[0].src, scratch);
  }

  lemma DoneInv(moves: seq<Move>, kept: seq<nat>, todo: seq<Move>, ids: seq<nat>, scratch: nat, out: seq<Move>)
    requires Inv(todo, [], ids, scratch, out) && DistinctTargets(moves)
    requires |kept| == |todo| && forall i :: 0 <= i < |kept| ==>
      kept[i] < |moves| && todo[i] == moves[kept[i]] && todo[i].src != todo[i].dst
    requires forall k :: 0 <= k < |moves| && moves[k].src != moves[k].dst ==> k in kept
    requires forall k :: 0 <= k < |moves| ==> moves[k].dst != scratch
    ensures Simultaneous(moves, out, scratch)
  {
    forall up: Upper, f: RegFile
      ensures AllAtOnce(moves, scratch, f, Exec(up, out, f))
    {
      var g := Exec(up, out, f);
      assert Holds(todo, [], ids, scratch, f, g);
      forall k | 0 <= k < |moves|
        ensures Low(g(moves[k].dst), moves[k].size) == Low(f(moves[k].src), moves[k].size)
      {
        if moves[k].src != moves[k].dst {
          var i :| 0 <= i < |kept| && kept[i] == k;
          assert i !in ids;
        } else {
          forall i | 0 <= i < |todo|
            ensures todo[i].dst != moves[k].dst
          {
            assert kept[i] != k;
            assert moves[kept[i]].dst != moves[k].dst;
          }
          assert moves[k].dst !in Targets(todo);
        }
      }
      forall r: nat | r != scratch && r !in Targets(moves)
        ensures g(r) == f(r)
      {
        forall i | 0 <= i < |todo|
          ensures todo[i].dst != r
        {
          assert moves[kept[i]].dst in Targets(moves);
        }
      }
    }
  }
}
