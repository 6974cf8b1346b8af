/** The abstract values of the frame-address analysis: what one register or
    one spill slot is known to hold, and how two control-flow paths merge. */
module FrameLattice {

  /** The two registers every frame address is derived from. */
  datatype Base = RBP | RSP

  /** What a word is relative to this frame.
      `Exact(b, c)` is exactly b + c; `Shifts` moves with the stack by an
      unknown offset; `Maybe` is a stack address on some paths only; `Plain`
      was not computed from RBP or RSP here; `Tainted` has an unknown
      coefficient; `Unset` is undefined and the identity of the merge. */
  datatype Kind = Unset | Plain | Exact(base: Base, off: int) | Shifts | Maybe | Tainted

  const NO_ALIAS := -1
  const NO_COPY := 0

  /** A kind, the tracked slot it is an exact copy of, and its copy group. */
  datatype Val = Val(kind: Kind, alias: int, copyId: nat) {
    predicate Frameish() { kind.Exact? || kind.Shifts? || kind.Maybe? || kind.Tainted? }
    predicate Moves() { kind.Exact? || kind.Shifts? }
    predicate Repairable() { kind.Exact? || kind.Shifts? || kind.Maybe? }

    /** The same kind with neither alias nor copy group. */
    function Bare(): Val { Of(kind) }
  }

  function Of(k: Kind): Val { Val(k, NO_ALIAS, NO_COPY) }

  function Join(a: Val, b: Val): Val {
    if a.kind.Unset? then b
    else if b.kind.Unset? then a
    else if a.kind == b.kind then
      if a.alias == b.alias && a.copyId == b.copyId then a else a.Bare()
    else if a.Moves() && b.Moves() then Of(Shifts)
    else if (a.Repairable() || a.kind.Plain?) && (b.Repairable() || b.kind.Plain?) then Of(Maybe)
    else Of(Tainted)
  }

  /** `Unset` carries neither alias nor copy group: the analysis never builds another. */
  predicate Canonical(v: Val) { v.kind.Unset? ==> v == Of(Unset) }

  lemma JoinSemilattice(a: Val, b: Val, c: Val)
    requires Canonical(a) && Canonical(b) && Canonical(c)
    ensures Join(a, a) == a
    ensures Join(a, b) == Join(b, a)
    ensures Join(Join(a, b), c) == Join(a, Join(b, c))
    ensures Join(Of(Unset), a) == a == Join(a, Of(Unset))
    ensures Canonical(Join(a, b))
  {
    if !a.kind.Unset? && !b.kind.Unset? && !c.kind.Unset? {
      if a.kind == b.kind == c.kind {
      } else {
        assert Join(Join(a, b), c) == Of(Join(Join(a, b), c).kind);
      }
    }
  }

  function Rank(v: Val): (r: nat)
    ensures r <= 5
  {
    var bare := if v == v.Bare() then 1 else 0;
    match v.kind
    case Unset => 0
    case Plain => 1 + bare
    case Exact(_, _) => 1 + bare
    case Shifts => 2 + bare
    case Maybe => 3 + bare
    case Tainted => 4 + bare
  }

  ghost predicate Ascending(chain: seq<Val>) {
    && (forall i :: 0 <= i < |chain| ==> Canonical(chain[i]))
    && (forall i :: 0 <= i < |chain| - 1 ==> Below(chain[i], chain[i + 1]))
  }

  /** Strict order of the merge. */
  predicate Below(a: Val, b: Val) { a != b && Join(a, b) == b }

  lemma BelowRaisesRank(a: Val, b: Val)
    requires Canonical(a) && Canonical(b) && Below(a, b)
    ensures Rank(a) < Rank(b)
  {
  }

  /** A location can change at most five times as the fixpoint climbs. */
  lemma ChainsHaveAtMostSix(chain: seq<Val>)
    requires Ascending(chain)
    ensures |chain| <= 6
  {
    if |chain| > 0 {
      RankAlongChain(chain, |chain| - 1);
    }
  }

  lemma {:induction false} RankAlongChain(chain: seq<Val>, i: nat)
    requires Ascending(chain) && i < |chain|
    ensures Rank(chain[i]) >= i
  {
    if i > 0 {
      RankAlongChain(chain, i - 1);
      assert Below(chain[i - 1], chain[i - 1 + 1]);
      BelowRaisesRank(chain[i - 1], chain[i]);
    }
  }
}
