/** Sequences without repetition, and how large finite sets are. */
module Counting {

  /** No element occurs twice. */
  ghost predicate Distinct<T>(s: seq<T>) { forall i, j :: 0 <= i < j < |s| ==> s[i] != s[j] }

  lemma {:induction false} SubsetCount<T>(a: set<T>, b: set<T>)
    requires a <= b
    ensures |a| <= |b|
  {
    if x :| x in a { SubsetCount(a - {x}, b - {x}); }
  }

  lemma GrowsCount<T>(a: set<T>, b: set<T>)
    requires a <= b && a != b
    ensures |a| < |b|
  {
    var x :| x in b && x !in a;
    SubsetCount(a, b - {x});
  }

  /** The numbers below n. */
  function Below(n: nat): set<nat> { if n == 0 then {} else Below(n - 1) + {n - 1} }

  lemma {:induction false} BelowCount(n: nat)
    ensures |Below(n)| == n && forall b: nat :: b in Below(n) <==> b < n
  {
    if n > 0 { BelowCount(n - 1); }
  }

  lemma BoundedCount(s: set<nat>, n: nat)
    requires forall b :: b in s ==> b < n
    ensures |s| <= n
  {
    BelowCount(n);
    assert s <= Below(n);
    SubsetCount(s, Below(n));
  }
}
