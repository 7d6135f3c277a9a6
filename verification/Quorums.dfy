/** Quorum sizes and how far quorums overlap, for any set of nodes. */
module Quorums {

  function Majority(n: nat): nat {
    n / 2 + 1
  }

  /** `validate_or_die`: at most n - majority nodes may be unresponsive. */
  predicate ValidConfig(n: nat, u: nat) {
    u + Majority(n) <= n
  }

  lemma {:induction false} SubsetSize<T>(a: set<T>, b: set<T>)
    requires a <= b
    ensures |a| <= |b|
  {
    assert b == a + (b - a);
  }

  /** Inclusion and exclusion: two subsets of a universe share what the universe cannot hold apart. */
  lemma {:induction false} Overlap<T>(universe: set<T>, a: set<T>, b: set<T>)
    requires a <= universe && b <= universe
    ensures |a * b| + |universe| >= |a| + |b|
  {
    assert a + b == a + (b - a) && b == a * b + (b - a);
    SubsetSize(a + b, universe);
  }

  lemma {:induction false} Meet<T>(universe: set<T>, a: set<T>, b: set<T>)
    requires a <= universe && b <= universe && |a| + |b| > |universe|
    ensures exists x :: x in a && x in b
  {
    Overlap(universe, a, b);
    var x :| x in a * b;
    assert x in a && x in b;
  }

  /** The nodes numbered below n. */
  function Nodes(n: nat): (s: set<nat>)
    ensures |s| == n && forall r: nat :: r in s <==> r < n
  {
    if n == 0 then {} else Nodes(n - 1) + {n - 1}
  }

  /**
   * Under a valid configuration: the view-update threshold n - 2u is positive, two sets of n - u nodes share at least
   * that many, and a set of n - u nodes meets every majority.
   */
  lemma {:induction false} PlatformQuorums<T>(universe: set<T>, u: nat, a: set<T>, b: set<T>, m: set<T>)
    requires universe != {} && ValidConfig(|universe|, u)
    requires a <= universe && b <= universe && m <= universe
    requires |a| >= |universe| - u && |b| >= |universe| - u && |m| >= Majority(|universe|)
    ensures |universe| - 2 * u >= 1
    ensures |a * b| >= |universe| - 2 * u
    ensures exists x :: x in a && x in m
  {
    Overlap(universe, a, b);
    Meet(universe, a, m);
  }

  /** The bound on u is exact: beyond it two sets of n - u nodes need not meet. */
  lemma {:induction false} ConfigBoundTight(n: nat, u: nat) returns (a: set<nat>, b: set<nat>)
    requires u <= n && !ValidConfig(n, u)
    ensures a <= Nodes(n) && b <= Nodes(n) && |a| == |b| == n - u && a * b == {}
  {
    a := Nodes(n - u);
    var both := Nodes(2 * (n - u));
    b := both - a;
    assert both == a + b;
  }

  /** Without platforms, f = n / 3: quorums of n - f share n - 2f >= f nodes, and f + 1 exactly when 3 does not divide n. */
  lemma {:induction false} ThirdsQuorums<T>(universe: set<T>, a: set<T>, b: set<T>)
    requires a <= universe && b <= universe
    requires |a| >= |universe| - |universe| / 3 && |b| >= |universe| - |universe| / 3
    ensures |a * b| >= |universe| - 2 * (|universe| / 3) >= |universe| / 3
    ensures |universe| - 2 * (|universe| / 3) >= |universe| / 3 + 1 <==> |universe| % 3 != 0
  {
    Overlap(universe, a, b);
  }
}
