/** Round-robin leadership. */
module Leaders {
  import opened ModularArithmetic

  const TWO_64 := 0x1_0000_0000_0000_0000

  /** Subtraction of 64-bit numbers as a release build does it. */
  function WrapSub(a: nat, b: nat): nat {
    (a - b) % TWO_64
  }

  /** Views 1, 2, ... go through the node list in order. */
  function LeaderIndex(view: nat, n: nat): (i: nat)
    requires n > 0
    ensures i < n
  {
    WrapSub(view, 1) % n
  }

  function LeaderOf(nodes: seq<nat>, view: nat): nat
    requires nodes != []
  {
    nodes[LeaderIndex(view, |nodes|)]
  }

  lemma NoWrap(view: nat, n: nat)
    requires 1 <= view <= TWO_64 && n > 0
    ensures LeaderIndex(view, n) == (view - 1) % n
  {
  }

  /** The next turn of node i from a view on. */
  function Turn(view: nat, n: nat, i: nat): (v: nat)
    requires 1 <= view && i < n
    ensures view <= v < view + n
  {
    view + (i - (view - 1)) % n
  }

  lemma {:induction false} TurnResidue(view: nat, n: nat, i: nat)
    requires 1 <= view && i < n
    ensures (Turn(view, n, i) - 1) % n == i
  {
    var x := i - (view - 1);
    ResidueCongruent(x, n);
    CongruentReflexive(view - 1, n);
    CongruentSum(x % n, x, view - 1, view - 1, n);
    CongruentIffSameResidue(Turn(view, n, i) - 1, i, n);
    SmallResidue(i, n);
  }

  /** Among any n consecutive views every node leads exactly one. */
  lemma {:induction false} EveryNodeLeadsOnce(view: nat, n: nat, i: nat, w: nat)
    requires 1 <= view <= w < view + n <= TWO_64 && i < n
    ensures LeaderIndex(w, n) == i <==> w == Turn(view, n, i)
  {
    hide LeaderIndex, Turn;
    var v := Turn(view, n, i);
    TurnResidue(view, n, i);
    NoWrap(v, n);
    if LeaderIndex(w, n) == i {
      SameLeader(v, w, n);
      SameLeader(w, v, n);
    }
  }

  /** The leader of a view is the node at that place of the list, counted from view 1 and round and round. */
  lemma LeaderIsInTurn(nodes: seq<nat>, view: nat)
    requires nodes != [] && 1 <= view <= TWO_64
    ensures LeaderOf(nodes, view) == nodes[(view - 1) % |nodes|]
  {
    NoWrap(view, |nodes|);
  }

  /** In a list without repeats each node leads exactly one of any |nodes| consecutive views. */
  lemma {:induction false} EveryNodeLeadsOneView(nodes: seq<nat>, view: nat, x: nat) returns (v: nat)
    requires forall i, j :: 0 <= i < j < |nodes| ==> nodes[i] != nodes[j]
    requires x in nodes && 1 <= view && view + |nodes| <= TWO_64
    ensures view <= v < view + |nodes|
    ensures forall w :: view <= w < view + |nodes| ==> (LeaderOf(nodes, w) == x <==> w == v)
  {
    hide LeaderIndex;
    var i :| 0 <= i < |nodes| && nodes[i] == x;
    v := Turn(view, |nodes|, i);
    forall w | view <= w < view + |nodes| ensures LeaderOf(nodes, w) == x <==> w == v {
      EveryNodeLeadsOnce(view, |nodes|, i, w);
    }
  }

  lemma {:induction false} SameLeader(v: nat, w: nat, n: nat)
    requires 1 <= v < TWO_64 && 1 <= w < TWO_64 && n > 0 && v < w + n && LeaderIndex(v, n) == LeaderIndex(w, n)
    ensures v <= w
  {
    CongruentIffSameResidue(v - 1, w - 1, n);
    if v > w {
      SmallResidue(v - w, n);
    }
  }
}
