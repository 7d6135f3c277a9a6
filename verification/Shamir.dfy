/** Shamir secret sharing over a prime field: split, interpolate, reconstruct. */
module Shamir {
  import opened ModularArithmetic
  import opened Polynomials

  datatype Share = Share(x: int, y: int)

  function Abscissae(shares: seq<Share>): (xs: seq<int>)
    ensures |xs| == |shares|
  {
    seq(|shares|, i requires 0 <= i < |shares| => shares[i].x)
  }

  function Ordinates(shares: seq<Share>): (ys: seq<int>)
    ensures |ys| == |shares|
  {
    seq(|shares|, i requires 0 <= i < |shares| => shares[i].y)
  }

  /** The shares lie on the polynomial c, residues reduced. */
  ghost predicate SharesOf(shares: seq<Share>, c: seq<int>, p: int)
    requires p > 0
  {
    forall i :: 0 <= i < |shares| ==> shares[i].y == Eval(c, shares[i].x) % p
  }

  /**
   * `random` holds the coefficients the source draws; for t <= 1 it draws none.
   * The modulus only has to be positive here: any secret and any coefficients are accepted.
   */
  method SplitSecret(secret: int, n: nat, t: nat, p: int, random: seq<int>) returns (shares: seq<Share>)
    requires p > 0
    requires |random| == if t == 0 then 0 else t - 1
    ensures |shares| == n
    ensures forall i :: 0 <= i < n ==> shares[i].x == i + 1
    ensures SharesOf(shares, [secret] + random, p)
  {
    var coeffs := [secret] + random;
    shares := [];
    for i := 1 to n + 1
      invariant |shares| == i - 1
      invariant forall k :: 0 <= k < |shares| ==> shares[k].x == k + 1
      invariant SharesOf(shares, coeffs, p)
    {
      var accum := 0;
      MultipleDivides(0, p);
      for power := 0 to |coeffs|
        invariant accum == Eval(coeffs[..power], i) % p
      {
        EvalSnoc(coeffs[..power], coeffs[power], i);
        assert coeffs[..power + 1] == coeffs[..power] + [coeffs[power]];
        AccumulateTerm(accum, Eval(coeffs[..power], i), coeffs[power], Pow(i, power), p);
        accum := (accum + coeffs[power] * (Pow(i, power) % p)) % p;
      }
      assert coeffs[..|coeffs|] == coeffs;
      shares := shares + [Share(i, accum)];
    }
  }

  lemma {:induction false} AccumulateTerm(a: int, e: int, c: int, w: int, p: int)
    requires p > 0 && a == e % p
    ensures (a + c * (w % p)) % p == (e + c * w) % p
  {
    ResidueCongruent(e, p);
    ResidueCongruent(w, p);
    CongruentReflexive(c, p);
    CongruentProduct(c, c, w % p, w, p);
    CongruentSum(a, e, c * (w % p), c * w, p);
    CongruentIffSameResidue(a + c * (w % p), e + c * w, p);
  }

  /**
   * The value at x of the one polynomial through the points: of every polynomial with at most
   * as many coefficients as there are points that passes through all of them.
   */
  method LagrangeInterpolate(x: int, xs: seq<int>, ys: seq<int>, p: int) returns (total: int)
    requires Prime(p) && |xs| == |ys| && DistinctResidues(xs, p)
    ensures total == Eval(Interpolant(xs, ys, |xs|, p), x) % p
    ensures forall c :: |c| <= |xs| && PassesThrough(c, xs, ys, p) ==> total == Eval(c, x) % p
  {
    total := 0;
    InterpolantStart(xs, ys, p, x);
    for i := 0 to |xs|
      invariant total == Eval(Interpolant(xs, ys, i, p), x) % p
    {
      hide Eval, Basis, Interpolant;
      var li := BasisValue(x, xs, i, p);
      AddShareTerm(total, li, xs, ys, i, p, x);
      total := (total + ys[i] * li) % p;
    }
    forall c | |c| <= |xs| && PassesThrough(c, xs, ys, p) ensures total == Eval(c, x) % p {
      OnlyInterpolant(c, xs, ys, x, p);
    }
  }

  /** The inner loop: the i-th basis polynomial at x. */
  method BasisValue(x: int, xs: seq<int>, i: nat, p: int) returns (li: int)
    requires Prime(p) && i < |xs| && DistinctResidues(xs, p)
    ensures li == Eval(Basis(xs, i, |xs|, p), x) % p
  {
    li := 1;
    EvalOne(x);
    SmallResidue(1, p);
    BasisStart(xs, i, p);
    for j := 0 to |xs|
      invariant li == Eval(Basis(xs, i, j, p), x) % p
    {
      hide Eval, Basis;
      if i != j {
        MultiplyIn(li, xs, i, j, p, x);
        li := (li * (x - xs[j]) * ModInverse(xs[i] - xs[j], p)) % p;
      }
    }
  }

  lemma {:induction false} MultiplyIn(li: int, xs: seq<int>, i: nat, j: nat, p: int, x: int)
    requires Prime(p) && i < |xs| && j < |xs| && i != j && DistinctResidues(xs, p) && li == Eval(Basis(xs, i, j, p), x) % p
    ensures !Divides(p, xs[i] - xs[j])
    ensures (li * (x - xs[j]) * ModInverse(xs[i] - xs[j], p)) % p == Eval(Basis(xs, i, j + 1, p), x) % p
  {
    BasisStep(xs, i, j, p, x);
    MultiplyFactor(li, Eval(Basis(xs, i, j, p), x), x - xs[j], ModInverse(xs[i] - xs[j], p), p);
  }

  lemma {:induction false} AddShareTerm(total: int, li: int, xs: seq<int>, ys: seq<int>, i: nat, p: int, x: int)
    requires Prime(p) && |xs| == |ys| && i < |xs| && DistinctResidues(xs, p)
    requires total == Eval(Interpolant(xs, ys, i, p), x) % p && li == Eval(Basis(xs, i, |xs|, p), x) % p
    ensures (total + ys[i] * li) % p == Eval(Interpolant(xs, ys, i + 1, p), x) % p
  {
    InterpolantStep(xs, ys, i, p, x);
    AccumulateTerm(total, Eval(Interpolant(xs, ys, i, p), x), ys[i], Eval(Basis(xs, i, |xs|, p), x), p);
  }

  lemma {:induction false} OnlyInterpolant(c: seq<int>, xs: seq<int>, ys: seq<int>, x: int, p: int)
    requires Prime(p) && |xs| == |ys| && DistinctResidues(xs, p) && |c| <= |xs| && PassesThrough(c, xs, ys, p)
    ensures Eval(Interpolant(xs, ys, |xs|, p), x) % p == Eval(c, x) % p
  {
    InterpolationExists(xs, ys, p);
    InterpolationUnique(Interpolant(xs, ys, |xs|, p), c, xs, ys, x, p);
    CongruentIffSameResidue(Eval(Interpolant(xs, ys, |xs|, p), x), Eval(c, x), p);
  }

  lemma {:induction false} MultiplyFactor(l: int, e: int, d: int, inv: int, p: int)
    requires p > 0 && l == e % p
    ensures (l * d * inv) % p == (e * d * inv) % p
  {
    ResidueCongruent(e, p);
    CongruentReflexive(d, p);
    CongruentReflexive(inv, p);
    CongruentProduct(l, e, d, d, p);
    CongruentProduct(l * d, e * d, inv, inv, p);
    CongruentIffSameResidue(l * d * inv, e * d * inv, p);
  }

  /** What the shares reconstruct to, as a function. */
  ghost function Recovered(shares: seq<Share>, p: int): int
    requires Prime(p) && DistinctResidues(Abscissae(shares), p)
  {
    Eval(Interpolant(Abscissae(shares), Ordinates(shares), |shares|, p), 0) % p
  }

  /** Unpacking zip(*shares) raises on an empty list, and pow(d, -1, p) raises when two indices agree modulo p. */
  method ReconstructSecret(shares: seq<Share>, p: int) returns (secret: int)
    requires Prime(p) && shares != [] && DistinctResidues(Abscissae(shares), p)
    ensures secret == Recovered(shares, p)
  {
    secret := LagrangeInterpolate(0, Abscissae(shares), Ordinates(shares), p);
  }

  /** At or above the threshold, distinct shares of any polynomial give back its constant term. */
  lemma {:induction false} ReconstructionExact(coeffs: seq<int>, shares: seq<Share>, p: int)
    requires Prime(p) && coeffs != [] && |coeffs| <= |shares|
    requires DistinctResidues(Abscissae(shares), p) && SharesOf(shares, coeffs, p)
    ensures Recovered(shares, p) == coeffs[0] % p
  {
    var xs, ys := Abscissae(shares), Ordinates(shares);
    forall i | 0 <= i < |xs| ensures Congruent(Eval(coeffs, xs[i]), ys[i], p) {
      ResidueCongruent(Eval(coeffs, xs[i]), p);
    }
    InterpolationExists(xs, ys, p);
    InterpolationUnique(Interpolant(xs, ys, |xs|, p), coeffs, xs, ys, 0, p);
    CongruentIffSameResidue(Eval(Interpolant(xs, ys, |xs|, p), 0), Eval(coeffs, 0), p);
  }

  lemma {:induction false} IndicesDistinct(xs: seq<int>, n: nat, p: int)
    requires n <= p && p > 0
    requires forall i :: 0 <= i < |xs| ==> 1 <= xs[i] <= n
    requires forall i, j :: 0 <= i < j < |xs| ==> xs[i] != xs[j]
    ensures DistinctResidues(xs, p)
  {
    forall i, j | 0 <= i < j < |xs| ensures !Divides(p, xs[j] - xs[i]) {
      var d := xs[j] - xs[i];
      if d > 0 {
        SmallResidue(d, p);
      } else {
        ShiftByModulus(d, p);
        SmallResidue(d + p, p);
      }
    }
  }

  /**
   * Split, hand out, pick any shares in any order, reconstruct. With at least t of the n <= p shares
   * the answer is the secret modulo p, which is the secret itself exactly when it is a residue.
   */
  method SplitAndReconstruct(secret: int, n: nat, t: nat, p: int, random: seq<int>, picks: seq<nat>) returns (recovered: int)
    requires Prime(p) && n <= p
    requires |random| == if t == 0 then 0 else t - 1
    requires forall i :: 0 <= i < |picks| ==> picks[i] < n
    requires forall i, j :: 0 <= i < j < |picks| ==> picks[i] != picks[j]
    requires |picks| >= t && picks != []
    ensures recovered == secret % p
    ensures recovered == secret <==> 0 <= secret < p
  {
    var shares := SplitSecret(secret, n, t, p, random);
    var chosen := seq(|picks|, i requires 0 <= i < |picks| => shares[picks[i]]);
    IndicesDistinct(Abscissae(chosen), n, p);
    recovered := ReconstructSecret(chosen, p);
    ReconstructionExact([secret] + random, chosen, p);
    if 0 <= secret < p {
      SmallResidue(secret, p);
    }
  }

  // ---------------------------------------------------------------- below the threshold

  /** A choice of t reduced coefficients with this constant term that produces exactly these shares. */
  ghost predicate Explains(c: seq<int>, secret: int, t: nat, xs: seq<int>, ys: seq<int>, p: int)
    requires p > 0 && |xs| == |ys|
  {
    && |c| == t && t > 0 && c[0] == secret
    && (forall i :: 0 <= i < |c| ==> 0 <= c[i] < p)
    && PassesThrough(c, xs, ys, p)
  }

  /** Coefficients reduced modulo p and padded with zeros to length t. */
  function Normalize(c: seq<int>, t: nat, p: int): (r: seq<int>)
    requires p > 0 && |c| <= t
    ensures |r| == t
    ensures forall i :: 0 <= i < |r| ==> 0 <= r[i] < p
  {
    if t == 0 then []
    else if c == [] then [0] + Normalize([], t - 1, p)
    else [c[0] % p] + Normalize(c[1..], t - 1, p)
  }

  lemma {:induction false} NormalizeEval(c: seq<int>, t: nat, p: int, x: int)
    requires p > 0 && |c| <= t
    ensures Congruent(Eval(Normalize(c, t, p), x), Eval(c, x), p)
    decreases t
  {
    if t == 0 {
      CongruentReflexive(0, p);
    } else {
      var head, rest := if c == [] then 0 else c[0], if c == [] then [] else c[1..];
      var r := Normalize(c, t, p);
      assert r[1..] == Normalize(rest, t - 1, p);
      NormalizeEval(rest, t - 1, p, x);
      ResidueCongruent(head, p);
      CongruentReflexive(0, p);
      HornerStep(r[0], head, Eval(r[1..], x), Eval(rest, x), x, p);
    }
  }

  lemma {:induction false} HornerStep(h: int, h': int, e: int, e': int, x: int, p: int)
    requires p > 0 && Congruent(h, h', p) && Congruent(e, e', p)
    ensures Congruent(h + x * e, h' + x * e', p)
  {
    CongruentReflexive(x, p);
    CongruentProduct(x, x, e, e', p);
    CongruentSum(h, h', x * e, x * e', p);
  }

  lemma ZeroDistinct(xs: seq<int>, p: int)
    requires p > 0 && DistinctResidues(xs, p) && forall i :: 0 <= i < |xs| ==> !Divides(p, xs[i])
    ensures DistinctResidues([0] + xs, p)
  {
  }

  /** Fewer than t shares rule no secret out: every candidate has coefficients that produce the same shares. */
  lemma {:induction false} BelowThresholdRevealsNothing(xs: seq<int>, ys: seq<int>, t: nat, candidate: int, p: int) returns (c: seq<int>)
    requires Prime(p) && |xs| == |ys| < t && 0 <= candidate < p
    requires DistinctResidues(xs, p) && forall i :: 0 <= i < |xs| ==> !Divides(p, xs[i])
    ensures Explains(c, candidate, t, xs, ys, p)
  {
    var xs', ys' := [0] + xs, [candidate] + ys;
    ZeroDistinct(xs, p);
    InterpolationExists(xs', ys', p);
    var d := Interpolant(xs', ys', |xs'|, p);
    c := Normalize(d, t, p);
    NormalizeEval(d, t, p, 0);
    CongruentTransitive(Eval(c, 0), Eval(d, xs'[0]), ys'[0], p);
    ResidueUnique(c[0], candidate, c[0], p) by { CongruentReflexive(c[0], p); }
    forall i | 0 <= i < |xs| ensures Congruent(Eval(c, xs[i]), ys[i], p) {
      NormalizeEval(d, t, p, xs[i]);
      CongruentTransitive(Eval(c, xs[i]), Eval(d, xs'[i + 1]), ys'[i + 1], p);
    }
  }

  /** With exactly t - 1 shares each candidate secret is explained by one coefficient choice and no other. */
  lemma {:induction false} ExplanationUnique(c: seq<int>, d: seq<int>, xs: seq<int>, ys: seq<int>, t: nat, candidate: int, p: int)
    requires Prime(p) && |xs| == |ys| == t - 1
    requires DistinctResidues(xs, p) && forall i :: 0 <= i < |xs| ==> !Divides(p, xs[i])
    requires Explains(c, candidate, t, xs, ys, p) && Explains(d, candidate, t, xs, ys, p)
    ensures c == d
  {
    var xs', ys' := [0] + xs, [candidate] + ys;
    ZeroDistinct(xs, p);
    CongruentReflexive(candidate, p);
    DifferenceDivisible(c, d, xs', ys', p);
    forall i | 0 <= i < t ensures c[i] == d[i] {
      AddScaleAt(c, d, i);
      CongruentReflexive(c[i], p);
      ResidueUnique(c[i], c[i], d[i], p);
    }
  }
}
