/** Polynomials with integer coefficients, lowest power first, and what they determine modulo a prime. */
module Polynomials {
  import opened ModularArithmetic

  /** Horner evaluation. */
  function Eval(c: seq<int>, x: int): int {
    if c == [] then 0 else c[0] + x * Eval(c[1..], x)
  }

  function Scale(k: int, c: seq<int>): (r: seq<int>)
    ensures |r| == |c|
  {
    if c == [] then [] else [k * c[0]] + Scale(k, c[1..])
  }

  function Add(c: seq<int>, d: seq<int>): (r: seq<int>)
    ensures |r| == if |c| < |d| then |d| else |c|
  {
    if c == [] then d
    else if d == [] then c
    else [c[0] + d[0]] + Add(c[1..], d[1..])
  }

  /** c * (X - a). */
  function TimesLinear(c: seq<int>, a: int): (r: seq<int>)
    ensures |r| == |c| + 1
  {
    Add([0] + c, Scale(-a, c))
  }

  /** The quotient of c by (X - r). */
  function Quotient(c: seq<int>, r: int): (q: seq<int>)
    ensures |q| == if c == [] then 0 else |c| - 1
  {
    if |c| <= 1 then [] else [Eval(c[1..], r)] + Quotient(c[1..], r)
  }

  lemma {:induction false} EvalScale(k: int, c: seq<int>, x: int)
    ensures Eval(Scale(k, c), x) == k * Eval(c, x)
  {
    if c != [] {
      EvalScale(k, c[1..], x);
      var e := Eval(c[1..], x);
      assert Scale(k, c)[1..] == Scale(k, c[1..]);
      assert k * (c[0] + x * e) == k * c[0] + x * (k * e);
    }
  }

  lemma {:induction false} EvalAdd(c: seq<int>, d: seq<int>, x: int)
    ensures Eval(Add(c, d), x) == Eval(c, x) + Eval(d, x)
  {
    if c != [] && d != [] {
      EvalAdd(c[1..], d[1..], x);
      assert Add(c, d)[1..] == Add(c[1..], d[1..]);
    }
  }

  lemma {:induction false} EvalTimesLinear(c: seq<int>, a: int, x: int)
    ensures Eval(TimesLinear(c, a), x) == (x - a) * Eval(c, x)
  {
    EvalAdd([0] + c, Scale(-a, c), x);
    EvalScale(-a, c, x);
    assert ([0] + c)[1..] == c;
    DistributeOver(x, a, Eval(c, x));
  }

  lemma DistributeOver(x: int, a: int, e: int)
    ensures x * e + -a * e == (x - a) * e
  {
  }

  /** Division with remainder: c(x) == c(r) + (x - r) * q(x). */
  lemma {:induction false} EvalQuotient(c: seq<int>, r: int, x: int)
    ensures Eval(c, x) == Eval(c, r) + (x - r) * Eval(Quotient(c, r), x)
  {
    if |c| > 1 {
      var t := c[1..];
      EvalQuotient(t, r, x);
      assert Quotient(c, r)[1..] == Quotient(t, r);
      var e, q := Eval(t, r), Eval(Quotient(t, r), x);
      assert Eval(Quotient(c, r), x) == e + x * q;
      QuotientStep(e, q, r, x);
    }
  }

  lemma QuotientStep(e: int, q: int, r: int, x: int)
    ensures x * (e + (x - r) * q) == r * e + (x - r) * (e + x * q)
  {
  }

  /** Appending a top coefficient adds its power term: Horner's rule agrees with the sum of powers. */
  lemma {:induction false} EvalSnoc(c: seq<int>, a: int, x: int)
    ensures Eval(c + [a], x) == Eval(c, x) + a * Pow(x, |c|)
  {
    if c != [] {
      EvalSnoc(c[1..], a, x);
      assert (c + [a])[1..] == c[1..] + [a];
      var e, w := Eval(c[1..], x), Pow(x, |c| - 1);
      assert x * (e + a * w) == x * e + a * (x * w);
    } else {
      assert [a][1..] == [];
    }
  }

  function Pow(b: int, e: nat): int {
    if e == 0 then 1 else b * Pow(b, e - 1)
  }

  // ---------------------------------------------------------------- modulo a prime

  ghost predicate DistinctResidues(xs: seq<int>, p: int)
    requires p > 0
  {
    forall i, j :: 0 <= i < j < |xs| ==> !Divides(p, xs[j] - xs[i])
  }

  ghost predicate AllDivisible(c: seq<int>, p: int)
    requires p > 0
  {
    forall i :: 0 <= i < |c| ==> Divides(p, c[i])
  }

  ghost predicate VanishesOn(c: seq<int>, xs: seq<int>, p: int)
    requires p > 0
  {
    forall i :: 0 <= i < |xs| ==> Divides(p, Eval(c, xs[i]))
  }

  /** c passes through every point (xs[i], ys[i]) modulo p. */
  ghost predicate PassesThrough(c: seq<int>, xs: seq<int>, ys: seq<int>, p: int)
    requires p > 0 && |xs| == |ys|
  {
    forall i :: 0 <= i < |xs| ==> Congruent(Eval(c, xs[i]), ys[i], p)
  }

  lemma {:induction false} DivisibleVanishes(c: seq<int>, x: int, p: int)
    requires p > 0 && AllDivisible(c, p)
    ensures Divides(p, Eval(c, x))
  {
    if c != [] {
      DivisibleVanishes(c[1..], x, p);
      ProductDivides(Eval(c[1..], x), x, p);
      SumDivides(c[0], x * Eval(c[1..], x), p);
    }
  }

  lemma {:induction false} DivisibleQuotient(c: seq<int>, r: int, p: int)
    requires p > 0 && Divides(p, Eval(c, r)) && AllDivisible(Quotient(c, r), p)
    ensures AllDivisible(c, p)
  {
    if c != [] {
      var t := c[1..];
      if t != [] {
        var q := Quotient(c, r);
        assert q[0] == Eval(t, r);
        assert q[1..] == Quotient(t, r);
        forall i | 0 <= i < |Quotient(t, r)| ensures Divides(p, Quotient(t, r)[i]) {
          assert Quotient(t, r)[i] == q[i + 1];
        }
        DivisibleQuotient(t, r, p);
      }
      ProductDivides(Eval(t, r), r, p);
      SumDivides(Eval(c, r), r * Eval(t, r), p);
      assert c == [c[0]] + t;
    }
  }

  /** A polynomial with at least as many roots in Z_p as coefficients has no coefficient left modulo p. */
  lemma {:induction false} RootsForceZero(c: seq<int>, xs: seq<int>, p: int)
    requires Prime(p) && |c| <= |xs| && DistinctResidues(xs, p) && VanishesOn(c, xs, p)
    ensures AllDivisible(c, p)
    decreases |c|
  {
    if c != [] {
      var r, rest, q := xs[0], xs[1..], Quotient(c, xs[0]);
      forall i | 0 <= i < |rest| ensures Divides(p, Eval(q, rest[i])) {
        var x := xs[i + 1];
        EvalQuotient(c, r, x);
        SumDivides(Eval(c, x), Eval(c, r), p);
        assert Eval(c, x) - Eval(c, r) == (x - r) * Eval(q, x);
        NoZeroDivisors(x - r, Eval(q, x), p);
      }
      RootsForceZero(q, rest, p);
      DivisibleQuotient(c, r, p);
    }
  }

  /** Two polynomials with no more coefficients than common points have congruent coefficients everywhere. */
  lemma {:induction false} DifferenceDivisible(c: seq<int>, d: seq<int>, xs: seq<int>, ys: seq<int>, p: int)
    requires Prime(p) && |xs| == |ys| && DistinctResidues(xs, p)
    requires |c| <= |xs| && |d| <= |xs|
    requires PassesThrough(c, xs, ys, p) && PassesThrough(d, xs, ys, p)
    ensures AllDivisible(Add(c, Scale(-1, d)), p)
  {
    var g := Add(c, Scale(-1, d));
    forall i | 0 <= i < |xs| ensures Divides(p, Eval(g, xs[i])) {
      EvalAdd(c, Scale(-1, d), xs[i]);
      EvalScale(-1, d, xs[i]);
      SumDivides(Eval(c, xs[i]) - ys[i], Eval(d, xs[i]) - ys[i], p);
    }
    RootsForceZero(g, xs, p);
  }

  lemma {:induction false} InterpolationUnique(c: seq<int>, d: seq<int>, xs: seq<int>, ys: seq<int>, x: int, p: int)
    requires Prime(p) && |xs| == |ys| && DistinctResidues(xs, p)
    requires |c| <= |xs| && |d| <= |xs|
    requires PassesThrough(c, xs, ys, p) && PassesThrough(d, xs, ys, p)
    ensures Congruent(Eval(c, x), Eval(d, x), p)
  {
    assert p > 0;
    hide Eval, Add, Scale, Prime, PassesThrough, DistinctResidues, AllDivisible, Divides;
    DifferenceDivisible(c, d, xs, ys, p);
    var g := Add(c, Scale(-1, d));
    DivisibleVanishes(g, x, p);
    EvalAdd(c, Scale(-1, d), x);
    EvalScale(-1, d, x);
  }

  lemma {:induction false} AddScaleAt(c: seq<int>, d: seq<int>, i: nat)
    requires |c| == |d| && i < |c|
    ensures Add(c, Scale(-1, d))[i] == c[i] - d[i]
  {
    if i > 0 {
      AddScaleAt(c[1..], d[1..], i - 1);
    }
  }

  // ---------------------------------------------------------------- the Lagrange basis

  /** Product over j < m, j != i, of (X - xs[j]) / (xs[i] - xs[j]). */
  function Basis(xs: seq<int>, i: nat, m: nat, p: int): (c: seq<int>)
    requires Prime(p) && i < |xs| && m <= |xs| && DistinctResidues(xs, p)
    ensures |c| == if i < m then m else m + 1
  {
    if m == 0 then [1]
    else if m - 1 == i then Basis(xs, i, m - 1, p)
    else
      DifferenceInvertible(xs, i, m - 1, p);
      Scale(ModInverse(xs[i] - xs[m - 1], p), TimesLinear(Basis(xs, i, m - 1, p), xs[m - 1]))
  }

  lemma {:induction false} DifferenceInvertible(xs: seq<int>, i: nat, j: nat, p: int)
    requires p > 0 && i < |xs| && j < |xs| && i != j && DistinctResidues(xs, p)
    ensures !Divides(p, xs[i] - xs[j])
  {
    if Divides(p, xs[i] - xs[j]) && i < j {
      CongruentSymmetric(xs[i], xs[j], p);
    }
  }

  lemma {:induction false} BasisStep(xs: seq<int>, i: nat, m: nat, p: int, x: int)
    requires Prime(p) && i < |xs| && m < |xs| && m != i && DistinctResidues(xs, p)
    ensures !Divides(p, xs[i] - xs[m])
    ensures Eval(Basis(xs, i, m + 1, p), x)
         == Eval(Basis(xs, i, m, p), x) * (x - xs[m]) * ModInverse(xs[i] - xs[m], p)
  {
    DifferenceInvertible(xs, i, m, p);
    var b, inv := Basis(xs, i, m, p), ModInverse(xs[i] - xs[m], p);
    EvalScale(inv, TimesLinear(b, xs[m]), x);
    EvalTimesLinear(b, xs[m], x);
    Rearrange(inv, x - xs[m], Eval(b, x));
  }

  lemma Rearrange(a: int, b: int, c: int)
    ensures a * (b * c) == c * b * a
  {
  }

  lemma BasisStart(xs: seq<int>, i: nat, p: int)
    requires Prime(p) && i < |xs| && DistinctResidues(xs, p)
    ensures Basis(xs, i, 0, p) == [1] && Basis(xs, i, i + 1, p) == Basis(xs, i, i, p)
  {
  }

  /** The basis is 1 at its own node ... */
  lemma {:induction false} BasisAtOwnNode(xs: seq<int>, i: nat, m: nat, p: int)
    requires Prime(p) && i < |xs| && m <= |xs| && DistinctResidues(xs, p)
    ensures Congruent(Eval(Basis(xs, i, m, p), xs[i]), 1, p)
    decreases m
  {
    if m == 0 {
      EvalOne(xs[i]);
      CongruentReflexive(1, p);
    } else {
      BasisAtOwnNode(xs, i, m - 1, p);
      OwnNodeStep(xs, i, m - 1, p);
    }
  }

  lemma {:induction false} EvalOne(x: int)
    ensures Eval([1], x) == 1
  {
    assert [1][1..] == [];
  }

  lemma {:induction false} OwnNodeStep(xs: seq<int>, i: nat, m: nat, p: int)
    requires Prime(p) && i < |xs| && m < |xs| && DistinctResidues(xs, p)
    requires Congruent(Eval(Basis(xs, i, m, p), xs[i]), 1, p)
    ensures Congruent(Eval(Basis(xs, i, m + 1, p), xs[i]), 1, p)
  {
    if m == i {
      BasisStart(xs, i, p);
    } else {
      BasisStep(xs, i, m, p, xs[i]);
      UnitProduct(Eval(Basis(xs, i, m, p), xs[i]), xs[i] - xs[m], ModInverse(xs[i] - xs[m], p), p);
    }
  }

  lemma {:induction false} UnitProduct(e: int, d: int, inv: int, p: int)
    requires p > 0 && Congruent(e, 1, p) && Congruent(d * inv, 1, p)
    ensures Congruent(e * d * inv, 1, p)
  {
    CongruentProduct(e, 1, d * inv, 1, p);
    assert e * (d * inv) == e * d * inv;
  }

  lemma {:induction false} ZeroProduct(e: int, d: int, inv: int, p: int)
    requires p > 0 && (Divides(p, e) || d == 0)
    ensures Divides(p, e * d * inv)
  {
    if d != 0 {
      ProductDivides(e, d, p);
      ProductDivides(e * d, inv, p);
    }
  }

  /** ... and 0 at every other node already multiplied in. */
  lemma {:induction false} BasisAtOtherNode(xs: seq<int>, i: nat, k: nat, m: nat, p: int)
    requires Prime(p) && i < |xs| && k < m <= |xs| && k != i && DistinctResidues(xs, p)
    ensures Divides(p, Eval(Basis(xs, i, m, p), xs[k]))
    decreases m
  {
    if k < m - 1 {
      BasisAtOtherNode(xs, i, k, m - 1, p);
    }
    OtherNodeStep(xs, i, k, m - 1, p);
  }

  lemma {:induction false} OtherNodeStep(xs: seq<int>, i: nat, k: nat, m: nat, p: int)
    requires Prime(p) && i < |xs| && k <= m < |xs| && k != i && DistinctResidues(xs, p)
    requires k < m ==> Divides(p, Eval(Basis(xs, i, m, p), xs[k]))
    ensures Divides(p, Eval(Basis(xs, i, m + 1, p), xs[k]))
  {
    if m == i {
      BasisStart(xs, i, p);
    } else {
      BasisStep(xs, i, m, p, xs[k]);
      ZeroProduct(Eval(Basis(xs, i, m, p), xs[k]), xs[k] - xs[m], ModInverse(xs[i] - xs[m], p), p);
    }
  }

  /** Sum over i < m of ys[i] times the i-th full basis polynomial. */
  function Interpolant(xs: seq<int>, ys: seq<int>, m: nat, p: int): (c: seq<int>)
    requires Prime(p) && |xs| == |ys| && m <= |xs| && DistinctResidues(xs, p)
    ensures |c| == if m == 0 then 0 else |xs|
  {
    if m == 0 then []
    else Add(Interpolant(xs, ys, m - 1, p), Scale(ys[m - 1], Basis(xs, m - 1, |xs|, p)))
  }

  lemma {:induction false} InterpolantStart(xs: seq<int>, ys: seq<int>, p: int, x: int)
    requires Prime(p) && |xs| == |ys| && DistinctResidues(xs, p)
    ensures Eval(Interpolant(xs, ys, 0, p), x) % p == 0
  {
    SmallResidue(0, p);
  }

  lemma {:induction false} InterpolantStep(xs: seq<int>, ys: seq<int>, m: nat, p: int, x: int)
    requires Prime(p) && |xs| == |ys| && m < |xs| && DistinctResidues(xs, p)
    ensures Eval(Interpolant(xs, ys, m + 1, p), x)
         == Eval(Interpolant(xs, ys, m, p), x) + ys[m] * Eval(Basis(xs, m, |xs|, p), x)
  {
    EvalAdd(Interpolant(xs, ys, m, p), Scale(ys[m], Basis(xs, m, |xs|, p)), x);
    EvalScale(ys[m], Basis(xs, m, |xs|, p), x);
  }

  lemma {:induction false} InterpolantAtNode(xs: seq<int>, ys: seq<int>, m: nat, k: nat, p: int)
    requires Prime(p) && |xs| == |ys| && m <= |xs| && k < |xs| && DistinctResidues(xs, p)
    ensures Congruent(Eval(Interpolant(xs, ys, m, p), xs[k]), if k < m then ys[k] else 0, p)
    decreases m
  {
    if m == 0 {
      CongruentReflexive(0, p);
    } else {
      InterpolantAtNode(xs, ys, m - 1, k, p);
      AddNode(xs, ys, m - 1, k, p, Eval(Interpolant(xs, ys, m - 1, p), xs[k]), Eval(Interpolant(xs, ys, m, p), xs[k]));
    }
  }

  lemma {:induction false} AddNode(xs: seq<int>, ys: seq<int>, m: nat, k: nat, p: int, v: int, v': int)
    requires Prime(p) && |xs| == |ys| && m < |xs| && k < |xs| && DistinctResidues(xs, p)
    requires v == Eval(Interpolant(xs, ys, m, p), xs[k]) && v' == Eval(Interpolant(xs, ys, m + 1, p), xs[k])
    requires Congruent(v, if k < m then ys[k] else 0, p)
    ensures Congruent(v', if k < m + 1 then ys[k] else 0, p)
  {
    InterpolantStep(xs, ys, m, p, xs[k]);
    if k == m {
      BasisAtOwnNode(xs, k, |xs|, p);
    } else {
      BasisAtOtherNode(xs, m, k, |xs|, p);
    }
    AddTerm(v, if k < m then ys[k] else 0, Eval(Basis(xs, m, |xs|, p), xs[k]), k == m, ys[m], p);
  }

  lemma {:induction false} AddTerm(sum: int, want: int, e: int, own: bool, y: int, p: int)
    requires p > 0 && Congruent(sum, want, p) && Congruent(e, if own then 1 else 0, p)
    ensures Congruent(sum + y * e, want + if own then y else 0, p)
  {
    CongruentProduct(y, y, e, if own then 1 else 0, p);
    CongruentSum(sum, want, y * e, if own then y else 0, p);
  }

  /** Through any points with distinct abscissae runs a polynomial with one coefficient per point. */
  lemma {:induction false} InterpolationExists(xs: seq<int>, ys: seq<int>, p: int)
    requires Prime(p) && |xs| == |ys| && DistinctResidues(xs, p)
    ensures PassesThrough(Interpolant(xs, ys, |xs|, p), xs, ys, p)
  {
    forall k | 0 <= k < |xs| ensures Congruent(Eval(Interpolant(xs, ys, |xs|, p), xs[k]), ys[k], p) {
      InterpolantAtNode(xs, ys, |xs|, k, p);
    }
  }
}
