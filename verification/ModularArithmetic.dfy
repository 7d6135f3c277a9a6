/** Congruences modulo a prime: just enough number theory for polynomial interpolation over Z_p. */
module ModularArithmetic {

  /** p divides a. */
  predicate Divides(p: int, a: int)
    requires p > 0
  {
    a % p == 0
  }

  /** a and b have the same residue modulo p, said through their difference. */
  predicate Congruent(a: int, b: int, p: int)
    requires p > 0
  {
    Divides(p, a - b)
  }

  ghost predicate Prime(p: int) {
    p > 1 && forall d :: 1 < d < p ==> p % d != 0
  }

  lemma {:induction false} MultipleDivides(k: int, p: int)
    requires p > 0
    ensures Divides(p, k * p)
    decreases if k < 0 then -k else k
  {
    if k > 0 {
      MultipleDivides(k - 1, p);
      Distribute(k, 1, p);
      ShiftByModulus((k - 1) * p, p);
    } else if k < 0 {
      MultipleDivides(k + 1, p);
      Distribute(k + 1, 1, p);
      ShiftByModulus(k * p, p);
    }
  }

  lemma {:induction false} ShiftByModulus(a: int, p: int)
    requires p > 0
    ensures (a + p) % p == a % p
  {
    var q, r := a / p, a % p;
    assert a + p == (q + 1) * p + r;
    QuotientUnique(a + p, p, q + 1, r, (a + p) / p, (a + p) % p);
  }

  lemma {:induction false} QuotientUnique(a: int, p: int, q: int, r: int, q': int, r': int)
    requires 0 <= r < p && 0 <= r' < p
    requires a == q * p + r == q' * p + r'
    ensures q == q' && r == r'
  {
    if q > q' {
      AtLeastModulus(q - q', p);
      Distribute(q, q', p);
    } else if q < q' {
      AtLeastModulus(q' - q, p);
      Distribute(q', q, p);
    }
  }

  lemma AtLeastModulus(k: int, p: int)
    requires k >= 1 && p > 0
    ensures k * p >= p
  {
  }

  lemma Distribute(x: int, y: int, p: int)
    ensures (x - y) * p == x * p - y * p
  {
  }

  lemma {:induction false} SumDivides(a: int, b: int, p: int)
    requires p > 0 && Divides(p, a) && Divides(p, b)
    ensures Divides(p, a + b) && Divides(p, a - b)
  {
    var i, j := a / p, b / p;
    assert a + b == (i + j) * p && a - b == (i - j) * p;
    MultipleDivides(i + j, p);
    MultipleDivides(i - j, p);
  }

  lemma {:induction false} ProductDivides(a: int, k: int, p: int)
    requires p > 0 && Divides(p, a)
    ensures Divides(p, a * k) && Divides(p, k * a)
  {
    var i := a / p;
    assert a * k == (i * k) * p;
    MultipleDivides(i * k, p);
  }

  /** A number is congruent to its own residue. */
  lemma {:induction false} ResidueCongruent(a: int, p: int)
    requires p > 0
    ensures Congruent(a % p, a, p) && Congruent(a, a % p, p)
  {
    assert a % p - a == (-(a / p)) * p && a - a % p == (a / p) * p;
    MultipleDivides(-(a / p), p);
    MultipleDivides(a / p, p);
  }

  lemma {:induction false} CongruentReflexive(a: int, p: int)
    requires p > 0
    ensures Congruent(a, a, p)
  {
    MultipleDivides(0, p);
  }

  lemma {:induction false} CongruentTransitive(a: int, b: int, c: int, p: int)
    requires p > 0 && Congruent(a, b, p) && Congruent(b, c, p)
    ensures Congruent(a, c, p)
  {
    SumDivides(a - b, b - c, p);
  }

  lemma {:induction false} CongruentSymmetric(a: int, b: int, p: int)
    requires p > 0 && Congruent(a, b, p)
    ensures Congruent(b, a, p)
  {
    ProductDivides(a - b, -1, p);
  }

  lemma {:induction false} CongruentSum(a: int, b: int, c: int, d: int, p: int)
    requires p > 0 && Congruent(a, b, p) && Congruent(c, d, p)
    ensures Congruent(a + c, b + d, p)
  {
    SumDivides(a - b, c - d, p);
  }

  lemma {:induction false} CongruentProduct(a: int, b: int, c: int, d: int, p: int)
    requires p > 0 && Congruent(a, b, p) && Congruent(c, d, p)
    ensures Congruent(a * c, b * d, p)
  {
    ProductDivides(a - b, c, p);
    ProductDivides(c - d, b, p);
    SumDivides((a - b) * c, b * (c - d), p);
    assert (a - b) * c + b * (c - d) == a * c - b * d;
  }

  /** Congruent numbers have equal residues, and only they do. */
  lemma {:induction false} CongruentIffSameResidue(a: int, b: int, p: int)
    requires p > 0
    ensures Congruent(a, b, p) <==> a % p == b % p
  {
    if Congruent(a, b, p) {
      var k := (a - b) / p;
      assert a == (k + b / p) * p + b % p;
      QuotientUnique(a, p, a / p, a % p, k + b / p, b % p);
    }
    if a % p == b % p {
      assert a - b == (a / p - b / p) * p;
      MultipleDivides(a / p - b / p, p);
    }
  }

  /** Every residue other than 0 has an inverse modulo a prime: p = q*a + s leaves a smaller s to invert. */
  lemma {:induction false} InverseExists(a: int, p: int) returns (r: int)
    requires Prime(p) && 0 < a < p
    ensures 0 <= r < p && Congruent(a * r, 1, p)
    decreases a
  {
    if a == 1 {
      r := 1;
    } else {
      var q, s := p / a, p % a;
      var t := InverseExists(s, p);
      r := (-q * t) % p;
      ResidueCongruent(-q * t, p);
      CongruentProduct(a, a, r, -q * t, p);
      // a * (-q*t) == s*t - t*p
      MultipleDivides(-t, p);
      assert a * (-q * t) == s * t + (-t) * p by {
        assert p == q * a + s;
      }
      SumDivides(s * t - 1, (-t) * p, p);
      CongruentTransitive(a * r, a * (-q * t), 1, p);
    }
  }

  lemma {:induction false} InverseUnique(a: int, r: int, r': int, p: int)
    requires p > 0 && 0 <= r < p && 0 <= r' < p
    requires Congruent(a * r, 1, p) && Congruent(a * r', 1, p)
    ensures r == r'
  {
    TimesOne(a * r, r', p);
    TimesOne(a * r', r, p);
    Reassociate(a, r, r');
    ResidueUnique(a * r * r', r, r', p);
  }

  lemma {:induction false} ResidueUnique(z: int, r: int, r': int, p: int)
    requires 0 <= r < p && 0 <= r' < p
    requires Congruent(z, r, p) && Congruent(z, r', p)
    ensures r == r'
  {
    CongruentIffSameResidue(z, r, p);
    CongruentIffSameResidue(z, r', p);
    SmallResidue(r, p);
    SmallResidue(r', p);
  }

  lemma {:induction false} SmallResidue(r: int, p: int)
    requires 0 <= r < p
    ensures r % p == r
  {
    QuotientUnique(r, p, 0, r, r / p, r % p);
  }

  lemma {:induction false} TimesOne(x: int, r: int, p: int)
    requires p > 0 && Congruent(x, 1, p)
    ensures Congruent(x * r, r, p)
  {
    ProductDivides(x - 1, r, p);
    assert (x - 1) * r == x * r - r;
  }

  lemma Reassociate(a: int, r: int, s: int)
    ensures a * r * s == a * s * r
  {
  }

  /** Python's `pow(a, -1, p)`: the inverse of a modulo p, which exists because p is prime and does not divide a. */
  function ModInverse(a: int, p: int): (r: int)
    requires Prime(p) && !Divides(p, a)
    ensures 0 <= r < p && Congruent(a * r, 1, p)
  {
    ModInverseWellDefined(a, p);
    var r :| 0 <= r < p && Congruent(a * r, 1, p);
    r
  }

  lemma {:induction false} ModInverseWellDefined(a: int, p: int)
    requires Prime(p) && !Divides(p, a)
    ensures exists r :: 0 <= r < p && Congruent(a * r, 1, p)
    ensures forall r, r' :: 0 <= r < p && 0 <= r' < p && Congruent(a * r, 1, p) && Congruent(a * r', 1, p) ==> r == r'
  {
    var r := InverseExists(a % p, p);
    ResidueCongruent(a, p);
    CongruentProduct(a, a % p, r, r, p);
    CongruentTransitive(a * r, a % p * r, 1, p);
    forall r, r' | 0 <= r < p && 0 <= r' < p && Congruent(a * r, 1, p) && Congruent(a * r', 1, p) ensures r == r' {
      InverseUnique(a, r, r', p);
    }
  }

  /** Z_p has no zero divisors. */
  lemma {:induction false} NoZeroDivisors(a: int, b: int, p: int)
    requires Prime(p) && Divides(p, a * b) && !Divides(p, a)
    ensures Divides(p, b)
  {
    var r := ModInverse(a, p);
    // b == b*1, b*(a*r) is a multiple of a*b
    ProductDivides(a * r - 1, b, p);
    ProductDivides(a * b, r, p);
    assert a * b * r - (a * r - 1) * b == b;
    SumDivides(a * b * r, (a * r - 1) * b, p);
  }
}
