/** Powers of two, divisibility by them, and the triangular numbers that drive
    the growing stride of the hash probe. */
module PowerOfTwo {

  function Pow2(m: nat): (p: nat)
    ensures p > 0
  {
    if m == 0 then 1 else 2 * Pow2(m - 1)
  }

  ghost predicate IsPow2(x: nat) {
    exists m: nat :: x == Pow2(m)
  }

  lemma {:induction false} Pow2Monotone(a: nat, b: nat)
    requires a < b
    ensures 2 * Pow2(a) <= Pow2(b)
  {
    if a + 1 < b {
      Pow2Monotone(a, b - 1);
    }
  }

  ghost predicate Divides(p: int, x: int) {
    exists q: int :: x == q * p
  }

  lemma DividesIntro(p: int, q: int)
    ensures Divides(p, q * p)
  {
  }

  /** A power of two that divides a product with one odd factor divides the other factor. */
  lemma {:induction false} OddFactor(k: nat, a: int, b: int)
    requires a % 2 == 1
    requires Divides(Pow2(k), a * b)
    ensures Divides(Pow2(k), b)
  {
    if k == 0 {
      DividesIntro(1, b);
    } else {
      var c := HalveFactor(Pow2(k - 1), a, b);
      OddFactor(k - 1, a, c);
      DoubleFactor(Pow2(k - 1), c);
    }
  }

  lemma HalveFactor(p: int, a: int, b: int) returns (c: int)
    requires a % 2 == 1 && Divides(2 * p, a * b)
    ensures b == 2 * c && Divides(p, a * c)
  {
    var q: int :| a * b == q * (2 * p);
    assert q * (2 * p) == 2 * (q * p);
    EvenByOdd(a, b);
    c := b / 2;
    assert a * (2 * c) == 2 * (a * c);
    DividesIntro(p, q);
  }

  lemma DoubleFactor(p: int, c: int)
    requires Divides(p, c)
    ensures Divides(2 * p, 2 * c)
  {
    var r: int :| c == r * p;
    assert 2 * (r * p) == r * (2 * p);
    DividesIntro(2 * p, r);
  }

  lemma EvenByOdd(a: int, b: int)
    requires a % 2 == 1 && (a * b) % 2 == 0
    ensures b % 2 == 0
  {
    var c := a / 2;
    assert a * b == (2 * c + 1) * b == 2 * (c * b) + b;
  }

  lemma NoSmallMultiple(x: int, m: int)
    requires 0 < x < m
    ensures !Divides(m, x)
  {
  }

  lemma SameResidue(a: int, b: int, m: int)
    requires m > 0 && a % m == b % m
    ensures Divides(m, b - a)
  {
    var q := b / m - a / m;
    assert b - a == q * m by {
      assert a == (a / m) * m + a % m;
      assert b == (b / m) * m + b % m;
      assert (b / m) * m - (a / m) * m == q * m;
    }
  }

  /** Sum of the strides 1, 2, ..., i. */
  function Tri(i: nat): nat {
    if i == 0 then 0 else Tri(i - 1) + i
  }

  lemma {:induction false} TriClosedForm(i: nat)
    ensures 2 * Tri(i) == i * (i + 1)
  {
    if i > 0 {
      TriClosedForm(i - 1);
    }
  }

  lemma TriDifference(i: nat, j: nat)
    ensures 2 * (Tri(j) - Tri(i)) == (j - i) * (i + j + 1)
  {
  }

  /** Two different triangular numbers below index 2^m never agree modulo 2^m:
      one of the two factors of twice their difference is odd and both are too small. */
  lemma TriDistinct(m: nat, i: nat, j: nat)
    requires i < j < Pow2(m)
    ensures !Divides(Pow2(m), Tri(j) - Tri(i))
  {
    if Divides(Pow2(m), Tri(j) - Tri(i)) {
      TriTwice(m, i, j);
      UnlikeFactors(m + 1, j - i, i + j + 1);
    }
  }

  /** A power of two divides no product of two smaller factors of which one is odd. */
  lemma UnlikeFactors(k: nat, d: nat, s: nat)
    requires 0 < d < Pow2(k) && 0 < s < Pow2(k) && (d + s) % 2 == 1
    ensures !Divides(Pow2(k), d * s)
  {
    if d % 2 == 1 {
      OddTimesSmall(k, d, s);
    } else {
      assert s * d == d * s;
      OddTimesSmall(k, s, d);
    }
  }

  lemma OddTimesSmall(k: nat, a: nat, b: nat)
    requires a % 2 == 1 && 0 < b < Pow2(k)
    ensures !Divides(Pow2(k), a * b)
  {
    if Divides(Pow2(k), a * b) {
      OddFactor(k, a, b);
      NoSmallMultiple(b, Pow2(k));
    }
  }

  lemma TriTwice(m: nat, i: nat, j: nat)
    requires Divides(Pow2(m), Tri(j) - Tri(i))
    ensures Divides(Pow2(m + 1), (j - i) * (i + j + 1))
  {
    var q: int :| Tri(j) - Tri(i) == q * Pow2(m);
    TriDifference(i, j);
    assert 2 * (q * Pow2(m)) == q * (2 * Pow2(m));
    DividesIntro(Pow2(m + 1), q);
  }
}
