/** Divisibility, congruence, and Fermat's little theorem. */
module NumberTheory {

  function Product(a: int, b: int): int {
    a * b
  }

  ghost predicate Divides(d: int, n: int) {
    exists k: int :: Product(d, k) == n
  }

  ghost predicate Congruent(a: int, b: int, n: int) {
    Divides(n, a - b)
  }

  ghost predicate Prime(n: int) {
    2 <= n && forall d :: 2 <= d < n ==> !Divides(d, n)
  }

  function Pow(b: int, e: nat): int {
    if e == 0 then 1 else b * Pow(b, e - 1)
  }

  // ----- divisibility -----

  lemma {:induction false} DividesIntro(d: int, k: int, n: int)
    requires n == d * k
    ensures Divides(d, n)
  {
    assert Product(d, k) == n;
  }

  lemma {:induction false} Quotient(d: int, n: int) returns (k: int)
    requires Divides(d, n)
    ensures n == d * k
  {
    k :| Product(d, k) == n;
  }

  lemma {:induction false} DividesZero(d: int)
    ensures Divides(d, 0)
  {
    DividesIntro(d, 0, 0);
  }

  lemma {:induction false} DividesSum(d: int, a: int, b: int)
    requires Divides(d, a) && Divides(d, b)
    ensures Divides(d, a + b) && Divides(d, a - b)
  {
    var k := Quotient(d, a);
    var l := Quotient(d, b);
    DividesIntro(d, k + l, a + b);
    DividesIntro(d, k - l, a - b);
  }

  lemma {:induction false} DividesMultiple(d: int, a: int, c: int)
    requires Divides(d, a)
    ensures Divides(d, a * c) && Divides(d, c * a)
  {
    var k := Quotient(d, a);
    assert a * c == d * (k * c) && c * a == d * (k * c);
    DividesIntro(d, k * c, a * c);
  }

  lemma {:induction false} DividesTransitive(a: int, b: int, c: int)
    requires Divides(a, b) && Divides(b, c)
    ensures Divides(a, c)
  {
    var k := Quotient(a, b);
    var l := Quotient(b, c);
    assert c == a * (k * l);
    DividesIntro(a, k * l, c);
  }

  lemma {:induction false} DivisorBound(d: int, n: int)
    requires Divides(d, n) && n > 0 && d > 0
    ensures d <= n
  {
    var k := Quotient(d, n);
    if k <= 0 {
      NonpositiveProduct(d, k);
      assert false;
    }
    assert d * k == d + d * (k - 1);
    NonpositiveProduct(d, 1 - k);
  }

  lemma {:induction false} NonpositiveProduct(d: int, k: int)
    requires d >= 0 && k <= 0
    ensures d * k <= 0
    ensures d * (-k) >= 0
  {
  }

  lemma {:induction false} DividesIsZeroRemainder(d: int, n: int)
    requires d > 0
    ensures Divides(d, n) <==> n % d == 0
  {
    if n % d == 0 {
      DividesIntro(d, n / d, n);
    }
    if Divides(d, n) {
      var k := Quotient(d, n);
      RemainderUnique(d, k, 0, n);
    }
  }

  lemma {:induction false} RemainderUnique(d: int, k: int, r: int, n: int)
    requires d > 0 && n == d * k + r && 0 <= r < d
    ensures n % d == r && n / d == k
  {
    var q := n / d;
    var s := n % d;
    assert n == d * q + s;
    if k < q {
      assert d * (q - k) == r - s;
      StepProduct(d, q - k);
    } else if q < k {
      assert d * (k - q) == s - r;
      StepProduct(d, k - q);
    }
  }

  lemma {:induction false} StepProduct(d: int, k: int)
    requires d > 0 && k >= 1
    ensures d * k >= d
  {
    assert d * k == d + d * (k - 1);
    NonpositiveProduct(d, 1 - k);
  }

  // ----- congruence -----

  lemma {:induction false} CongruentReflexive(a: int, n: int)
    ensures Congruent(a, a, n)
  {
    DividesZero(n);
  }

  lemma {:induction false} CongruentSymmetric(a: int, b: int, n: int)
    requires Congruent(a, b, n)
    ensures Congruent(b, a, n)
  {
    DividesZero(n);
    DividesSum(n, 0, a - b);
  }

  lemma {:induction false} CongruentTransitive(a: int, b: int, c: int, n: int)
    requires Congruent(a, b, n) && Congruent(b, c, n)
    ensures Congruent(a, c, n)
  {
    DividesSum(n, a - b, b - c);
  }

  lemma {:induction false} CongruentSum(a: int, b: int, c: int, d: int, n: int)
    requires Congruent(a, b, n) && Congruent(c, d, n)
    ensures Congruent(a + c, b + d, n)
  {
    DividesSum(n, a - b, c - d);
    assert (a - b) + (c - d) == (a + c) - (b + d);
  }

  lemma {:induction false} CongruentProduct(a: int, b: int, c: int, d: int, n: int)
    requires Congruent(a, b, n) && Congruent(c, d, n)
    ensures Congruent(a * c, b * d, n)
  {
    DividesMultiple(n, a - b, c);
    DividesMultiple(n, c - d, b);
    DividesSum(n, (a - b) * c, b * (c - d));
    assert (a - b) * c + b * (c - d) == a * c - b * d;
  }

  lemma {:induction false} CongruentPow(a: int, b: int, e: nat, n: int)
    requires Congruent(a, b, n)
    ensures Congruent(Pow(a, e), Pow(b, e), n)
  {
    if e == 0 {
      CongruentReflexive(1, n);
    } else {
      CongruentPow(a, b, e - 1, n);
      CongruentProduct(a, b, Pow(a, e - 1), Pow(b, e - 1), n);
    }
  }

  lemma {:induction false} CongruentRemainder(a: int, n: int)
    requires n > 0
    ensures Congruent(a, a % n, n) && Congruent(a % n, a, n)
  {
    DividesIntro(n, a / n, a - a % n);
    CongruentSymmetric(a, a % n, n);
  }

  lemma {:induction false} CongruentDifference(a: int, b: int, c: int, d: int, n: int)
    requires Congruent(a, b, n) && Congruent(c, d, n)
    ensures Congruent(a - c, b - d, n)
  {
    DividesSum(n, a - b, c - d);
    assert (a - b) - (c - d) == (a - c) - (b - d);
  }

  /** Congruence is equality of remainders. */
  lemma {:induction false} CongruentIsSameRemainder(a: int, b: int, n: int)
    requires n > 0
    ensures Congruent(a, b, n) <==> a % n == b % n
  {
    CongruentRemainder(a, n);
    CongruentRemainder(b, n);
    if Congruent(a, b, n) {
      var k := Quotient(n, a - b);
      assert a == n * (b / n + k) + b % n;
      RemainderUnique(n, b / n + k, b % n, a);
    }
    if a % n == b % n {
      CongruentTransitive(a, a % n, b, n);
    }
  }

  /** Congruent representatives within the range are equal. */
  lemma {:induction false} SmallResidue(a: int, b: int, n: int)
    requires 0 <= a < n && 0 <= b < n && Congruent(a, b, n)
    ensures a == b
  {
    CongruentIsSameRemainder(a, b, n);
    RemainderUnique(n, 0, a, a);
    RemainderUnique(n, 0, b, b);
  }

  // ----- powers -----

  lemma {:induction false} PowOne(e: nat)
    ensures Pow(1, e) == 1
  {
    if e > 0 {
      PowOne(e - 1);
    }
  }

  lemma {:induction false} PowPositive(b: int, e: nat)
    requires b >= 1
    ensures Pow(b, e) >= 1
  {
    if e > 0 {
      PowPositive(b, e - 1);
      StepProduct(b, Pow(b, e - 1));
    }
  }

  lemma {:induction false} PowAdd(b: int, m: nat, n: nat)
    ensures Pow(b, m + n) == Pow(b, m) * Pow(b, n)
  {
    if m > 0 {
      PowAdd(b, m - 1, n);
      assert b * (Pow(b, m - 1) * Pow(b, n)) == (b * Pow(b, m - 1)) * Pow(b, n);
    }
  }

  lemma {:induction false} PowMultiply(b: int, m: nat, n: nat)
    ensures m * n >= 0 && Pow(b, m * n) == Pow(Pow(b, m), n)
  {
    if n == 0 {
    } else {
      PowMultiply(b, m, n - 1);
      assert m * n == m + m * (n - 1);
      PowAdd(b, m, m * (n - 1));
    }
  }

  // ----- powers of two -----

  function Power2(i: nat): (r: nat)
    ensures r > 0
  {
    if i == 0 then 1 else 2 * Power2(i - 1)
  }

  /** The number of binary digits: bit_length. */
  function BitLength(n: nat): nat {
    if n == 0 then 0 else 1 + BitLength(n / 2)
  }

  lemma {:induction false} DoubledFactor(d: int, p: int)
    ensures d * (2 * p) == d * p + d * p == 2 * (d * p)
  {
  }

  lemma {:induction false} Power2Sum(a: nat, b: nat)
    ensures Power2(a + b) == Power2(a) * Power2(b)
  {
    if a > 0 {
      Power2Sum(a - 1, b);
      TwiceProduct(Power2(a - 1), Power2(b), Power2(a));
    }
  }

  lemma {:induction false} TwiceProduct(x: nat, y: nat, z: nat)
    requires z == 2 * x
    ensures z * y == 2 * (x * y)
  {
  }

  /** bit_length brackets a positive number between consecutive powers of two. */
  lemma {:induction false} BitLengthBounds(n: nat)
    requires n > 0
    ensures BitLength(n) >= 1 && Power2(BitLength(n) - 1) <= n < Power2(BitLength(n))
  {
    if n > 1 {
      BitLengthBounds(n / 2);
    }
  }

  lemma {:induction false} Power2Grows(a: nat, b: nat)
    requires a <= b
    ensures Power2(a) <= Power2(b)
    decreases b
  {
    if a < b {
      Power2Grows(a, b - 1);
    }
  }

  lemma {:induction false} ShortNumber(n: nat, bits: nat)
    requires n < Power2(bits)
    ensures BitLength(n) <= bits
    decreases bits
  {
    if n > 0 {
      ShortNumber(n / 2, bits - 1);
    }
  }

  // ----- primes -----

  /** A number a prime does not divide is invertible modulo it. */
  lemma {:induction false} Bezout(p: int, a: int) returns (x: int, y: int)
    requires Prime(p) && 1 <= a < p
    ensures a * x + p * y == 1
    decreases a
  {
    if a == 1 {
      return 1, 0;
    }
    var q, r := p / a, p % a;
    DividesIsZeroRemainder(a, p);
    var x', y' := Bezout(p, r);
    x, y := -(q * x'), x' + y';
    BezoutArithmetic(p, a, q, r, x', y');
  }

  lemma {:induction false} BezoutArithmetic(p: int, a: int, q: int, r: int, x: int, y: int)
    requires p == a * q + r && r * x + p * y == 1
    ensures a * -(q * x) + p * (x + y) == 1
  {
    assert r * x == p * x - (a * q) * x;
    assert (a * q) * x == a * (q * x);
  }

  /** Euclid's lemma. */
  lemma {:induction false} PrimeDividesFactor(p: int, a: int, b: int)
    requires Prime(p) && Divides(p, a * b)
    ensures Divides(p, a) || Divides(p, b)
  {
    DividesIsZeroRemainder(p, a);
    if a % p != 0 {
      var r := a % p;
      var x, y := Bezout(p, r);
      CongruentRemainder(a, p);
      DividesMultiple(p, a - r, b);
      DividesSum(p, a * b, (a - r) * b);
      DividesMultiple(p, r * b, x);
      DividesIntro(p, y * b, p * (y * b));
      DividesSum(p, r * b * x, p * (y * b));
      BezoutScaled(p, a, b, r, x, y);
    }
  }

  lemma {:induction false} BezoutScaled(p: int, a: int, b: int, r: int, x: int, y: int)
    requires r * x + p * y == 1
    ensures a * b - (a - r) * b == r * b && r * b * x + p * (y * b) == b
  {
    assert r * b * x + p * (y * b) == (r * x + p * y) * b;
  }

  lemma {:induction false} PrimeDividesPow(p: int, a: int, e: nat)
    requires Prime(p) && Divides(p, Pow(a, e))
    ensures Divides(p, a)
  {
    if e == 0 {
      DivisorBound(p, 1);
    } else {
      PrimeDividesFactor(p, a, Pow(a, e - 1));
      if Divides(p, Pow(a, e - 1)) {
        PrimeDividesPow(p, a, e - 1);
      }
    }
  }

  /** A prime power dividing a product with a factor free of the prime divides the other factor. */
  lemma {:induction false} PrimePowerDividesFactor(p: int, e: nat, a: int, b: int)
    requires Prime(p) && !Divides(p, a) && Divides(Pow(p, e), a * b)
    ensures Divides(Pow(p, e), b)
    decreases e
  {
    if e == 0 {
      DividesIntro(1, b, b);
    } else {
      var k := Quotient(Pow(p, e), a * b);
      var smaller := Pow(p, e - 1);
      assert a * b == p * (smaller * k);
      DividesIntro(p, smaller * k, a * b);
      PrimeDividesFactor(p, a, b);
      var b' := Quotient(p, b);
      assert p * (a * b') == p * (smaller * k);
      Cancel(p, a * b', smaller * k);
      DividesIntro(smaller, k, a * b');
      PrimePowerDividesFactor(p, e - 1, a, b');
      var l := Quotient(smaller, b');
      assert b == (p * smaller) * l;
      DividesIntro(Pow(p, e), l, b);
    }
  }

  lemma {:induction false} Cancel(p: int, a: int, b: int)
    requires p > 0 && p * a == p * b
    ensures a == b
  {
    assert p * (b - a) == p * b - p * a && p * (a - b) == p * a - p * b;
    if a < b {
      StepProduct(p, b - a);
    } else if b < a {
      StepProduct(p, a - b);
    }
  }

  /** A number above 1 that is not prime has a prime factor at most its square root. */
  lemma {:induction false} SmallPrimeFactor(n: int) returns (s: int)
    requires n >= 2 && !Prime(n)
    ensures Prime(s) && Divides(s, n) && s * s <= n
  {
    s := LeastDivisor(n, 2);
    var k := Quotient(s, n);
    assert k >= 2 by {
      if k <= 0 {
        NonpositiveProduct(s, k);
      }
    }
    DividesIntro(k, s, n);
    assert k >= s;
    assert s * s <= s * k by {
      NonpositiveProduct(s, s - k);
      assert s * (k - s) == s * k - s * s;
    }
  }

  lemma {:induction false} LeastDivisor(n: int, from: int) returns (s: int)
    requires 2 <= from <= n && !Prime(n)
    requires forall d :: 2 <= d < from ==> !Divides(d, n)
    ensures from <= s < n && Divides(s, n) && Prime(s)
    ensures forall d :: 2 <= d < s ==> !Divides(d, n)
    decreases n - from
  {
    if Divides(from, n) {
      s := from;
      forall d | 2 <= d < s ensures !Divides(d, s) {
        if Divides(d, s) {
          DividesTransitive(d, s, n);
        }
      }
    } else {
      s := LeastDivisor(n, from + 1);
    }
  }

  // ----- Fermat's little theorem, through the binomial theorem -----

  function Choose(n: nat, k: nat): nat {
    if k == 0 then 1
    else if n == 0 then 0
    else Choose(n - 1, k) + Choose(n - 1, k - 1)
  }

  lemma {:induction false} ChooseAbove(n: nat, k: nat)
    requires k > n
    ensures Choose(n, k) == 0
  {
    if n > 0 {
      ChooseAbove(n - 1, k);
      ChooseAbove(n - 1, k - 1);
    }
  }

  lemma {:induction false} ChooseAll(n: nat)
    ensures Choose(n, n) == 1
  {
    if n > 0 {
      ChooseAbove(n - 1, n);
      ChooseAll(n - 1);
    }
  }

  /** (k+1) * C(n+1, k+1) == (n+1) * C(n, k). */
  lemma {:induction false} Absorption(n: nat, k: nat)
    ensures (k + 1) * Choose(n + 1, k + 1) == (n + 1) * Choose(n, k)
    decreases n
  {
    if n == 0 {
      if k > 0 {
        ChooseAbove(1, k + 1);
      }
    } else {
      Absorption(n - 1, k);
      var c, d := Choose(n, k), Choose(n, k + 1);
      assert (k + 1) * d == n * Choose(n - 1, k);
      if k == 0 {
        assert Choose(n + 1, 1) == d + c;
      } else {
        Absorption(n - 1, k - 1);
        assert k * c == n * Choose(n - 1, k - 1);
        assert c == Choose(n - 1, k) + Choose(n - 1, k - 1);
        assert Choose(n + 1, k + 1) == d + c;
        AbsorptionArithmetic(n, k, c, d, Choose(n - 1, k), Choose(n - 1, k - 1));
      }
    }
  }

  lemma {:induction false} AbsorptionArithmetic(n: int, k: int, c: int, d: int, x: int, y: int)
    requires (k + 1) * d == n * x && k * c == n * y && c == x + y
    ensures (k + 1) * (d + c) == (n + 1) * c
  {
    assert (k + 1) * (d + c) == n * x + n * y + c;
    assert n * x + n * y == n * c;
  }

  /** The first j terms of the expansion of (a+1)^n. */
  function BinomialSum(a: int, n: nat, j: nat): int {
    if j == 0 then 0 else BinomialSum(a, n, j - 1) + Choose(n, j - 1) * Pow(a, j - 1)
  }

  lemma {:induction false} BinomialStep(a: int, n: nat, j: nat)
    ensures BinomialSum(a, n + 1, j + 1) == BinomialSum(a, n, j + 1) + a * BinomialSum(a, n, j)
  {
    if j == 0 {
      assert BinomialSum(a, n + 1, 1) == BinomialSum(a, n + 1, 0) + Choose(n + 1, 0) * Pow(a, 0);
      assert BinomialSum(a, n, 1) == BinomialSum(a, n, 0) + Choose(n, 0) * Pow(a, 0);
    } else {
      BinomialStep(a, n, j - 1);
      StepTerms(a, Choose(n, j), Choose(n, j - 1), Pow(a, j - 1), BinomialSum(a, n, j - 1));
    }
  }

  lemma {:induction false} StepTerms(a: int, c: int, d: int, p: int, s: int)
    ensures a * s + (c + d) * (a * p) == c * (a * p) + a * (s + d * p)
  {
  }

  lemma {:induction false} BinomialTheorem(a: int, n: nat)
    ensures Pow(a + 1, n) == BinomialSum(a, n, n + 1)
  {
    if n == 0 {
      assert BinomialSum(a, 0, 1) == BinomialSum(a, 0, 0) + Choose(0, 0) * Pow(a, 0);
    } else {
      BinomialTheorem(a, n - 1);
      BinomialStep(a, n - 1, n);
      ChooseAbove(n - 1, n);
      assert BinomialSum(a, n - 1, n + 1) == BinomialSum(a, n - 1, n) + Choose(n - 1, n) * Pow(a, n);
    }
  }

  lemma {:induction false} PrimeDividesChoose(p: int, k: nat)
    requires Prime(p) && 1 <= k < p
    ensures Divides(p, Choose(p, k))
  {
    Absorption(p - 1, k - 1);
    DividesIntro(p, Choose(p - 1, k - 1), k * Choose(p, k));
    PrimeDividesFactor(p, k, Choose(p, k));
    if Divides(p, k) {
      DivisorBound(p, k);
    }
  }

  /** All terms but the first and the last vanish modulo p. */
  lemma {:induction false} MiddleVanishes(a: int, p: int, j: nat)
    requires Prime(p) && 1 <= j <= p
    ensures Congruent(BinomialSum(a, p, j), 1, p)
    decreases j
  {
    if j == 1 {
      assert BinomialSum(a, p, 1) == BinomialSum(a, p, 0) + Choose(p, 0) * Pow(a, 0);
      CongruentReflexive(1, p);
    } else {
      MiddleVanishes(a, p, j - 1);
      PrimeDividesChoose(p, j - 1);
      DividesMultiple(p, Choose(p, j - 1), Pow(a, j - 1));
      CongruentSum(BinomialSum(a, p, j - 1), 1, Choose(p, j - 1) * Pow(a, j - 1), 0, p);
    }
  }

  lemma {:induction false} FermatNatural(a: nat, p: int)
    requires Prime(p)
    ensures Congruent(Pow(a, p), a, p)
  {
    if a == 0 {
      CongruentReflexive(0, p);
    } else {
      var b := a - 1;
      FermatNatural(b, p);
      BinomialTheorem(b, p);
      MiddleVanishes(b, p, p);
      ChooseAll(p);
      assert Pow(a, p) == BinomialSum(b, p, p) + Choose(p, p) * Pow(b, p);
      CongruentSum(BinomialSum(b, p, p), 1, Pow(b, p), b, p);
    }
  }

  /** Fermat's little theorem. */
  lemma {:induction false} Fermat(a: nat, p: int)
    requires Prime(p) && !Divides(p, a)
    ensures Congruent(Pow(a, p - 1), 1, p)
  {
    FermatNatural(a, p);
    assert Pow(a, p) - a == a * (Pow(a, p - 1) - 1);
    PrimeDividesFactor(p, a, Pow(a, p - 1) - 1);
  }

  /** Two exponents that give 1 have a common divisor that gives 1. */
  lemma {:induction false} CommonExponent(a: int, u: nat, v: nat, s: int) returns (g: nat)
    requires u > 0 && v > 0
    requires Congruent(Pow(a, u), 1, s) && Congruent(Pow(a, v), 1, s)
    ensures g > 0 && Divides(g, u) && Divides(g, v) && Congruent(Pow(a, g), 1, s)
    decreases u + v
  {
    if u == v {
      g := u;
      DividesIntro(g, 1, u);
    } else if u > v {
      ExponentDifference(a, u, v, s);
      g := CommonExponent(a, u - v, v, s);
      DividesSum(g, u - v, v);
    } else {
      ExponentDifference(a, v, u, s);
      g := CommonExponent(a, u, v - u, s);
      DividesSum(g, v - u, u);
    }
  }

  lemma {:induction false} ExponentDifference(a: int, u: nat, v: nat, s: int)
    requires u > v && Congruent(Pow(a, u), 1, s) && Congruent(Pow(a, v), 1, s)
    ensures Congruent(Pow(a, u - v), 1, s)
  {
    PowAdd(a, u - v, v);
    var x := Pow(a, u - v);
    CongruentReflexive(x, s);
    CongruentProduct(x, x, Pow(a, v), 1, s);
    CongruentSymmetric(x * Pow(a, v), x * 1, s);
    CongruentTransitive(x, Pow(a, u), 1, s);
  }

  lemma {:induction false} PowOfOne(a: int, g: nat, k: nat, s: int)
    requires Congruent(Pow(a, g), 1, s)
    ensures g * k >= 0 && Congruent(Pow(a, g * k), 1, s)
  {
    PowMultiply(a, g, k);
    CongruentPow(Pow(a, g), 1, k, s);
    PowOne(k);
  }
}
