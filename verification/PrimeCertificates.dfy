/** The Miller-Rabin screen and the recursive Pocklington certificate checker. */
module PrimeCertificates {
  import opened NumberTheory
  import opened Options

  datatype Factor = Factor(prime: nat, exponent: nat, base: nat, certificate: Option<Certificate>)
  datatype Certificate = Certificate(candidate: nat, factors: seq<Factor>)

  datatype Reason =
    | InvalidModulus | Composite | EvidenceRequired | CandidateMismatch | HashMismatch
    | IncompleteFactorization | InvalidFactorCertificate | InvalidWitness | ResourceLimitExceeded

  datatype Outcome = Pass | Fail(reason: Reason)

  const MR64_LIMIT: nat := 0x1_0000_0000_0000_0000
  const BASES: seq<nat> := [2, 325, 9375, 28178, 450775, 9780504, 1795265022]
  const SMALL_PRIMES: seq<nat> := [2, 3, 5, 7, 11, 13, 17, 19, 23, 29, 31, 37]
  const MAX_BITS := 4096
  const MAX_DEPTH := 32
  const MAX_NODES := 256
  const MAX_EXPONENT := 4096

  // ----- the builtins the source calls -----

  function PowMod(b: int, e: nat, n: int): int
    requires n > 0
  {
    Pow(b, e) % n
  }

  function Gcd(a: nat, b: nat): nat
    decreases b
  {
    if b == 0 then a else Gcd(b, a % b)
  }

  lemma {:induction false} CommonDivisorDividesGcd(s: int, a: nat, b: nat)
    requires Divides(s, a) && Divides(s, b)
    ensures Divides(s, Gcd(a, b))
    decreases b
  {
    if b > 0 {
      DividesMultiple(s, b, a / b);
      DividesSum(s, a, b * (a / b));
      CommonDivisorDividesGcd(s, b, a % b);
    }
  }

  // ----- the screen -----

  function OddPart(m: nat): (d: nat)
    requires m > 0
    ensures d > 0
  {
    if m % 2 == 0 then OddPart(m / 2) else m
  }

  function Twos(m: nat): nat
    requires m > 0
  {
    if m % 2 == 0 then 1 + Twos(m / 2) else 0
  }

  lemma {:induction false} OddDecomposition(m: nat)
    requires m > 0
    ensures m == OddPart(m) * Power2(Twos(m))
  {
    if m % 2 == 0 {
      OddDecomposition(m / 2);
      DoubledFactor(OddPart(m / 2), Power2(Twos(m / 2)));
    }
  }

  /** b raised to the odd part of n-1, squared i times. */
  function Squared(b: nat, n: nat, i: nat): (r: int)
    requires n >= 2
    ensures 0 <= r < n
  {
    Pow(b, OddPart(n - 1) * Power2(i)) % n
  }

  lemma {:induction false} SquaredCongruent(b: nat, n: nat, i: nat, e: nat)
    requires n >= 2 && e == OddPart(n - 1) * Power2(i)
    ensures Congruent(Squared(b, n, i), Pow(b, e), n)
  {
    CongruentRemainder(Pow(b, e), n);
  }

  lemma {:induction false} SquaredStep(b: nat, n: nat, i: nat)
    requires n >= 2
    ensures Congruent(Squared(b, n, i + 1), Squared(b, n, i) * Squared(b, n, i), n)
    ensures Squared(b, n, i + 1) == Squared(b, n, i) * Squared(b, n, i) % n
  {
    var d, e := OddPart(n - 1), OddPart(n - 1) * Power2(i);
    DoubledFactor(d, Power2(i));
    SquaredCongruent(b, n, i, e);
    SquaredCongruent(b, n, i + 1, e + e);
    hide Squared, Pow, Congruent, OddPart, Power2;
    var y := Squared(b, n, i);
    PowAdd(b, e, e);
    CongruentProduct(y, Pow(b, e), y, Pow(b, e), n);
    CongruentSymmetric(y * y, Pow(b, e + e), n);
    CongruentTransitive(Squared(b, n, i + 1), Pow(b, e + e), y * y, n);
    CongruentRemainder(y * y, n);
    CongruentTransitive(Squared(b, n, i + 1), y * y, y * y % n, n);
    SmallResidue(Squared(b, n, i + 1), y * y % n, n);
  }

  predicate StrongProbable(n: nat, b: nat)
    requires n >= 2
  {
    || b % n == 0
    || Squared(b, n, 0) == 1
    || Squared(b, n, 0) == n - 1
    || exists i :: 1 <= i < Twos(n - 1) && Squared(b, n, i) == n - 1
  }

  predicate PassesScreen(n: nat) {
    n >= 2 && (n in SMALL_PRIMES ||
      ((forall i :: 0 <= i < |SMALL_PRIMES| ==> n % SMALL_PRIMES[i] != 0) &&
       (forall i :: 0 <= i < |BASES| ==> StrongProbable(n, BASES[i]))))
  }

  /** The repeated squaring of one base: found means the loop broke out. */
  method TestBase(n: nat, base: nat, exponent: nat, twos: nat) returns (ok: bool)
    requires n >= 2 && exponent == OddPart(n - 1) && twos == Twos(n - 1)
    ensures ok <==> StrongProbable(n, base)
  {
    if base % n == 0 {
      return true;
    }
    var residue := PowMod(base, exponent, n);
    assert exponent * Power2(0) == exponent;
    if residue == 1 || residue == n - 1 {
      return true;
    }
    var round := 1;
    while round < twos
      invariant 1 <= round
      invariant round <= twos || round == 1
      invariant residue == Squared(base, n, round - 1)
      invariant forall i :: 0 <= i < round ==> Squared(base, n, i) != n - 1
    {
      SquaredStep(base, n, round - 1);
      residue := residue * residue % n;
      if residue == n - 1 {
        return true;
      }
      round := round + 1;
    }
    return false;
  }

  method Screen(value: nat) returns (ok: bool)
    ensures ok <==> PassesScreen(value)
  {
    hide StrongProbable, OddPart, Twos;
    if value < 2 {
      return false;
    }
    if value in SMALL_PRIMES {
      return true;
    }
    if exists i :: 0 <= i < |SMALL_PRIMES| && value % SMALL_PRIMES[i] == 0 {
      return false;
    }
    var exponent, twos := SplitTwos(value - 1);
    ok := TestBases(value, exponent, twos);
  }

  method SplitTwos(m: nat) returns (exponent: nat, twos: nat)
    requires m > 0
    ensures exponent == OddPart(m) && twos == Twos(m)
  {
    exponent, twos := m, 0;
    while exponent % 2 == 0
      invariant exponent > 0
      invariant OddPart(exponent) == OddPart(m)
      invariant twos + Twos(exponent) == Twos(m)
      decreases exponent
    {
      exponent := exponent / 2;
      twos := twos + 1;
    }
  }

  method TestBases(value: nat, exponent: nat, twos: nat) returns (ok: bool)
    requires value >= 2 && exponent == OddPart(value - 1) && twos == Twos(value - 1)
    ensures ok <==> forall i :: 0 <= i < |BASES| ==> StrongProbable(value, BASES[i])
  {
    hide StrongProbable, OddPart, Twos;
    for k := 0 to |BASES|
      invariant forall i :: 0 <= i < k ==> StrongProbable(value, BASES[i])
    {
      var strong := TestBase(value, BASES[k], exponent, twos);
      if !strong {
        return false;
      }
    }
    return true;
  }

  /** Modulo a prime, the only square roots of 1 are 1 and -1. */
  lemma {:induction false} RootsOfOne(y: int, p: int)
    requires Prime(p) && Congruent(y * y, 1, p) && 0 <= y < p
    ensures y == 1 || y == p - 1
  {
    assert y * y - 1 == (y - 1) * (y + 1);
    PrimeDividesFactor(p, y - 1, y + 1);
    if Divides(p, y - 1) {
      SmallResidue(y, 1, p);
    } else {
      DividesIntro(p, 1, p);
      DividesSum(p, y + 1, p);
      SmallResidue(y, p - 1, p);
    }
  }

  lemma {:induction false} DescendFromOne(b: nat, n: nat, i: nat)
    requires Prime(n) && Squared(b, n, i) == 1 && i <= Twos(n - 1)
    ensures StrongProbable(n, b)
    decreases i
  {
    if i > 0 {
      hide Squared, Pow, Divides, Congruent, Twos, Prime;
      var y := Squared(b, n, i - 1);
      SquaredStep(b, n, i - 1);
      CongruentSymmetric(1, y * y, n);
      RootsOfOne(y, n);
      if y == 1 {
        DescendFromOne(b, n, i - 1);
      }
    }
  }

  lemma {:induction false} FermatSquared(n: nat, b: nat)
    requires Prime(n) && !Divides(n, b)
    ensures Squared(b, n, Twos(n - 1)) == 1
  {
    OddDecomposition(n - 1);
    SquaredCongruent(b, n, Twos(n - 1), n - 1);
    hide Pow, Divides, Congruent, OddPart, Twos, Power2, Squared;
    Fermat(b, n);
    CongruentTransitive(Squared(b, n, Twos(n - 1)), Pow(b, n - 1), 1, n);
    SmallResidue(Squared(b, n, Twos(n - 1)), 1, n);
  }

  lemma {:induction false} PrimeIsStrong(n: nat, b: nat)
    requires Prime(n)
    ensures StrongProbable(n, b)
  {
    DividesIsZeroRemainder(n, b);
    if b % n != 0 {
      FermatSquared(n, b);
      hide StrongProbable, Squared;
      DescendFromOne(b, n, Twos(n - 1));
    }
  }

  /** The screen never rejects a prime, of any size. */
  lemma {:induction false} PrimePassesScreen(n: nat)
    requires Prime(n)
    ensures PassesScreen(n)
  {
    if n !in SMALL_PRIMES {
      forall i | 0 <= i < |SMALL_PRIMES| ensures n % SMALL_PRIMES[i] != 0 {
        var p := SMALL_PRIMES[i];
        assert p in SMALL_PRIMES && p >= 2;
        DividesIsZeroRemainder(p, n);
        if n % p == 0 {
          DivisorBound(p, n);
        }
      }
      forall i | 0 <= i < |BASES| ensures StrongProbable(n, BASES[i]) {
        PrimeIsStrong(n, BASES[i]);
      }
    }
  }

  // ----- the screen in terms of congruences alone -----

  /** With n - 1 = d * 2^twos: b is a multiple of n, or b^d is 1, or one of b^d, b^2d, ..., b^(d*2^(twos-1)) is -1. */
  ghost predicate StrongAt(n: nat, b: nat, d: nat, twos: nat) {
    || Divides(n, b) || Congruent(Pow(b, d), 1, n)
    || exists r: nat :: r < twos && Congruent(Pow(b, d * Power2(r)), -1, n)
  }

  ghost predicate StrongToSeven(n: nat, d: nat, twos: nat) {
    && StrongAt(n, 2, d, twos) && StrongAt(n, 325, d, twos) && StrongAt(n, 9375, d, twos)
    && StrongAt(n, 28178, d, twos) && StrongAt(n, 450775, d, twos) && StrongAt(n, 9780504, d, twos)
    && StrongAt(n, 1795265022, d, twos)
  }

  /** The published computation the source relies on: below 2^64, an odd number that is a strong probable prime to
      the bases 2, 325, 9375, 28178, 450775, 9780504 and 1795265022 is prime. */
  ghost predicate SevenBasesExact() {
    forall n: nat, d: nat, twos: nat ::
      (2 < n < 0x1_0000_0000_0000_0000 && n % 2 == 1 && d % 2 == 1 && n - 1 == d * Power2(twos)
       && StrongToSeven(n, d, twos))
      ==> Prime(n)
  }

  ghost predicate SmallPrime(n: nat) {
    n in {2, 3, 5, 7, 11, 13, 17, 19, 23, 29, 31, 37}
  }

  lemma {:induction false} SmallPrimesListed(n: nat)
    ensures n in SMALL_PRIMES <==> SmallPrime(n)
  {
    assert SMALL_PRIMES[0] == 2 && SMALL_PRIMES[1] == 3 && SMALL_PRIMES[2] == 5 && SMALL_PRIMES[3] == 7;
    assert SMALL_PRIMES[4] == 11 && SMALL_PRIMES[5] == 13 && SMALL_PRIMES[6] == 17 && SMALL_PRIMES[7] == 19;
    assert SMALL_PRIMES[8] == 23 && SMALL_PRIMES[9] == 29 && SMALL_PRIMES[10] == 31 && SMALL_PRIMES[11] == 37;
  }

  /** The odd part and the number of twos are the only such pair. */
  lemma {:induction false} OnlyDecomposition(m: nat, d: nat, twos: nat)
    requires m > 0 && d % 2 == 1 && m == d * Power2(twos)
    ensures d == OddPart(m) && twos == Twos(m)
    decreases twos
  {
    if twos > 0 {
      DoubledFactor(d, Power2(twos - 1));
      OnlyDecomposition(m / 2, d, twos - 1);
    }
  }

  lemma {:induction false} OddPartIsOdd(m: nat)
    requires m > 0
    ensures OddPart(m) % 2 == 1
  {
    if m % 2 == 0 {
      OddPartIsOdd(m / 2);
    }
  }

  lemma {:induction false} SquaredIs(b: nat, n: nat, r: nat, value: int)
    requires n >= 2 && value in {1, -1}
    ensures Squared(b, n, r) == value % n <==> Congruent(Pow(b, OddPart(n - 1) * Power2(r)), value, n)
  {
    CongruentIsSameRemainder(Pow(b, OddPart(n - 1) * Power2(r)), value, n);
  }

  lemma {:induction false} MinusOne(n: nat)
    requires n >= 2
    ensures -1 % n == n - 1 && 1 % n == 1
  {
    RemainderUnique(n, -1, n - 1, -1);
  }

  /** What the loop over one base decides. */
  lemma {:induction false} StrongMeaning(n: nat, b: nat)
    requires n > 2 && n % 2 == 1
    ensures StrongProbable(n, b) <==> StrongAt(n, b, OddPart(n - 1), Twos(n - 1))
  {
    hide Squared, Pow, OddPart, Divides, Congruent;
    var d, twos := OddPart(n - 1), Twos(n - 1);
    assert twos >= 1;
    hide Twos;
    DividesIsZeroRemainder(n, b);
    MinusOne(n);
    assert d * Power2(0) == d;
    SquaredIs(b, n, 0, 1);
    forall r: nat ensures Squared(b, n, r) == n - 1 <==> Congruent(Pow(b, d * Power2(r)), -1, n) {
      SquaredIs(b, n, r, -1);
    }
    hide Power2;
    if r: nat :| r < twos && Congruent(Pow(b, d * Power2(r)), -1, n) {
      assert Squared(b, n, r) == n - 1;
    }
    if i :| 1 <= i < twos && Squared(b, n, i) == n - 1 {
      assert Congruent(Pow(b, d * Power2(i)), -1, n);
    }
  }

  /** The screen, exactly: a small prime, or no multiple of one and strong to all seven bases. */
  lemma {:induction false} ScreenMeaning(n: nat)
    ensures PassesScreen(n) <==>
      || SmallPrime(n)
      || (n > 2 && (forall p: nat :: SmallPrime(p) ==> !Divides(p, n))
          && StrongToSeven(n, OddPart(n - 1), Twos(n - 1)))
  {
    hide StrongProbable, StrongAt, Twos, OddPart;
    SmallPrimesListed(n);
    forall p: nat ensures SmallPrime(p) ==> (Divides(p, n) <==> n % p == 0) {
      if SmallPrime(p) {
        DividesIsZeroRemainder(p, n);
      }
    }
    forall p: nat ensures p in SMALL_PRIMES <==> SmallPrime(p) {
      SmallPrimesListed(p);
    }
    assert forall i :: 0 <= i < |SMALL_PRIMES| ==> SMALL_PRIMES[i] in SMALL_PRIMES;
    if n > 2 && forall p: nat :: SmallPrime(p) ==> !Divides(p, n) {
      assert SmallPrime(2);
      SevenBases(n);
    }
    if n >= 2 && !SmallPrime(n) && forall i :: 0 <= i < |SMALL_PRIMES| ==> n % SMALL_PRIMES[i] != 0 {
      forall p: nat | SmallPrime(p) ensures !Divides(p, n) {
        assert p in SMALL_PRIMES;
      }
    }
  }

  lemma {:induction false} SevenBases(n: nat)
    requires n > 2 && n % 2 == 1
    ensures (forall i :: 0 <= i < |BASES| ==> StrongProbable(n, BASES[i]))
       <==> StrongToSeven(n, OddPart(n - 1), Twos(n - 1))
  {
    forall b: nat ensures StrongProbable(n, b) <==> StrongAt(n, b, OddPart(n - 1), Twos(n - 1)) {
      StrongMeaning(n, b);
    }
    hide StrongProbable, StrongAt, Twos, OddPart;
    assert BASES[0] == 2 && BASES[1] == 325 && BASES[2] == 9375 && BASES[3] == 28178 && BASES[4] == 450775;
    assert BASES[5] == 9780504 && BASES[6] == 1795265022;
  }

  lemma {:induction false} SmallPrimesArePrime(n: nat)
    requires SmallPrime(n)
    ensures Prime(n)
  {
    if !Prime(n) {
      var s := SmallPrimeFactor(n);
      PrimeIsAtLeastTwo(s);
      hide Prime, Divides;
      if s >= 7 {
        SquareAtLeast(s);
      }
      DividesIsZeroRemainder(s, n);
      assert false;
    }
  }

  lemma {:induction false} SquareAtLeast(s: int)
    requires s >= 7
    ensures s * s >= 49
  {
  }

  /** Below 2^64 the screen decides primality, on the published computation. */
  lemma {:induction false} ScreenIsExact(n: nat)
    requires SevenBasesExact() && n < 0x1_0000_0000_0000_0000
    ensures PassesScreen(n) <==> Prime(n)
  {
    hide StrongToSeven, Prime, PassesScreen, Twos, OddPart;
    ScreenMeaning(n);
    if Prime(n) {
      PrimePassesScreen(n);
    } else if PassesScreen(n) {
      if SmallPrime(n) {
        SmallPrimesArePrime(n);
      } else {
        assert SmallPrime(2);
        DividesIsZeroRemainder(2, n);
        OddDecomposition(n - 1);
        OddPartIsOdd(n - 1);
      }
    }
  }

  // ----- what makes a certificate acceptable -----

  function FactorProduct(fs: seq<Factor>): int {
    if fs == [] then 1
    else FactorProduct(fs[..|fs| - 1]) * Pow(fs[|fs| - 1].prime, fs[|fs| - 1].exponent)
  }

  predicate DistinctPrimes(fs: seq<Factor>) {
    forall i, j :: 0 <= i < j < |fs| ==> fs[i].prime != fs[j].prime
  }

  function PrimeSet(fs: seq<Factor>): set<int> {
    set k | 0 <= k < |fs| :: fs[k].prime
  }

  lemma {:induction false} NextPrime(fs: seq<Factor>, i: nat)
    requires i < |fs|
    ensures PrimeSet(fs[..i + 1]) == PrimeSet(fs[..i]) + {fs[i].prime}
    ensures DistinctPrimes(fs[..i + 1]) <==> DistinctPrimes(fs[..i]) && fs[i].prime !in PrimeSet(fs[..i])
    ensures DistinctPrimes(fs) ==> DistinctPrimes(fs[..i + 1])
  {
    var short, long := fs[..i], fs[..i + 1];
    assert long == short + [fs[i]];
    forall k | 0 <= k < i
      ensures long[k] == short[k] && short[k].prime in PrimeSet(short) && long[k].prime in PrimeSet(long)
    {
    }
    assert long[i].prime in PrimeSet(long);
  }

  lemma {:induction false} NoPrimes(fs: seq<Factor>)
    ensures PrimeSet(fs[..0]) == {} && DistinctPrimes(fs[..0])
  {
  }

  predicate ValidFactor(f: Factor, n: nat, depth: nat, active: set<nat>)
    decreases f
  {
    f.exponent <= MAX_EXPONENT &&
    if f.prime < MR64_LIMIT then PassesScreen(f.prime)
    else f.certificate.Some? && ValidCertificate(f.certificate.value, f.prime, depth + 1, active + {n})
  }

  predicate ValidWitness(f: Factor, n: nat)
    requires f.prime > 0
  {
    && 1 < f.base < n
    && PowMod(f.base, n - 1, n) == 1
    && Gcd(Distance(PowMod(f.base, (n - 1) / f.prime, n), 1), n) == 1
  }

  function Distance(a: int, b: int): nat {
    if a >= b then a - b else b - a
  }

  predicate ValidCertificate(c: Certificate, n: nat, depth: nat, active: set<nat>)
    decreases c
  {
    && c.candidate == n && depth <= MAX_DEPTH && BitLength(n) <= MAX_BITS && n !in active
    && PassesScreen(n)
    && DistinctPrimes(c.factors)
    && (forall k :: 0 <= k < |c.factors| ==> ValidFactor(c.factors[k], n, depth, active))
    && (forall k :: 0 <= k < |c.factors| ==> c.factors[k].prime > 0)
    && FactorProduct(c.factors) > 0
    && (n - 1) % FactorProduct(c.factors) == 0
    && FactorProduct(c.factors) * FactorProduct(c.factors) > n
    && (forall k :: 0 <= k < |c.factors| ==> ValidWitness(c.factors[k], n))
  }

  /** Nodes charged for a certificate: itself, its factors, and the certificates of its large factors. */
  function Size(c: Certificate): nat
    decreases c, |c.factors| + 1
  {
    1 + |c.factors| + NestedSize(c, |c.factors|)
  }

  function NestedSize(c: Certificate, k: nat): nat
    requires k <= |c.factors|
    decreases c, k
  {
    if k == 0 then 0 else NestedSize(c, k - 1) + FactorSize(c.factors[k - 1])
  }

  function FactorSize(f: Factor): nat
    decreases f, 0
  {
    if f.prime >= MR64_LIMIT && f.certificate.Some? then Size(f.certificate.value) else 0
  }

  // ----- the checker -----

  /** The mutable budget shared by one verification. */
  class Budget {
    var nodes: nat
    var active: set<nat>

    constructor ()
      ensures nodes == 0 && active == {}
    {
      nodes, active := 0, {};
    }
  }

  method VerifyPocklington(c: Certificate, expected: nat, depth: nat, budget: Budget) returns (r: Outcome)
    modifies budget
    ensures r.Pass? <==>
      ValidCertificate(c, expected, depth, old(budget.active)) && old(budget.nodes) + Size(c) <= MAX_NODES
    ensures r.Pass? ==> budget.nodes == old(budget.nodes) + Size(c)
    ensures budget.active == old(budget.active)
    ensures r == Fail(CandidateMismatch) <==> c.candidate != expected
    ensures r == Fail(Composite) ==> !PassesScreen(expected)
    ensures r.Fail? ==> r.reason in {CandidateMismatch, ResourceLimitExceeded, Composite, IncompleteFactorization,
                                     InvalidFactorCertificate, InvalidWitness}
    ensures ValidCertificate(c, expected, depth, old(budget.active)) && r.Fail? ==> r == Fail(ResourceLimitExceeded)
    decreases c, 1
  {
    if c.candidate != expected {
      return Fail(CandidateMismatch);
    }
    if depth > MAX_DEPTH || BitLength(expected) > MAX_BITS {
      return Fail(ResourceLimitExceeded);
    }
    if expected in budget.active {
      return Fail(ResourceLimitExceeded);
    }
    budget.nodes := budget.nodes + 1 + |c.factors|;
    if budget.nodes > MAX_NODES {
      return Fail(ResourceLimitExceeded);
    }
    var screened := Screen(expected);
    if !screened {
      return Fail(Composite);
    }
    ghost var before := budget.active;
    budget.active := budget.active + {expected};
    r := CheckFactors(c, expected, depth, budget, before);
    budget.active := budget.active - {expected};
  }

  /** Whether one factor is a prime the checker accepts: screened when small, certified when large. */
  method CheckFactor(f: Factor, n: nat, depth: nat, budget: Budget, ghost before: set<nat>) returns (r: Outcome)
    requires n !in before && budget.active == before + {n} && budget.nodes <= MAX_NODES
    modifies budget
    ensures r.Pass? <==> ValidFactor(f, n, depth, before) && old(budget.nodes) + FactorSize(f) <= MAX_NODES
    ensures r.Pass? ==> budget.nodes == old(budget.nodes) + FactorSize(f)
    ensures budget.active == old(budget.active)
    ensures r.Fail? ==> r.reason in {ResourceLimitExceeded, InvalidFactorCertificate}
    ensures ValidFactor(f, n, depth, before) && r.Fail? ==> r == Fail(ResourceLimitExceeded)
    decreases f, 2
  {
    if f.exponent > MAX_EXPONENT {
      return Fail(ResourceLimitExceeded);
    }
    if f.prime < MR64_LIMIT {
      var screened := Screen(f.prime);
      return if screened then Pass else Fail(InvalidFactorCertificate);
    }
    if f.certificate.None? {
      return Fail(InvalidFactorCertificate);
    }
    r := VerifyPocklington(f.certificate.value, f.prime, depth + 1, budget);
    if r.Fail? && r.reason != ResourceLimitExceeded {
      return Fail(InvalidFactorCertificate);
    }
  }

  /** The guarded body: every factor, their product, and every witness. */
  method CheckFactors(c: Certificate, n: nat, depth: nat, budget: Budget, ghost before: set<nat>)
    returns (r: Outcome)
    requires c.candidate == n && depth <= MAX_DEPTH && BitLength(n) <= MAX_BITS && PassesScreen(n)
    requires n >= 2 && n !in before && budget.active == before + {n} && budget.nodes <= MAX_NODES
    modifies budget
    ensures r.Pass? <==>
      ValidCertificate(c, n, depth, before) && old(budget.nodes) + NestedSize(c, |c.factors|) <= MAX_NODES
    ensures r.Pass? ==> budget.nodes == old(budget.nodes) + NestedSize(c, |c.factors|)
    ensures budget.active == old(budget.active)
    ensures r.Fail? ==> r.reason in {ResourceLimitExceeded, IncompleteFactorization, InvalidFactorCertificate,
                                     InvalidWitness}
    ensures ValidCertificate(c, n, depth, before) && r.Fail? ==> r == Fail(ResourceLimitExceeded)
    ensures r == Fail(InvalidWitness) ==>
      exists k :: 0 <= k < |c.factors| && c.factors[k].prime > 0 && !ValidWitness(c.factors[k], n)
    ensures r == Fail(InvalidFactorCertificate) ==>
      || !DistinctPrimes(c.factors) || exists k :: 0 <= k < |c.factors| && !ValidFactor(c.factors[k], n, depth, before)
    ensures r == Fail(IncompleteFactorization) ==>
      || (exists k :: 0 <= k <= |c.factors| && FactorProduct(c.factors[..k]) > n - 1)
      || (var known := FactorProduct(c.factors); known > 0 && ((n - 1) % known != 0 || known * known <= n))
    decreases c, 0
  {
    hide ValidFactor, PassesScreen, Pow, BitLength, ValidWitness, FactorSize, DistinctPrimes, PrimeSet;
    NoPrimes(c.factors);
    var known, distinct := 1, {};
    for i := 0 to |c.factors|
      invariant budget.active == before + {n}
      invariant budget.nodes == old(budget.nodes) + NestedSize(c, i) <= MAX_NODES
      invariant distinct == PrimeSet(c.factors[..i])
      invariant DistinctPrimes(c.factors[..i])
      invariant forall k :: 0 <= k < i ==> ValidFactor(c.factors[k], n, depth, before)
      invariant forall k :: 0 <= k < i ==> c.factors[k].prime >= 2
      invariant known == FactorProduct(c.factors[..i]) && 1 <= known <= n - 1
    {
      var f := c.factors[i];
      NextPrime(c.factors, i);
      if f.prime in distinct {
        return Fail(InvalidFactorCertificate);
      }
      distinct := distinct + {f.prime};
      NestedGrows(c, i + 1, |c.factors|);
      r := CheckFactor(f, n, depth, budget, before);
      if r.Fail? {
        return;
      }
      ValidFactorIsAtLeastTwo(f, n, depth, before);
      NextProduct(c.factors, i);
      PartialProductBound(c, n, depth, before, i + 1);
      PowPositive(f.prime, f.exponent);
      StepBound(known, Pow(f.prime, f.exponent));
      var power := RaiseBounded(f.prime, f.exponent, n - 1);
      if power.None? {
        return Fail(IncompleteFactorization);
      }
      known := known * power.value;
      if known > n - 1 {
        return Fail(IncompleteFactorization);
      }
    }
    assert c.factors[..|c.factors|] == c.factors;
    if (n - 1) % known != 0 {
      return Fail(IncompleteFactorization);
    }
    if known * known <= n {
      return Fail(IncompleteFactorization);
    }
    r := CheckWitnesses(c.factors, n);
  }

  method CheckWitnesses(fs: seq<Factor>, n: nat) returns (r: Outcome)
    requires forall k :: 0 <= k < |fs| ==> fs[k].prime > 0
    ensures r.Pass? <==> forall k :: 0 <= k < |fs| ==> ValidWitness(fs[k], n)
    ensures r.Fail? ==> r.reason == InvalidWitness && exists k :: 0 <= k < |fs| && !ValidWitness(fs[k], n)
  {
    for i := 0 to |fs|
      invariant forall k :: 0 <= k < i ==> ValidWitness(fs[k], n)
    {
      var f := fs[i];
      if !(1 < f.base < n) {
        return Fail(InvalidWitness);
      }
      if PowMod(f.base, n - 1, n) != 1 {
        return Fail(InvalidWitness);
      }
      var reduced := PowMod(f.base, (n - 1) / f.prime, n);
      if Gcd(Distance(reduced, 1), n) != 1 {
        return Fail(InvalidWitness);
      }
    }
    return Pass;
  }

  lemma {:induction false} NextProduct(fs: seq<Factor>, i: nat)
    requires i < |fs|
    ensures FactorProduct(fs[..i + 1]) == FactorProduct(fs[..i]) * Pow(fs[i].prime, fs[i].exponent)
  {
    assert fs[..i + 1][..i] == fs[..i];
  }

  /** Repeated multiplication that stops as soon as the bound is passed. */
  method RaiseBounded(prime: nat, exponent: nat, bound: nat) returns (power: Option<nat>)
    requires prime >= 2 && bound >= 1
    ensures power.Some? ==> power.value == Pow(prime, exponent) <= bound
    ensures power.None? ==> Pow(prime, exponent) > bound
  {
    var p := 1;
    for k := 0 to exponent
      invariant p == Pow(prime, k) && 1 <= p <= bound
    {
      assert Pow(prime, k + 1) == prime * p;
      PowPositive(prime, k + 1);
      p := p * prime;
      if p > bound {
        PowGrows(prime, k + 1, exponent);
        return None;
      }
    }
    return Some(p);
  }

  lemma {:induction false} PowGrows(b: int, m: nat, n: nat)
    requires b >= 1 && m <= n
    ensures Pow(b, m) <= Pow(b, n)
  {
    PowAdd(b, m, n - m);
    PowPositive(b, m);
    PowPositive(b, n - m);
    StepBound(Pow(b, m), Pow(b, n - m));
  }

  lemma {:induction false} StepBound(a: int, b: int)
    requires a >= 1 && b >= 1
    ensures a * b >= a && a * b >= b
  {
    StepProduct(a, b);
    StepProduct(b, a);
  }

  lemma {:induction false} NestedGrows(c: Certificate, i: nat, j: nat)
    requires i <= j <= |c.factors|
    ensures NestedSize(c, i) <= NestedSize(c, j)
    decreases j
  {
    if i < j {
      NestedGrows(c, i, j - 1);
    }
  }

  lemma {:induction false} ValidFactorIsAtLeastTwo(f: Factor, n: nat, depth: nat, active: set<nat>)
    requires ValidFactor(f, n, depth, active)
    ensures f.prime >= 2
  {
  }

  lemma {:induction false} ProductGrows(fs: seq<Factor>, i: nat)
    requires i <= |fs| && forall k :: 0 <= k < |fs| ==> fs[k].prime >= 1
    ensures 1 <= FactorProduct(fs[..i]) <= FactorProduct(fs)
    decreases |fs|
  {
    if |fs| == 0 {
      assert fs[..i] == fs;
    } else {
      var front, last := fs[..|fs| - 1], fs[|fs| - 1];
      ProductGrows(front, if i < |fs| then i else |front|);
      PowPositive(last.prime, last.exponent);
      StepBound(FactorProduct(front), Pow(last.prime, last.exponent));
      if i == |fs| {
        assert fs[..i] == fs;
      } else {
        assert fs[..i] == front[..i];
      }
    }
  }

  /** In an acceptable certificate no partial product passes n-1. */
  lemma {:induction false} PartialProductBound(c: Certificate, n: nat, depth: nat, active: set<nat>, i: nat)
    requires i <= |c.factors| && n >= 2
    ensures ValidCertificate(c, n, depth, active) ==> FactorProduct(c.factors[..i]) <= n - 1
  {
    if ValidCertificate(c, n, depth, active) {
      ProductGrows(c.factors, i);
      DividesIsZeroRemainder(FactorProduct(c.factors), n - 1);
      DivisorBound(FactorProduct(c.factors), n - 1);
    }
  }

  // ----- acceptance means primality -----

  /** The heart of Pocklington: each certified prime power divides s-1 for every prime factor s of n. */
  lemma {:induction false} PrimePowerDivides(n: nat, s: int, f: Factor)
    requires n >= 2 && Prime(s) && Divides(s, n) && Prime(f.prime)
    requires Divides(Pow(f.prime, f.exponent), n - 1) && ValidWitness(f, n)
    ensures Divides(Pow(f.prime, f.exponent), s - 1)
  {
    hide Pow, Gcd, Divides;
    var w, p := f.base, f.prime;
    CongruentIsSameRemainder(Pow(w, n - 1), 1, n);
    DividesTransitive(s, n, Pow(w, n - 1) - 1);
    WitnessCoprime(w, n - 1, s);
    Fermat(w, s);
    var g := CommonExponent(w, n - 1, s - 1, s);
    var m := Quotient(g, n - 1);
    if Divides(p, m) {
      ReducedIsOne(n, s, f, g, m);
    }
    assert m * g == g * m;
    PrimePowerDividesFactor(p, f.exponent, m, g);
    DividesTransitive(Pow(p, f.exponent), g, s - 1);
  }

  lemma {:induction false} WitnessCoprime(w: nat, e: nat, s: int)
    requires Prime(s) && e > 0 && Congruent(Pow(w, e), 1, s)
    ensures !Divides(s, w)
  {
    if Divides(s, w) {
      DividesMultiple(s, w, Pow(w, e - 1));
      DividesSum(s, Pow(w, e), Pow(w, e) - 1);
      DivisorBound(s, 1);
    }
  }

  lemma {:induction false} ReducedIsOne(n: nat, s: int, f: Factor, g: nat, m: int)
    requires n >= 2 && Prime(s) && Divides(s, n) && f.prime >= 2
    requires g > 0 && n - 1 == g * m && Congruent(Pow(f.base, g), 1, s) && Divides(f.prime, m)
    ensures !ValidWitness(f, n)
  {
    hide Pow, Gcd, Divides;
    var p, w := f.prime, f.base;
    var k := Quotient(p, m);
    assert n - 1 == p * (g * k);
    if k < 0 {
      NonpositiveProduct(g, k);
      NonpositiveProduct(p, g * k);
      assert false;
    }
    RemainderUnique(p, g * k, 0, n - 1);
    PowOfOne(w, g, k, s);
    var x, reduced := Pow(w, g * k), Pow(w, g * k) % n;
    CongruentRemainder(x, n);
    DividesTransitive(s, n, reduced - x);
    CongruentTransitive(reduced, x, 1, s);
    CongruentSymmetric(reduced, 1, s);
    CommonDivisorDividesGcd(s, Distance(reduced, 1), n);
    if ValidWitness(f, n) {
      DivisorBound(s, 1);
    }
  }

  /** A prime different from all the factors does not divide their product. */
  lemma {:induction false} OutsideProduct(p: int, fs: seq<Factor>)
    requires Prime(p) && forall k :: 0 <= k < |fs| ==> Prime(fs[k].prime) && fs[k].prime != p
    ensures !Divides(p, FactorProduct(fs))
    decreases |fs|
  {
    if fs == [] {
      if Divides(p, 1) {
        DivisorBound(p, 1);
      }
    } else {
      var front, last := fs[..|fs| - 1], fs[|fs| - 1];
      OutsideProduct(p, front);
      if Divides(p, FactorProduct(fs)) {
        PrimeDividesFactor(p, FactorProduct(front), Pow(last.prime, last.exponent));
        PrimeDividesPow(p, last.prime, last.exponent);
        DivisorBound(p, last.prime);
      }
    }
  }

  lemma {:induction false} FactorDividesProduct(fs: seq<Factor>, k: nat)
    requires k < |fs|
    ensures Divides(Pow(fs[k].prime, fs[k].exponent), FactorProduct(fs))
    decreases |fs|
  {
    var front, last := fs[..|fs| - 1], fs[|fs| - 1];
    var power := Pow(last.prime, last.exponent);
    if k == |fs| - 1 {
      DividesIntro(power, FactorProduct(front), FactorProduct(fs));
    } else {
      FactorDividesProduct(front, k);
      DividesMultiple(Pow(fs[k].prime, fs[k].exponent), FactorProduct(front), power);
    }
  }

  /** Powers of distinct primes that all divide x have a product that divides x. */
  lemma {:induction false} ProductDivides(fs: seq<Factor>, x: int)
    requires DistinctPrimes(fs) && forall k :: 0 <= k < |fs| ==> Prime(fs[k].prime)
    requires forall k :: 0 <= k < |fs| ==> Divides(Pow(fs[k].prime, fs[k].exponent), x)
    ensures Divides(FactorProduct(fs), x)
    decreases |fs|
  {
    if fs == [] {
      DividesIntro(1, x, x);
    } else {
      hide Pow, Divides;
      var front, last := fs[..|fs| - 1], fs[|fs| - 1];
      var power := Pow(last.prime, last.exponent);
      ProductDivides(front, x);
      OutsideProduct(last.prime, front);
      var y := Quotient(FactorProduct(front), x);
      PrimePowerDividesFactor(last.prime, last.exponent, FactorProduct(front), y);
      var z := Quotient(power, y);
      NestedQuotient(FactorProduct(front), y, power, z, x);
      DividesIntro(FactorProduct(fs), z, x);
    }
  }

  lemma {:induction false} NestedQuotient(f: int, y: int, power: int, z: int, x: int)
    requires x == f * y && y == power * z
    ensures x == (f * power) * z
  {
  }

  ghost predicate AllPrime(fs: seq<Factor>) {
    forall k :: 0 <= k < |fs| ==> Prime(fs[k].prime)
  }

  lemma {:induction false} CoveredPartDivides(n: nat, fs: seq<Factor>, s: int)
    requires n >= 2 && Prime(s) && Divides(s, n) && DistinctPrimes(fs) && AllPrime(fs)
    requires Divides(FactorProduct(fs), n - 1)
    requires forall k :: 0 <= k < |fs| ==> ValidWitness(fs[k], n)
    ensures Divides(FactorProduct(fs), s - 1)
  {
    hide Pow, Gcd, Divides, ValidWitness, FactorProduct, Prime, DistinctPrimes;
    forall k | 0 <= k < |fs| ensures Divides(Pow(fs[k].prime, fs[k].exponent), s - 1) {
      FactorDividesProduct(fs, k);
      DividesTransitive(Pow(fs[k].prime, fs[k].exponent), FactorProduct(fs), n - 1);
      PrimePowerDivides(n, s, fs[k]);
    }
    ProductDivides(fs, s - 1);
  }

  /** Pocklington's theorem for the factors of one certificate. */
  lemma {:induction false} PocklingtonTheorem(n: nat, fs: seq<Factor>)
    requires n >= 2 && DistinctPrimes(fs) && AllPrime(fs)
    requires FactorProduct(fs) > 0 && (n - 1) % FactorProduct(fs) == 0
    requires FactorProduct(fs) * FactorProduct(fs) > n
    requires forall k :: 0 <= k < |fs| ==> fs[k].prime > 0 && ValidWitness(fs[k], n)
    ensures Prime(n)
  {
    if !Prime(n) {
      var s := SmallPrimeFactor(n);
      assert s >= 2;
      hide Pow, Gcd, Divides, ValidWitness, FactorProduct, Prime, DistinctPrimes, AllPrime;
      var f := FactorProduct(fs);
      DividesIsZeroRemainder(f, n - 1);
      CoveredPartDivides(n, fs, s);
      DivisorBound(f, s - 1);
      SquareOrder(f, s);
    }
  }

  lemma {:induction false} SquareOrder(f: int, s: int)
    requires 0 < f < s
    ensures f * f < s * s
  {
    assert s * s == f * f + f * (s - f) + s * (s - f);
    StepProduct(f, s - f);
    StepProduct(s, s - f);
  }

  /** Whatever the nesting, an acceptable certificate certifies a prime. */
  lemma {:induction false} ValidCertificateIsPrime(c: Certificate, n: nat, depth: nat, active: set<nat>)
    requires SevenBasesExact() && ValidCertificate(c, n, depth, active)
    ensures Prime(n)
    decreases c
  {
    hide SevenBasesExact, PassesScreen;
    forall k | 0 <= k < |c.factors| ensures Prime(c.factors[k].prime) {
      var f := c.factors[k];
      assert ValidFactor(f, n, depth, active);
      if f.prime >= MR64_LIMIT {
        ValidCertificateIsPrime(f.certificate.value, f.prime, depth + 1, active + {n});
      } else {
        ScreenIsExact(f.prime);
      }
    }
    ScreenedIsAtLeastTwo(n);
    PocklingtonTheorem(n, c.factors);
  }

  lemma {:induction false} ScreenedIsAtLeastTwo(n: nat)
    requires PassesScreen(n)
    ensures n >= 2
  {
  }

  // ----- acceptance in terms of congruences and divisibility alone -----

  /** base^(n-1) is 1 modulo n, and base^((n-1)/prime) - 1 has no prime divisor in common with n. */
  ghost predicate Witnesses(f: Factor, n: nat)
    requires f.prime > 0 && n >= 2
  {
    && 1 < f.base < n && Congruent(Pow(f.base, n - 1), 1, n)
    && forall s :: Prime(s) && Divides(s, n) ==> !Divides(s, Pow(f.base, (n - 1) / f.prime) - 1)
  }

  /** What a certificate has to be: distinct factors, each prime below 2^64 or itself certified, whose powers multiply
      to a divisor of n - 1 with square above n, and a witness for each. */
  ghost predicate Certifies(c: Certificate, n: nat, depth: nat, active: set<nat>)
    decreases c
  {
    && n >= 2 && c.candidate == n && depth <= 32 && BitLength(n) <= 4096 && n !in active
    && (forall i, j :: 0 <= i < j < |c.factors| ==> c.factors[i].prime != c.factors[j].prime)
    && (forall k :: 0 <= k < |c.factors| ==> c.factors[k].prime > 0 && c.factors[k].exponent <= 4096)
    && (forall k :: 0 <= k < |c.factors| && c.factors[k].prime < 0x1_0000_0000_0000_0000 ==>
          Prime(c.factors[k].prime))
    && (forall k :: 0 <= k < |c.factors| && c.factors[k].prime >= 0x1_0000_0000_0000_0000 ==>
          && c.factors[k].certificate.Some?
          && Certifies(c.factors[k].certificate.value, c.factors[k].prime, depth + 1, active + {n}))
    && FactorProduct(c.factors) > 0 && Divides(FactorProduct(c.factors), n - 1)
    && FactorProduct(c.factors) * FactorProduct(c.factors) > n
    && (forall k :: 0 <= k < |c.factors| ==> Witnesses(c.factors[k], n))
  }

  lemma {:induction false} GcdDivides(a: nat, b: nat)
    ensures Divides(Gcd(a, b), a) && Divides(Gcd(a, b), b)
    decreases b
  {
    if b == 0 {
      DividesIntro(a, 1, a);
      DividesZero(a);
    } else {
      var g := Gcd(b, a % b);
      GcdDivides(b, a % b);
      DividesMultiple(g, b, a / b);
      DividesSum(g, b * (a / b), a % b);
    }
  }

  lemma {:induction false} SomePrimeDivisor(n: int) returns (s: int)
    requires n >= 2
    ensures Prime(s) && Divides(s, n)
  {
    if Prime(n) {
      DividesIntro(n, 1, n);
      return n;
    }
    s := SmallPrimeFactor(n);
  }

  /** Two numbers have greatest common divisor 1 exactly when no prime divides both. */
  lemma {:induction false} GcdMeaning(a: nat, n: nat)
    requires n >= 2
    ensures Gcd(a, n) == 1 <==> forall s :: Prime(s) && Divides(s, n) ==> !Divides(s, a)
  {
    hide Divides, Prime, Gcd;
    var g := Gcd(a, n);
    GcdDivides(a, n);
    if g == 1 {
      forall s | Prime(s) && Divides(s, n) ensures !Divides(s, a) {
        if Divides(s, a) {
          CommonDivisorDividesGcd(s, a, n);
          PrimeIsAtLeastTwo(s);
          DivisorBound(s, 1);
        }
      }
    } else {
      PositiveDivisor(g, n);
      var s := SomePrimeDivisor(g);
      DividesTransitive(s, g, n);
      DividesTransitive(s, g, a);
    }
  }

  lemma {:induction false} PrimeIsAtLeastTwo(s: int)
    requires Prime(s)
    ensures s >= 2
  {
  }

  lemma {:induction false} PositiveDivisor(g: nat, n: nat)
    requires Divides(g, n) && n >= 1
    ensures g >= 1
  {
    var k := Quotient(g, n);
  }

  /** Reducing modulo n and taking the distance to 1 keep the divisors shared with n. */
  lemma {:induction false} SharedDivisor(s: int, x: int, n: nat)
    requires n >= 2 && Divides(s, n)
    ensures Divides(s, Distance(x % n, 1)) <==> Divides(s, x - 1)
  {
    hide Divides;
    var y := x % n;
    CongruentRemainder(x, n);
    DifferenceDivides(s, x, y, n);
    if Divides(s, x - 1) {
      DividesSum(s, x - 1, x - y);
      DividesMultiple(s, y - 1, -1);
    }
    if Divides(s, Distance(y, 1)) {
      DividesMultiple(s, Distance(y, 1), -1);
      DividesSum(s, y - 1, x - y);
    }
  }

  lemma {:induction false} DifferenceDivides(s: int, x: int, y: int, n: nat)
    requires Divides(s, n) && Congruent(x, y, n)
    ensures Divides(s, x - y)
  {
    DividesTransitive(s, n, x - y);
  }

  lemma {:induction false} WitnessMeaning(f: Factor, n: nat)
    requires f.prime > 0 && n >= 2
    ensures ValidWitness(f, n) <==> Witnesses(f, n)
  {
    var x := Pow(f.base, (n - 1) / f.prime);
    CongruentIsSameRemainder(Pow(f.base, n - 1), 1, n);
    MinusOne(n);
    hide Divides, Prime, Pow, Gcd, Congruent, Distance;
    GcdMeaning(Distance(x % n, 1), n);
    forall s ensures Divides(s, n) ==> (Divides(s, Distance(x % n, 1)) <==> Divides(s, x - 1)) {
      if Divides(s, n) {
        SharedDivisor(s, x, n);
      }
    }
  }

  /** The checker's notion of a valid certificate is exactly that, its screens included: a certified number is prime,
      and a prime passes the screen. */
  lemma {:induction false} ValidMeansCertifies(c: Certificate, n: nat, depth: nat, active: set<nat>)
    requires SevenBasesExact()
    ensures ValidCertificate(c, n, depth, active) <==> Certifies(c, n, depth, active)
    decreases c
  {
    hide SevenBasesExact, PassesScreen, Prime, Divides, ValidWitness, Witnesses, FactorProduct, BitLength;
    forall k | 0 <= k < |c.factors|
      ensures ValidFactor(c.factors[k], n, depth, active) <==> CertifiedFactor(c.factors[k], n, depth, active)
    {
      var f := c.factors[k];
      if f.prime < MR64_LIMIT {
        ScreenIsExact(f.prime);
      } else if f.certificate.Some? {
        ValidMeansCertifies(f.certificate.value, f.prime, depth + 1, active + {n});
      }
    }
    if n >= 2 {
      if FactorProduct(c.factors) > 0 {
        DividesIsZeroRemainder(FactorProduct(c.factors), n - 1);
      }
      forall k | 0 <= k < |c.factors| && c.factors[k].prime > 0
        ensures ValidWitness(c.factors[k], n) <==> Witnesses(c.factors[k], n)
      {
        WitnessMeaning(c.factors[k], n);
      }
    }
    if ValidCertificate(c, n, depth, active) {
      ScreenedIsAtLeastTwo(n);
    }
    if Certifies(c, n, depth, active) {
      CertifiedIsPrime(c, n, depth, active);
      PrimePassesScreen(n);
    }
  }

  ghost predicate CertifiedFactor(f: Factor, n: nat, depth: nat, active: set<nat>) {
    f.exponent <= 4096 &&
    if f.prime < 0x1_0000_0000_0000_0000 then Prime(f.prime)
    else f.certificate.Some? && Certifies(f.certificate.value, f.prime, depth + 1, active + {n})
  }

  /** Nothing but the conditions themselves is needed for primality. */
  lemma {:induction false} CertifiedIsPrime(c: Certificate, n: nat, depth: nat, active: set<nat>)
    requires Certifies(c, n, depth, active)
    ensures Prime(n)
    decreases c
  {
    hide Prime, Divides, ValidWitness, Witnesses, FactorProduct, BitLength;
    forall k | 0 <= k < |c.factors|
      ensures Prime(c.factors[k].prime) && ValidWitness(c.factors[k], n)
    {
      var f := c.factors[k];
      WitnessMeaning(f, n);
      if f.prime >= 0x1_0000_0000_0000_0000 {
        CertifiedIsPrime(f.certificate.value, f.prime, depth + 1, active + {n});
      }
    }
    DividesIsZeroRemainder(FactorProduct(c.factors), n - 1);
    PocklingtonTheorem(n, c.factors);
  }

  // ----- the public entry -----

  /** Evidence as the entry sees it: the declared digest, and the digest computed from the certificate
      (None where computing it already exceeds the limits). */
  datatype Evidence = Evidence(certificate: Certificate, declared: string, actual: Option<string>)

  method VerifyPrimeModulus(modulus: int, evidence: Option<Evidence>) returns (r: Outcome)
    requires SevenBasesExact()
    ensures r.Pass? ==> Prime(modulus)
    ensures modulus < 0x1_0000_0000_0000_0000 ==> (r.Pass? <==> Prime(modulus))
    ensures modulus >= 0x1_0000_0000_0000_0000 ==>
      (r.Pass? <==> && BitLength(modulus) <= 4096 && evidence.Some?
                    && evidence.value.actual == Some(evidence.value.declared)
                    && Certifies(evidence.value.certificate, modulus, 0, {})
                    && Size(evidence.value.certificate) <= 256)
    ensures r == Fail(InvalidModulus) <==> modulus < 2
    ensures r == Fail(Composite) <==> modulus >= 2 && BitLength(modulus) <= 4096 && !PassesScreen(modulus)
    ensures Prime(modulus) ==> r != Fail(Composite)
    ensures r == Fail(EvidenceRequired) <==>
      && modulus >= 0x1_0000_0000_0000_0000 && BitLength(modulus) <= 4096 && PassesScreen(modulus) && evidence.None?
    ensures modulus >= 0x1_0000_0000_0000_0000 && BitLength(modulus) <= 4096 && PassesScreen(modulus) && evidence.Some?
      ==> && (r == Fail(CandidateMismatch) <==> evidence.value.certificate.candidate != modulus)
          && (r == Fail(HashMismatch) <==>
               && evidence.value.certificate.candidate == modulus
               && evidence.value.actual !in {None, Some(evidence.value.declared)})
    ensures modulus >= 2 && BitLength(modulus) > 4096 ==> r == Fail(ResourceLimitExceeded)
  {
    hide SevenBasesExact, PassesScreen, Prime, ValidCertificate, Certifies;
    if modulus < 2 {
      NoSmallerPrime(modulus);
      return Fail(InvalidModulus);
    }
    if modulus < MR64_LIMIT {
      LimitIsPower();
      ShortNumber(modulus, 64);
      ScreenIsExact(modulus);
    }
    if Prime(modulus) {
      PrimePassesScreen(modulus);
    }
    if BitLength(modulus) > MAX_BITS {
      return Fail(ResourceLimitExceeded);
    }
    var screened := Screen(modulus);
    if !screened {
      if evidence.Some? {
        CompositeIsNotCertified(evidence.value.certificate, modulus);
      }
      return Fail(Composite);
    }
    if modulus < MR64_LIMIT {
      return Pass;
    }
    if evidence.None? {
      return Fail(EvidenceRequired);
    }
    var e := evidence.value;
    ValidMeansCertifies(e.certificate, modulus, 0, {});
    if e.certificate.candidate != modulus {
      NotItsCertificate(e.certificate, modulus);
      return Fail(CandidateMismatch);
    }
    if e.actual.None? {
      return Fail(ResourceLimitExceeded);
    }
    if e.actual.value != e.declared {
      return Fail(HashMismatch);
    }
    var budget := new Budget();
    r := VerifyPocklington(e.certificate, modulus, 0, budget);
    if r.Pass? {
      ValidCertificateIsPrime(e.certificate, modulus, 0, {});
    }
  }

  lemma {:induction false} CompositeIsNotCertified(c: Certificate, n: nat)
    requires !PassesScreen(n)
    ensures !Certifies(c, n, 0, {})
  {
    hide PassesScreen, Certifies, Prime;
    if Certifies(c, n, 0, {}) {
      CertifiedIsPrime(c, n, 0, {});
      PrimePassesScreen(n);
      assert false;
    }
  }

  lemma {:induction false} NoSmallerPrime(n: int)
    requires n < 2
    ensures !Prime(n)
  {
  }

  lemma {:induction false} NotItsCertificate(c: Certificate, n: nat)
    requires c.candidate != n
    ensures !ValidCertificate(c, n, 0, {})
  {
  }

  lemma {:induction false} LimitIsPower()
    ensures Power2(64) == MR64_LIMIT
  {
    assert Power2(8) == 256;
    Power2Sum(8, 8);
    Power2Sum(16, 16);
    Power2Sum(32, 32);
  }
}
