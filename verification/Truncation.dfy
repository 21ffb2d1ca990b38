/** Protocol 2: truncation of a shared value by 2^ell with a one-time mask. */
module Truncation {
  import opened NumberTheory
  import opened SecretSharing
  import opened Beaver

  // ----- the centred residue -----

  function CenteredMod(value: int, modulus: int): int
    requires modulus > 0
  {
    value - ((value + modulus / 2) / modulus) * modulus
  }

  lemma {:induction false} CenteredRange(value: int, modulus: int)
    requires modulus > 0
    ensures -(modulus / 2) <= CenteredMod(value, modulus) < modulus - modulus / 2
    ensures Congruent(CenteredMod(value, modulus), value, modulus)
  {
    var k := (value + modulus / 2) / modulus;
    DividesIntro(modulus, -k, CenteredMod(value, modulus) - value);
  }

  /** The centred residue is the only congruent number in the centred range. */
  lemma {:induction false} CenteredUnique(value: int, t: int, modulus: int)
    requires modulus > 0 && Congruent(value, t, modulus)
    requires -(modulus / 2) <= t < modulus - modulus / 2
    ensures CenteredMod(value, modulus) == t
  {
    var h := modulus / 2;
    CenteredRange(value, modulus);
    CongruentTransitive(CenteredMod(value, modulus), value, t, modulus);
    CongruentReflexive(h, modulus);
    CongruentSum(CenteredMod(value, modulus), t, h, h, modulus);
    SmallResidue(CenteredMod(value, modulus) + h, t + h, modulus);
  }

  // ----- parameters -----

  function Kappa(q: nat, lambda: int): int {
    BitLength(q) - lambda - 2
  }

  predicate Parameters(q: nat, ell: nat, lambda: nat) {
    q >= 3 && q % 2 == 1 && ell >= 1 && lambda >= 1 && Kappa(q, lambda) > ell
  }

  /** The centred signed interval of the given number of bits. */
  predicate InBits(v: int, bits: int) {
    bits >= 1 && (var half: int := Power2(bits - 1); -half <= v < half)
  }

  /** The modular inverse of 2^ell for an odd modulus: (q+1)/2 raised to ell. */
  function InverseScale(q: nat, ell: nat): int
    requires q >= 3
  {
    Pow((q + 1) / 2, ell) % q
  }

  lemma {:induction false} PowProduct(a: int, b: int, e: nat)
    ensures Pow(a * b, e) == Pow(a, e) * Pow(b, e)
  {
    if e > 0 {
      PowProduct(a, b, e - 1);
      FourProduct(a, b, Pow(a, e - 1), Pow(b, e - 1));
    }
  }

  lemma {:induction false} FourProduct(a: int, b: int, c: int, d: int)
    ensures (a * b) * (c * d) == (a * c) * (b * d)
  {
  }

  lemma {:induction false} Power2IsPow(e: nat)
    ensures Power2(e) == Pow(2, e)
  {
    if e > 0 {
      Power2IsPow(e - 1);
    }
  }

  lemma {:induction false} InverseScaleInverts(q: nat, ell: nat)
    requires q >= 3 && q % 2 == 1
    ensures Congruent(Power2(ell) * InverseScale(q, ell), 1, q)
  {
    var h := (q + 1) / 2;
    DividesIntro(q, 1, 2 * h - 1);
    CongruentPow(2 * h, 1, ell, q);
    PowOne(ell);
    PowProduct(2, h, ell);
    Power2IsPow(ell);
    CongruentRemainder(Pow(h, ell), q);
    CongruentReflexive(Power2(ell), q);
    CongruentProduct(Power2(ell), Power2(ell), InverseScale(q, ell), Pow(h, ell), q);
    CongruentTransitive(Power2(ell) * InverseScale(q, ell), Pow(2 * h, ell), 1, q);
  }

  /** The only residue that inverts the scale, so the same one as the modular inverse. */
  lemma {:induction false} InverseScaleUnique(q: nat, ell: nat, z: int)
    requires q >= 3 && q % 2 == 1 && Canonical(z, q) && Congruent(Power2(ell) * z, 1, q)
    ensures z == InverseScale(q, ell)
  {
    hide Power2, Pow, Congruent;
    var s, i := Power2(ell), InverseScale(q, ell);
    InverseScaleInverts(q, ell);
    CongruentReflexive(z, q);
    CongruentReflexive(i, q);
    CongruentProduct(z, z, s * i, 1, q);
    CongruentProduct(i, i, s * z, 1, q);
    Rotate(z, s, i);
    CongruentSymmetric(z * (s * i), z, q);
    CongruentTransitive(z, z * (s * i), i, q);
    SmallResidue(z, i, q);
  }

  lemma {:induction false} Rotate(z: int, s: int, i: int)
    ensures z * (s * i) == i * (s * z)
  {
  }

  /** A prime modulus that meets the size requirement is odd. */
  lemma {:induction false} PrimeModulusIsOdd(q: nat, ell: nat, lambda: nat)
    requires Prime(q) && ell >= 1 && lambda >= 1 && Kappa(q, lambda) > ell
    ensures Parameters(q, ell, lambda)
  {
    DividesIsZeroRemainder(2, q);
  }

  /** The parameters in numbers: a modulus of `bits` bits leaves bits - 2 - lambda of them for a message. */
  lemma {:induction false} ParametersAre(q: nat, ell: nat, lambda: nat, bits: nat)
    requires bits >= 1 && Power2(bits - 1) <= q < Power2(bits)
    ensures Kappa(q, lambda) == bits - 2 - lambda
    ensures Parameters(q, ell, lambda) <==>
      q >= 3 && q % 2 == 1 && ell >= 1 && lambda >= 1 && bits - 2 - lambda > ell
    ensures forall v: int :: InBits(v, bits) <==> 0 <= 2 * v + Power2(bits) < 2 * Power2(bits)
  {
    BitLengthBounds(q);
    if BitLength(q) < bits {
      Power2Grows(BitLength(q), bits - 1);
    } else if bits < BitLength(q) {
      Power2Grows(bits, BitLength(q) - 1);
    }
  }

  // ----- the arithmetic of each step -----

  function MaskShare(party: int, m: int, r: int, rPrime: int, ell: nat, q: int): int
    requires q >= 3
  {
    var s := Add(Add(m, MultiplyPublic(r, Power2(ell), q), q), rPrime, q);
    if party == 0 then AddPublic(s, Power2(ell) / 2, q) else s
  }

  function LowBits(masked: int, ell: nat): int {
    CenteredMod(masked - Power2(ell) / 2, Power2(ell))
  }

  function FinishOne(m: int, rPrime: int, masked: int, ell: nat, q: nat): int
    requires q >= 3
  {
    MultiplyPublic(SubtractPublic(Add(m, rPrime, q), LowBits(masked, ell), q), InverseScale(q, ell), q)
  }

  function FinishTwo(m: int, rPrime: int, ell: nat, q: nat): int
    requires q >= 3
  {
    MultiplyPublic(Add(m, rPrime, q), InverseScale(q, ell), q)
  }

  /** floor((m + r')/2^ell + 1/2): what the protocol computes. */
  function Truncated(m: int, rPrime: int, ell: nat): int {
    (m + rPrime + Power2(ell) / 2) / Power2(ell)
  }

  /** floor(m/2^ell + 1/2), the way the source computes it. */
  function PaperRoundDivide(m: int, ell: nat): int {
    (m - CenteredMod(m, Power2(ell))) / Power2(ell)
  }

  /** The masked value before reduction. */
  function MaskedValue(m: int, r: int, rPrime: int, ell: nat): int {
    m + r * Power2(ell) + rPrime + Power2(ell) / 2
  }

  // ----- bounds -----

  lemma {:induction false} PowersOrdered(q: nat, ell: nat, lambda: nat)
    requires Parameters(q, ell, lambda)
    ensures var b, k := BitLength(q), Kappa(q, lambda);
      && b >= 4 && k - ell + lambda == b - 2 - ell >= 1
      && Power2(ell) * Power2(b - 3 - ell) == Power2(b - 3)
      && Power2(k - 1) <= Power2(b - 3) && 2 * Power2(b - 3) <= q / 2
    ensures var k := Kappa(q, lambda); 2 <= Power2(ell) <= Power2(k - 1)
  {
    hide BitLength, Power2;
    var b, k := BitLength(q), Kappa(q, lambda);
    BitLengthBounds(q);
    Power2Sum(ell, b - 3 - ell);
    Power2Grows(k - 1, b - 3);
    Power2Grows(ell, k - 1);
    Power2Grows(1, ell);
    FirstPowers(b - 3);
  }

  lemma {:induction false} FirstPowers(e: nat)
    ensures Power2(1) == 2 && Power2(e + 2) == 4 * Power2(e)
  {
  }

  lemma {:induction false} ScaleIsEven(ell: nat)
    requires ell >= 1
    ensures Power2(ell) == 2 * (Power2(ell) / 2) && Power2(ell) / 2 == Power2(ell - 1)
  {
    var h := Power2(ell - 1);
    assert Power2(ell) == 2 * h;
    hide Power2;
    RemainderUnique(2, h, 0, 2 * h);
  }

  /** The mask never wraps: the masked value stays in the centred range of q. */
  lemma {:induction false} MaskNeverWraps(q: nat, ell: nat, lambda: nat, m: int, r: int, rPrime: int)
    requires Parameters(q, ell, lambda) && InBits(m, Kappa(q, lambda))
    requires InBits(r, Kappa(q, lambda) - ell + lambda) && InBits(rPrime, ell)
    ensures -(q / 2) <= MaskedValue(m, r, rPrime, ell) < q - q / 2
  {
    hide BitLength, Power2;
    PowersOrdered(q, ell, lambda);
    ScaleIsEven(ell);
    ScaledRange(r, Power2(BitLength(q) - 3 - ell), Power2(ell));
  }

  lemma {:induction false} ScaledRange(r: int, p: int, s: int)
    requires -p <= r < p && s > 0
    ensures -(s * p) <= r * s <= s * p - s
  {
    NonpositiveProduct(s, -(r + p));
    NonpositiveProduct(s, r - (p - 1));
    assert s * (r + p) == r * s + s * p && s * (r - (p - 1)) == r * s - s * p + s;
  }

  lemma {:induction false} ExactDivision(s: int, t: int)
    requires s > 0
    ensures (s * t) / s == t
  {
    RemainderUnique(s, t, 0, s * t);
  }

  /** The low bits taken from the masked value are those of m + r'; removing them leaves T * 2^ell. */
  lemma {:induction false} LowBitsRemoved(m: int, r: int, rPrime: int, ell: nat)
    requires ell >= 1
    ensures m + rPrime - LowBits(MaskedValue(m, r, rPrime, ell), ell) == Truncated(m, rPrime, ell) * Power2(ell)
  {
    var s, v := Power2(ell), m + rPrime;
    var h := s / 2;
    CenteredRange(v, s);
    DividesIntro(s, r, MaskedValue(m, r, rPrime, ell) - h - v);
    CongruentSymmetric(CenteredMod(v, s), v, s);
    CongruentTransitive(MaskedValue(m, r, rPrime, ell) - h, v, CenteredMod(v, s), s);
    CenteredUnique(MaskedValue(m, r, rPrime, ell) - h, CenteredMod(v, s), s);
  }

  /** What T means: m over the scale, off by less than one unit, exact on multiples, near the paper's rounding. */
  lemma {:induction false} TruncatedMeaning(q: nat, ell: nat, lambda: nat, m: int, rPrime: int)
    requires Parameters(q, ell, lambda) && InBits(m, Kappa(q, lambda)) && InBits(rPrime, ell)
    ensures var s: int, t := Power2(ell), Truncated(m, rPrime, ell);
      && -s < t * s - m < s
      && (m % s == 0 ==> t * s == m)
      && -1 <= t - PaperRoundDivide(m, ell) <= 1
      && -(q / 2) <= t < q - q / 2
  {
    hide BitLength, Power2;
    PowersOrdered(q, ell, lambda);
    ScaleIsEven(ell);
    var s: int, c := Power2(ell), rPrime + Power2(ell) / 2;
    DivisionBrackets(m, c, s);
    PaperForm(m, ell);
    NearQuotients(m, c, s / 2, s);
    QuotientSize(m, Truncated(m, rPrime, ell), s);
  }

  lemma {:induction false} DivisionBrackets(m: int, c: int, s: int)
    requires 0 <= c < s
    ensures var t := (m + c) / s; t * s <= m + c < t * s + s && (m % s == 0 ==> t * s == m)
  {
    var t := (m + c) / s;
    assert m + c == s * t + (m + c) % s;
    if m % s == 0 {
      assert m == s * (m / s);
      RemainderUnique(s, m / s, c, m + c);
    }
  }

  lemma {:induction false} PaperForm(m: int, ell: nat)
    requires ell >= 1
    ensures PaperRoundDivide(m, ell) == (m + Power2(ell) / 2) / Power2(ell)
  {
    var s := Power2(ell);
    var k := (m + s / 2) / s;
    assert m - CenteredMod(m, s) == s * k;
    ExactDivision(s, k);
  }

  lemma {:induction false} NearQuotients(m: int, c: int, d: int, s: int)
    requires 0 <= c < s && 0 <= d < s
    ensures -1 <= (m + c) / s - (m + d) / s <= 1
  {
    var k := m / s;
    var x := m % s;
    assert m == s * k + x;
    SmallSum(s, k, x, c, m);
    SmallSum(s, k, x, d, m);
  }

  lemma {:induction false} SmallSum(s: int, k: int, x: int, c: int, m: int)
    requires m == s * k + x && 0 <= x < s && 0 <= c < s
    ensures (m + c) / s == k || (m + c) / s == k + 1
  {
    if x + c < s {
      RemainderUnique(s, k, x + c, m + c);
    } else {
      assert s * (k + 1) == s * k + s;
      RemainderUnique(s, k + 1, x + c - s, m + c);
    }
  }

  lemma {:induction false} QuotientSize(m: int, t: int, s: int)
    requires s >= 1 && -s < t * s - m < s
    ensures (t >= 1 ==> t <= m) && (t <= -1 ==> m <= t)
  {
    if t >= 1 {
      StepAside(s, t - 1);
    } else if t <= -1 {
      StepAside(s, -t - 1);
    }
  }

  lemma {:induction false} StepAside(s: int, n: int)
    requires s >= 1 && n >= 0
    ensures s * n >= n && (n + 1) * s == s * n + s && (-n - 1) * s == -(s * n) - s
  {
    NonpositiveProduct(n, 1 - s);
    assert n * (s - 1) == s * n - n;
  }

  // ----- the protocol -----

  lemma {:induction false} MaskSharesMean(m0: int, m1: int, m: int, r0: int, r1: int, r: int,
      p0: int, p1: int, rPrime: int, ell: nat, q: nat)
    requires q >= 3 && Shares(m0, m1, m, q) && Shares(r0, r1, r, q) && Shares(p0, p1, rPrime, q)
    ensures Shares(MaskShare(0, m0, r0, p0, ell, q), MaskShare(1, m1, r1, p1, ell, q),
                   MaskedValue(m, r, rPrime, ell), q)
  {
    hide Congruent, Add, AddPublic, MultiplyPublic, Shares, Power2;
    var s := Power2(ell);
    LinearOperations(r0, r1, r, r0, r1, r, s, q);
    var x0, x1 := MultiplyPublic(r0, s, q), MultiplyPublic(r1, s, q);
    LinearOperations(m0, m1, m, x0, x1, r * s, 0, q);
    var y0, y1 := Add(m0, x0, q), Add(m1, x1, q);
    LinearOperations(y0, y1, m + r * s, p0, p1, rPrime, 0, q);
    var z0, z1 := Add(y0, p0, q), Add(y1, p1, q);
    LinearOperations(z0, z1, m + r * s + rPrime, z0, z1, m + r * s + rPrime, s / 2, q);
  }

  lemma {:induction false} FinishSharesMean(m0: int, m1: int, m: int, p0: int, p1: int, rPrime: int,
      masked: int, ell: nat, q: nat)
    requires q >= 3 && q % 2 == 1 && Shares(m0, m1, m, q) && Shares(p0, p1, rPrime, q)
    requires m + rPrime - LowBits(masked, ell) == Truncated(m, rPrime, ell) * Power2(ell)
    ensures Shares(FinishOne(m0, p0, masked, ell, q), FinishTwo(m1, p1, ell, q), Truncated(m, rPrime, ell), q)
  {
    hide Congruent, Add, SubtractPublic, MultiplyPublic, Shares, Power2, InverseScale, LowBits, Truncated;
    var low, inv, t := LowBits(masked, ell), InverseScale(q, ell), Truncated(m, rPrime, ell);
    LinearOperations(m0, m1, m, p0, p1, rPrime, 0, q);
    var x0, x1 := Add(m0, p0, q), Add(m1, p1, q);
    LinearOperations(x0, x1, m + rPrime, x0, x1, m + rPrime, low, q);
    var y0 := SubtractPublic(x0, low, q);
    LinearOperations(y0, x1, t * Power2(ell), y0, x1, t * Power2(ell), inv, q);
    InverseScaleInverts(q, ell);
    CongruentReflexive(t, q);
    CongruentProduct(t, t, Power2(ell) * inv, 1, q);
    Associate(t, Power2(ell), inv);
    SharesOfCongruent(FinishOne(m0, p0, masked, ell, q), FinishTwo(m1, p1, ell, q), t * Power2(ell) * inv, t, q);
  }

  lemma {:induction false} Associate(a: int, b: int, c: int)
    ensures a * (b * c) == a * b * c && a * 1 == a
  {
  }

  /** Protocol 2 for every message, every mask and every sharing: P1 recovers the exact masked value, and the
      two output shares centre to T. */
  lemma {:induction false} Protocol2Truncates(q: nat, ell: nat, lambda: nat, m: int, r: int, rPrime: int,
      m0: int, m1: int, r0: int, r1: int, p0: int, p1: int)
    requires Parameters(q, ell, lambda) && InBits(m, Kappa(q, lambda))
    requires InBits(r, Kappa(q, lambda) - ell + lambda) && InBits(rPrime, ell)
    requires Shares(m0, m1, m, q) && Shares(r0, r1, r, q) && Shares(p0, p1, rPrime, q)
    ensures var masked :=
        CenteredMod(Reconstruct(MaskShare(0, m0, r0, p0, ell, q), MaskShare(1, m1, r1, p1, ell, q), q), q);
      && masked == MaskedValue(m, r, rPrime, ell)
      && Shares(FinishOne(m0, p0, masked, ell, q), FinishTwo(m1, p1, ell, q), Truncated(m, rPrime, ell), q)
      && CenteredMod(Reconstruct(FinishOne(m0, p0, masked, ell, q), FinishTwo(m1, p1, ell, q), q), q)
         == Truncated(m, rPrime, ell)
  {
    hide Congruent, Shares, MaskShare, FinishOne, FinishTwo, CenteredMod, MaskedValue, Truncated, LowBits, InBits;
    var a, b := MaskShare(0, m0, r0, p0, ell, q), MaskShare(1, m1, r1, p1, ell, q);
    var masked, t := MaskedValue(m, r, rPrime, ell), Truncated(m, rPrime, ell);
    MaskSharesMean(m0, m1, m, r0, r1, r, p0, p1, rPrime, ell, q);
    ReconstructMeaning(a, b, masked, q);
    MaskNeverWraps(q, ell, lambda, m, r, rPrime);
    CenteredUnique(Reconstruct(a, b, q), masked, q);
    LowBitsRemoved(m, r, rPrime, ell);
    FinishSharesMean(m0, m1, m, p0, p1, rPrime, masked, ell, q);
    var c, d := FinishOne(m0, p0, masked, ell, q), FinishTwo(m1, p1, ell, q);
    ReconstructMeaning(c, d, t, q);
    TruncatedMeaning(q, ell, lambda, m, rPrime);
    CenteredUnique(Reconstruct(c, d, q), t, q);
  }
}
