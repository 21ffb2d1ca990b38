/** Fixed-point encoding, centred residues, and the error of a whole secure multiplication. */
module FixedPoint {
  import opened NumberTheory
  import opened Options
  import opened SecretSharing
  import opened Beaver
  import opened Truncation

  datatype Context = Context(modulus: int, integerBits: nat, fractionalBits: nat) {
    predicate Valid() {
      modulus >= 3 && integerBits >= 1 && Power2(integerBits - 1) <= modulus / 2
    }

    predicate InRange(payload: int)
      requires Valid()
    {
      InBits(payload, integerBits)
    }

    /** floor(x * 2^ell + 1/2) of the exact ratio, or None when the payload does not fit. */
    function Encode(numerator: int, denominator: int): Option<int>
      requires Valid() && denominator > 0
    {
      var payload := (2 * numerator * Power2(fractionalBits) + denominator) / (2 * denominator);
      if InRange(payload) then Some(payload) else None
    }

    function ToResidue(payload: int): int
      requires Valid()
    {
      payload % modulus
    }

    function FromResidue(residue: int): int
      requires Valid() && Canonical(residue, modulus)
    {
      if residue < (modulus + 1) / 2 then residue else residue - modulus
    }

    function MultiplyPair(left: int, right: int): Option<int>
      requires Valid() && Canonical(left, modulus) && Canonical(right, modulus)
    {
      var a, b := FromResidue(left), FromResidue(right);
      if !InRange(a) || !InRange(b) then None
      else if -(modulus / 2) <= a * b <= (modulus - 1) / 2 then Some((a * b) % modulus) else None
    }
  }

  /** A context is usable exactly when every payload of the width has a centred representative. */
  lemma {:induction false} ContextMeaning(c: Context)
    ensures c.Valid() <==>
      && c.modulus >= 3 && c.integerBits >= 1
      && forall v :: InBits(v, c.integerBits) ==> -(c.modulus / 2) <= v <= (c.modulus - 1) / 2
  {
    if c.integerBits >= 1 {
      var least: int := Power2(c.integerBits - 1);
      assert InBits(0 - least, c.integerBits);
    }
  }

  /** A residue's signed representative is its centred residue. */
  lemma {:induction false} FromResidueIsCentered(c: Context, residue: int)
    requires c.Valid() && Canonical(residue, c.modulus)
    ensures c.FromResidue(residue) == CenteredMod(residue, c.modulus)
  {
    var t := c.FromResidue(residue);
    DividesIntro(c.modulus, if t == residue then 0 else 1, residue - t);
    CenteredUnique(residue, t, c.modulus);
  }

  /** Encoded payloads survive the trip through Z_q. */
  lemma {:induction false} ResidueRoundTrip(c: Context, payload: int)
    requires c.Valid() && c.InRange(payload)
    ensures Canonical(c.ToResidue(payload), c.modulus)
    ensures c.FromResidue(c.ToResidue(payload)) == payload
  {
    var r := c.ToResidue(payload);
    FromResidueIsCentered(c, r);
    CongruentRemainder(payload, c.modulus);
    CenteredUnique(r, payload, c.modulus);
  }

  /** A product of two payloads is accepted exactly when it has a centred representative, which it then is. */
  lemma {:induction false} MultiplyPairMeaning(c: Context, x: int, y: int)
    requires c.Valid() && c.InRange(x) && c.InRange(y)
    ensures var p := c.MultiplyPair(c.ToResidue(x), c.ToResidue(y));
      && (p.Some? <==> -(c.modulus / 2) <= x * y <= (c.modulus - 1) / 2)
      && (p.Some? ==> Canonical(p.value, c.modulus) && c.FromResidue(p.value) == x * y)
  {
    ResidueRoundTrip(c, x);
    ResidueRoundTrip(c, y);
    var p := c.MultiplyPair(c.ToResidue(x), c.ToResidue(y));
    if p.Some? {
      FromResidueIsCentered(c, p.value);
      CongruentRemainder(x * y, c.modulus);
      CenteredUnique(p.value, x * y, c.modulus);
    }
  }

  /** Two residues are multiplied exactly when both stand for payloads and their product has a representative. */
  lemma {:induction false} MultiplyPairAccepts(c: Context, left: int, right: int)
    requires c.Valid() && Canonical(left, c.modulus) && Canonical(right, c.modulus)
    ensures var a, b, h := CenteredMod(left, c.modulus), CenteredMod(right, c.modulus), Power2(c.integerBits - 1);
      c.MultiplyPair(left, right).Some? <==>
        0 <= a + h < 2 * h && 0 <= b + h < 2 * h && -(c.modulus / 2) <= a * b <= (c.modulus - 1) / 2
  {
    FromResidueIsCentered(c, left);
    FromResidueIsCentered(c, right);
  }

  // ----- rounding -----

  /** Encoding gives the nearest payload, upward on ties, exactly when that fits in the signed width. */
  lemma {:induction false} EncodeFits(c: Context, numerator: int, denominator: int)
    requires c.Valid() && denominator > 0
    ensures var p := Nearest((numerator * Power2(c.fractionalBits)) as real / denominator as real);
      c.Encode(numerator, denominator)
      == if 0 <= p + Power2(c.integerBits - 1) < 2 * Power2(c.integerBits - 1) then Some(p) else None
  {
    hide Nearest, Power2;
    var s := Power2(c.fractionalBits);
    HalfUp(numerator, s, denominator);
    NearestOfRatio((2 * numerator * s + denominator) / (2 * denominator), numerator * s, denominator);
  }

  lemma {:induction false} HalfUp(numerator: int, s: int, denominator: int)
    requires denominator > 0
    ensures var p := (2 * numerator * s + denominator) / (2 * denominator);
      -denominator < 2 * (p * denominator - numerator * s) <= denominator
  {
    var n, d := 2 * numerator * s + denominator, 2 * denominator;
    var p := n / d;
    assert n == d * p + n % d;
    assert d * p == 2 * (p * denominator);
    assert n == 2 * (numerator * s) + denominator;
  }

  /** The rounding of the source: half a unit at most, upward on ties, exact on integers. */
  lemma {:induction false} EncodeRounds(c: Context, numerator: int, denominator: int)
    requires c.Valid() && denominator > 0 && c.Encode(numerator, denominator).Some?
    ensures var p, s := c.Encode(numerator, denominator).value, Power2(c.fractionalBits);
      && -denominator < 2 * (p * denominator - numerator * s) <= denominator
      && (denominator == 1 ==> p == numerator * s)
  {
    HalfUp(numerator, Power2(c.fractionalBits), denominator);
    hide Power2;
    if denominator == 1 {
      SecondHalf(c.Encode(numerator, 1).value, numerator * Power2(c.fractionalBits));
    }
  }

  lemma {:induction false} SecondHalf(p: int, n: int)
    requires -1 < 2 * (p * 1 - n) <= 1
    ensures p == n
  {
  }

  /** Round half up. */
  function Nearest(x: real): int {
    (x + 0.5).Floor
  }

  /** The integer formula is the rounding of the exact ratio, counted in units of 2^(-ell). */
  lemma {:induction false} EncodeIsNearest(c: Context, numerator: int, denominator: int)
    requires c.Valid() && denominator > 0 && c.Encode(numerator, denominator).Some?
    ensures c.Encode(numerator, denominator).value
         == Nearest((numerator * Power2(c.fractionalBits)) as real / denominator as real)
  {
    EncodeRounds(c, numerator, denominator);
    var p := c.Encode(numerator, denominator).value;
    hide Power2;
    NearestOfRatio(p, numerator * Power2(c.fractionalBits), denominator);
  }

  lemma {:induction false} NearestOfRatio(p: int, n: int, d: int)
    requires d > 0 && -d < 2 * (p * d - n) <= d
    ensures p == Nearest(n as real / d as real)
  {
    var x := n as real / d as real;
    RatioTimes(n, d);
    CastBounds(p, d, n);
    NearestFromBounds(x, p as real, d as real, n as real);
    FloorIs(x + 0.5, p);
  }

  lemma {:induction false} CastBounds(p: int, d: int, n: int)
    requires -d < 2 * (p * d - n) <= d
    ensures -(d as real) < 2.0 * (p as real * d as real - n as real) <= d as real
  {
    var k := p * d - n;
    assert k as real == p as real * d as real - n as real;
  }

  lemma {:induction false} FloorIs(x: real, p: int)
    requires p as real <= x < p as real + 1.0
    ensures x.Floor == p
  {
  }

  lemma {:induction false} RatioTimes(numerator: int, denominator: int)
    requires denominator > 0
    ensures numerator as real / denominator as real * denominator as real == numerator as real
  {
  }

  lemma {:induction false} NearestFromBounds(x: real, p: real, d: real, n: real)
    requires d > 0.0 && x * d == n && -d < 2.0 * (p * d - n) <= d
    ensures p <= x + 0.5 < p + 1.0
  {
    ScaledGap(p - x, d, p * d - n);
  }

  lemma {:induction false} ScaledGap(e: real, d: real, k: real)
    requires d > 0.0 && e * d == k && -d < 2.0 * k <= d
    ensures -0.5 < e <= 0.5
  {
    if e > 0.5 {
      PositiveProduct(e - 0.5, d);
    } else if e <= -0.5 {
      NonnegativeProduct(-0.5 - e, d);
    }
  }

  lemma {:induction false} PositiveProduct(a: real, b: real)
    requires a > 0.0 && b > 0.0
    ensures a * b > 0.0
  {
  }

  lemma {:induction false} NonnegativeProduct(a: real, b: real)
    requires a >= 0.0 && b >= 0.0
    ensures a * b >= 0.0
  {
  }

  function Magnitude(x: real): real {
    if x >= 0.0 then x else -x
  }

  lemma {:induction false} NearestError(x: real)
    ensures Magnitude(Nearest(x) as real - x) <= 0.5
  {
  }

  lemma {:induction false} ProductWithin(a: real, b: real, m: real, n: real)
    requires Magnitude(a) <= m && Magnitude(b) <= n
    ensures Magnitude(a * b) <= m * n
  {
    var x, y := Magnitude(a), Magnitude(b);
    NonnegativeProduct(m - x, n);
    NonnegativeProduct(x, n - y);
    assert (m - x) * n == m * n - x * n && x * (n - y) == x * n - x * y;
    assert a * b == x * y || a * b == -(x * y);
    NonnegativeProduct(x, y);
  }

  /** The error of the whole multiplication, in units of 2^(-2*ell): xs and ys are the scaled inputs, u and v
      their encodings, ts the scaled result. */
  lemma {:induction false} ErrorInUnits(xs: real, ys: real, s: real, u: real, v: real, ts: real, z: real)
    requires Magnitude(u - xs) <= 0.5 && Magnitude(v - ys) <= 0.5
    requires z == ts - u * v && Magnitude(z) < s
    ensures Magnitude(ts - xs * ys) < s + 0.5 * (Magnitude(xs) + Magnitude(ys)) + 0.25
  {
    var a, b := u - xs, v - ys;
    ExpandEncoded(xs, ys, a, b, u, v);
    ProductWithin(xs, b, Magnitude(xs), 0.5);
    ProductWithin(ys, a, Magnitude(ys), 0.5);
    ProductWithin(a, b, 0.5, 0.5);
    SumWithin(xs * b, ys * a, a * b, z, Magnitude(xs) * 0.5, Magnitude(ys) * 0.5, 0.25, s);
  }

  lemma {:induction false} ExpandEncoded(xs: real, ys: real, a: real, b: real, u: real, v: real)
    requires u == xs + a && v == ys + b
    ensures u * v - xs * ys == xs * b + ys * a + a * b
  {
  }

  lemma {:induction false} SumWithin(a: real, b: real, c: real, d: real, p: real, q: real, r: real, s: real)
    requires Magnitude(a) <= p && Magnitude(b) <= q && Magnitude(c) <= r && Magnitude(d) < s
    ensures Magnitude(d + a + b + c) < s + p + q + r
  {
  }

  // ----- the whole multiplication -----

  /** Two shares together with the message they stand for. */
  datatype Shared = Shared(first: int, second: int, message: int) {
    ghost predicate Valid(q: int) {
      Shares(first, second, message, q)
    }
  }

  /** The shares of the product after Protocol 1: both masks opened, both parties finished. */
  function MultiplyShares(x: Shared, y: Shared, a: Shared, b: Shared, ab: Shared, q: int): Shared
    requires q >= 3
  {
    var d := Reconstruct(Subtract(x.first, a.first, q), Subtract(x.second, a.second, q), q);
    var e := Reconstruct(Subtract(y.first, b.first, q), Subtract(y.second, b.second, q), q);
    Shared(FinishShare(0, a.first, b.first, ab.first, d, e, q),
           FinishShare(1, a.second, b.second, ab.second, d, e, q), x.message * y.message)
  }

  /** The payload the client reads after Protocol 2: masked, truncated, reconstructed and centred. */
  function TruncateShares(m: Shared, r: Shared, rPrime: Shared, ell: nat, q: int): int
    requires q >= 3
  {
    var masked := CenteredMod(Reconstruct(MaskShare(0, m.first, r.first, rPrime.first, ell, q),
                                          MaskShare(1, m.second, r.second, rPrime.second, ell, q), q), q);
    CenteredMod(Reconstruct(FinishOne(m.first, rPrime.first, masked, ell, q),
                            FinishTwo(m.second, rPrime.second, ell, q), q), q)
  }

  /** The payload t answers x * y, all three counted in units of 1/s: t * s is less than s from the product of the
      encodings, and the real error is bounded by that unit and the two half-unit encoding errors. */
  ghost predicate WithinOneUnit(t: int, x: real, y: real, s: int) {
    && -s < t * s - Nearest(x) * Nearest(y) < s
    && Magnitude(t as real * s as real - x * y) < s as real + 0.5 * (Magnitude(x) + Magnitude(y)) + 0.25
  }

  /** Encode, share, multiply with a triple, truncate, reconstruct, centre: correct for every draw and
      every sharing. */
  lemma {:induction false} SecureMultiplication(ctx: Context, lambda: nat, x: real, y: real, xs: Shared, ys: Shared,
      a: Shared, b: Shared, ab: Shared, r: Shared, rPrime: Shared)
    requires ctx.Valid() && Parameters(ctx.modulus, ctx.fractionalBits, lambda)
    requires xs.Valid(ctx.modulus) && ys.Valid(ctx.modulus)
    requires xs.message == Nearest(x) && ys.message == Nearest(y)
    requires a.Valid(ctx.modulus) && b.Valid(ctx.modulus) && ab.Valid(ctx.modulus)
    requires ab.message == a.message * b.message
    requires r.Valid(ctx.modulus) && InBits(r.message, Kappa(ctx.modulus, lambda) - ctx.fractionalBits + lambda)
    requires rPrime.Valid(ctx.modulus) && InBits(rPrime.message, ctx.fractionalBits)
    requires InBits(xs.message * ys.message, Kappa(ctx.modulus, lambda))
    ensures var product := MultiplyShares(xs, ys, a, b, ab, ctx.modulus);
      && product.Valid(ctx.modulus) && product.message == xs.message * ys.message
      && WithinOneUnit(TruncateShares(product, r, rPrime, ctx.fractionalBits, ctx.modulus), x, y,
                       Power2(ctx.fractionalBits))
  {
    var q, s: int, ell := ctx.modulus, Power2(ctx.fractionalBits), ctx.fractionalBits;
    hide Nearest, Shares, Reconstruct, Subtract, FinishShare, MaskShare, FinishOne, FinishTwo, CenteredMod,
      InBits, Truncated, MaskedValue, WithinOneUnit, Power2, PaperRoundDivide;
    var u, v := xs.message, ys.message;
    BeaverMultiplies(xs.first, xs.second, u, ys.first, ys.second, v, a.first, a.second, a.message,
                     b.first, b.second, b.message, ab.first, ab.second, q);
    var m := MultiplyShares(xs, ys, a, b, ab, q);
    Protocol2Truncates(q, ell, lambda, u * v, r.message, rPrime.message, m.first, m.second, r.first, r.second,
                       rPrime.first, rPrime.second);
    TruncatedMeaning(q, ell, lambda, u * v, rPrime.message);
    RealError(x, y, s, u, v, Truncated(u * v, rPrime.message, ell));
  }

  lemma {:induction false} RealError(x: real, y: real, s: int, u: int, v: int, t: int)
    requires u == Nearest(x) && v == Nearest(y) && -s < t * s - u * v < s
    ensures WithinOneUnit(t, x, y, s)
  {
    hide Nearest, Magnitude;
    NearestError(x);
    NearestError(y);
    var z := t as real * s as real - u as real * v as real;
    WithinCast(t * s - u * v, s, z);
    ErrorInUnits(x, y, s as real, u as real, v as real, t as real * s as real, z);
  }

  lemma {:induction false} WithinCast(n: int, s: int, z: real)
    requires -s < n < s && z == n as real
    ensures Magnitude(z) < s as real
  {
  }
}
