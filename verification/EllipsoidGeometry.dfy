/** What each exact check of the certificate says about all points of the state space. */
module EllipsoidGeometry {
  import opened LinearAlgebra
  import opened Bareiss
  import opened GaussJordan

  // ----- contraction -----

  function ContractionMatrix(shape: Matrix, transition: Matrix, gamma: real): (c: Matrix)
    requires IsMatrix(shape, |shape|, |shape|) && IsMatrix(transition, |shape|, |shape|)
    ensures IsMatrix(c, |shape|, |shape|)
  {
    var n := |shape|;
    MatrixSubtract(ScalarMatrix(gamma * gamma, shape),
      MatrixMultiply(Transpose(transition, n), MatrixMultiply(shape, transition, n), n))
  }

  /** One step without disturbance shrinks the energy strictly. */
  ghost predicate Contracts(shape: Matrix, transition: Matrix, gamma: real)
    requires IsMatrix(shape, |shape|, |shape|) && IsMatrix(transition, |shape|, |shape|)
  {
    forall x: Vector :: |x| == |shape| && x != Zeros(|shape|) ==>
      Quadratic(shape, MatrixVector(transition, x)) < gamma * gamma * Quadratic(shape, x)
  }

  lemma {:induction false} SandwichApplied(shape: Matrix, transition: Matrix, x: Vector)
    requires |x| == |shape| && IsMatrix(shape, |x|, |x|) && IsMatrix(transition, |x|, |x|)
    ensures var n := |x|;
      Dot(x, MatrixVector(MatrixMultiply(Transpose(transition, n), MatrixMultiply(shape, transition, n), n), x))
      == Quadratic(shape, MatrixVector(transition, x))
  {
    hide Dot;
    var n := |x|;
    var inner := MatrixMultiply(shape, transition, n);
    var image := MatrixVector(transition, x);
    MultiplyComposes(Transpose(transition, n), inner, x);
    MultiplyComposes(shape, transition, x);
    var force := MatrixVector(shape, image);
    RowCombinationIsTranspose(transition, force, n);
    TransposeMoves(transition, force, x);
    DotCommutes(x, RowCombination(transition, force, n));
    DotCommutes(force, image);
  }

  lemma {:induction false} DifferenceApplied(a: real, l: Matrix, r: Matrix, x: Vector)
    requires IsMatrix(l, |x|, |x|) && IsMatrix(r, |x|, |x|)
    ensures Quadratic(MatrixSubtract(ScalarMatrix(a, l), r), x)
         == a * Quadratic(l, x) - Dot(x, MatrixVector(r, x))
  {
    hide Dot;
    var c := MatrixSubtract(ScalarMatrix(a, l), r);
    var lx, rx := MatrixVector(l, x), MatrixVector(r, x);
    forall i | 0 <= i < |x| ensures MatrixVector(c, x)[i] == Combine(a, lx, -1.0, rx)[i] {
      RowDifference(a, l[i], r[i]);
      CombineDot(x, a, l[i], -1.0, r[i]);
    }
    assert MatrixVector(c, x) == Combine(a, lx, -1.0, rx);
    DotCombine(x, a, lx, -1.0, rx);
  }

  lemma {:induction false} RowDifference(a: real, u: Vector, v: Vector)
    requires |u| == |v|
    ensures VectorSubtract(Scale(a, u), v) == Combine(a, u, -1.0, v)
  {
  }

  lemma {:induction false} ContractionEnergy(shape: Matrix, transition: Matrix, gamma: real, x: Vector)
    requires |x| == |shape| && IsMatrix(shape, |x|, |x|) && IsMatrix(transition, |x|, |x|)
    ensures Quadratic(ContractionMatrix(shape, transition, gamma), x)
         == gamma * gamma * Quadratic(shape, x) - Quadratic(shape, MatrixVector(transition, x))
  {
    hide Dot, Quadratic, MatrixSubtract, ScalarMatrix;
    var n := |x|;
    SandwichApplied(shape, transition, x);
    DifferenceApplied(gamma * gamma, shape,
      MatrixMultiply(Transpose(transition, n), MatrixMultiply(shape, transition, n), n), x);
  }

  lemma {:induction false} ContractionSymmetric(shape: Matrix, transition: Matrix, gamma: real)
    requires IsMatrix(shape, |shape|, |shape|) && IsMatrix(transition, |shape|, |shape|) && IsSymmetric(shape)
    ensures IsSymmetric(ContractionMatrix(shape, transition, gamma))
  {
    var n, c := |shape|, ContractionMatrix(shape, transition, gamma);
    forall i, j | 0 <= i < n && 0 <= j < n ensures c[i][j] == c[j][i] {
      ContractionEntry(shape, transition, gamma, i, j);
      ContractionEntry(shape, transition, gamma, j, i);
      BilinearSymmetric(shape, Column(transition, i), Column(transition, j));
      assert shape[i][j] == Transpose(shape, n)[i][j];
    }
    forall i | 0 <= i < n ensures c[i] == Transpose(c, n)[i] {
    }
  }

  lemma {:induction false} ContractionEntry(shape: Matrix, transition: Matrix, gamma: real, i: nat, j: nat)
    requires IsMatrix(shape, |shape|, |shape|) && IsMatrix(transition, |shape|, |shape|)
    requires i < |shape| && j < |shape|
    ensures ContractionMatrix(shape, transition, gamma)[i][j]
         == gamma * gamma * shape[i][j] - Bilinear(shape, Column(transition, i), Column(transition, j))
  {
    hide Dot;
    var inner := MatrixMultiply(shape, transition, |shape|);
    assert Column(inner, j) == MatrixVector(shape, Column(transition, j));
  }

  /** The matrix test says exactly that one step contracts. */
  lemma {:induction false} ContractionMeaning(shape: Matrix, transition: Matrix, gamma: real)
    requires IsMatrix(shape, |shape|, |shape|) && IsMatrix(transition, |shape|, |shape|)
    ensures PositiveDefinite(ContractionMatrix(shape, transition, gamma)) <==> Contracts(shape, transition, gamma)
  {
    hide Quadratic, ContractionMatrix;
    forall x: Vector | |x| == |shape|
      ensures Quadratic(ContractionMatrix(shape, transition, gamma), x) > 0.0
        <==> Quadratic(shape, MatrixVector(transition, x)) < gamma * gamma * Quadratic(shape, x)
    {
      ContractionEnergy(shape, transition, gamma, x);
    }
  }

  // ----- disturbances -----

  ghost predicate WithinBounds(w: Vector, bounds: Vector) {
    |w| == |bounds| && forall j :: 0 <= j < |w| ==> -bounds[j] <= w[j] <= bounds[j]
  }

  predicate NormBounds(shape: Matrix, columns: Matrix, bounds: Vector, eta: Vector)
    requires IsMatrix(shape, |shape|, |shape|) && IsMatrix(columns, |columns|, |shape|)
    requires |columns| == |bounds| == |eta|
  {
    forall j :: 0 <= j < |columns| ==>
      bounds[j] >= 0.0 && eta[j] >= 0.0 && eta[j] * eta[j] >= Quadratic(shape, columns[j])
  }

  lemma {:induction false} ScaledEnergy(shape: Matrix, a: real, bound: real, u: Vector, eta: real)
    requires IsMatrix(shape, |u|, |u|) && |shape| == |u| && IsSymmetric(shape) && PositiveDefinite(shape)
    requires -bound <= a <= bound && eta >= 0.0 && eta * eta >= Quadratic(shape, u)
    ensures Quadratic(shape, Scale(a, u)) <= (eta * bound) * (eta * bound)
  {
    hide Dot, Quadratic, PositiveDefinite, IsSymmetric;
    ScaleQuadratic(shape, a, u);
    EnergyNonnegative(shape, u);
    SquareWithin(a, bound);
    ProductMonotone(a * a, bound * bound, Quadratic(shape, u), eta * eta);
    FourFactors(eta, bound);
  }

  lemma {:induction false} FourFactors(eta: real, bound: real)
    ensures (bound * bound) * (eta * eta) == (eta * bound) * (eta * bound)
  {
  }

  lemma {:induction false} SquareWithin(a: real, bound: real)
    requires -bound <= a <= bound
    ensures 0.0 <= a * a <= bound * bound
  {
    if a >= 0.0 {
      ProductMonotone(a, bound, a, bound);
    } else {
      ProductMonotone(-a, bound, -a, bound);
      assert -a * -a == a * a;
    }
  }

  lemma {:induction false} ScaleQuadratic(shape: Matrix, a: real, u: Vector)
    requires IsMatrix(shape, |u|, |u|) && |shape| == |u| && IsSymmetric(shape)
    ensures Quadratic(shape, Scale(a, u)) == (a * a) * Quadratic(shape, u)
  {
    hide Dot;
    assert Scale(a, u) == Combine(a, u, 0.0, u);
    QuadraticCombine(shape, a, u, 0.0, u);
  }

  /** Every admissible combination of the columns has energy at most the square of the summed bounds. */
  lemma {:induction false} DisturbanceEnergy(shape: Matrix, columns: Matrix, w: Vector, bounds: Vector, eta: Vector)
    requires IsMatrix(shape, |shape|, |shape|) && IsSymmetric(shape) && PositiveDefinite(shape)
    requires IsMatrix(columns, |columns|, |shape|) && |columns| == |bounds| == |eta|
    requires NormBounds(shape, columns, bounds, eta) && WithinBounds(w, bounds)
    ensures Dot(eta, bounds) >= 0.0
    ensures Quadratic(shape, RowCombination(columns, w, |shape|)) <= Dot(eta, bounds) * Dot(eta, bounds)
    decreases |columns|
  {
    hide PositiveDefinite, IsSymmetric, Quadratic;
    var n := |shape|;
    if |columns| == 0 {
      DotZeros(MatrixVector(shape, Zeros(n)));
      ZeroEnergy(shape);
    } else {
      DisturbanceEnergy(shape, columns[1..], w[1..], bounds[1..], eta[1..]);
      var rest := RowCombination(columns[1..], w[1..], n);
      var first := Scale(w[0], columns[0]);
      ScaledEnergy(shape, w[0], bounds[0], columns[0], eta[0]);
      ProductMonotone(0.0, eta[0], 0.0, bounds[0]);
      assert Combine(1.0, first, 1.0, rest) == Combine(w[0], columns[0], 1.0, rest);
      EnergyTriangle(shape, first, eta[0] * bounds[0], rest, Dot(eta[1..], bounds[1..]));
    }
  }

  lemma {:induction false} ZeroEnergy(shape: Matrix)
    requires IsMatrix(shape, |shape|, |shape|)
    ensures Quadratic(shape, Zeros(|shape|)) == 0.0
  {
    DotZeros(MatrixVector(shape, Zeros(|shape|)));
  }

  lemma {:induction false} ColumnsApplied(g: Matrix, w: Vector, n: nat)
    requires IsMatrix(g, n, |w|)
    ensures RowCombination(Transpose(g, |w|), w, n) == MatrixVector(g, w)
  {
    RowCombinationIsTranspose(Transpose(g, |w|), w, n);
    forall i | 0 <= i < n ensures Transpose(Transpose(g, |w|), n)[i] == g[i] {
    }
    assert Transpose(Transpose(g, |w|), n) == g;
  }

  // ----- the initial box -----

  ghost predicate InBox(z: Vector, lower: Vector, upper: Vector)
    requires |lower| == |upper|
  {
    |z| == |lower| && forall i :: 0 <= i < |z| ==> lower[i] <= z[i] <= upper[i]
  }

  ghost predicate IsVertex(z: Vector, lower: Vector, upper: Vector)
    requires |lower| == |upper|
  {
    |z| == |lower| && forall i :: 0 <= i < |z| ==> z[i] == lower[i] || z[i] == upper[i]
  }

  /** The 2^n corners, in the order of the source's product. */
  function Vertices(lower: Vector, upper: Vector): (r: seq<Vector>)
    requires |lower| == |upper|
    ensures forall v :: v in r ==> |v| == |lower|
  {
    if |lower| == 0 then [[]]
    else
      var rest := Vertices(lower[1..], upper[1..]);
      Prefixed(lower[0], rest) + Prefixed(upper[0], rest)
  }

  function Prefixed(a: real, vs: seq<Vector>): (r: seq<Vector>)
    ensures |r| == |vs| && forall k :: 0 <= k < |vs| ==> r[k] == [a] + vs[k]
  {
    seq(|vs|, k requires 0 <= k < |vs| => [a] + vs[k])
  }

  lemma {:induction false} PrefixedMember(a: real, vs: seq<Vector>, v: Vector)
    ensures v in Prefixed(a, vs) <==> |v| > 0 && v[0] == a && v[1..] in vs
  {
    if |v| > 0 && v[0] == a && v[1..] in vs {
      var k :| 0 <= k < |vs| && vs[k] == v[1..];
      assert Prefixed(a, vs)[k] == v;
    }
    if v in Prefixed(a, vs) {
      var k :| 0 <= k < |vs| && Prefixed(a, vs)[k] == v;
      assert v[1..] == vs[k];
    }
  }

  lemma {:induction false} VerticesComplete(lower: Vector, upper: Vector, v: Vector)
    requires |lower| == |upper|
    ensures v in Vertices(lower, upper) <==> IsVertex(v, lower, upper)
    decreases |lower|
  {
    if |lower| > 0 {
      var rest := Vertices(lower[1..], upper[1..]);
      PrefixedMember(lower[0], rest, v);
      PrefixedMember(upper[0], rest, v);
      if |v| > 0 {
        VerticesComplete(lower[1..], upper[1..], v[1..]);
        VertexTail(v, lower, upper);
      }
    }
  }

  lemma {:induction false} VertexTail(v: Vector, lower: Vector, upper: Vector)
    requires |lower| == |upper| > 0 && |v| > 0
    ensures IsVertex(v, lower, upper)
      <==> (v[0] == lower[0] || v[0] == upper[0]) && IsVertex(v[1..], lower[1..], upper[1..])
  {
    if IsVertex(v[1..], lower[1..], upper[1..]) && (v[0] == lower[0] || v[0] == upper[0]) {
      forall i | 0 <= i < |v| ensures v[i] == lower[i] || v[i] == upper[i] {
        assert i > 0 ==> v[1..][i - 1] == lower[1..][i - 1] || v[1..][i - 1] == upper[1..][i - 1];
      }
    }
  }

  /** Energy is convex along a segment. */
  lemma {:induction false} EnergyConvex(shape: Matrix, t: real, u: Vector, v: Vector, level: real)
    requires |u| == |v| == |shape| && IsMatrix(shape, |u|, |u|) && IsSymmetric(shape) && PositiveDefinite(shape)
    requires 0.0 <= t <= 1.0 && Quadratic(shape, u) <= level && Quadratic(shape, v) <= level
    ensures Quadratic(shape, Combine(1.0 - t, u, t, v)) <= level
  {
    hide Dot, PositiveDefinite, IsSymmetric, Quadratic, Combine, Bilinear;
    QuadraticCombine(shape, 1.0 - t, u, t, v);
    QuadraticCombine(shape, 1.0, u, -1.0, v);
    EnergyNonnegative(shape, Combine(1.0, u, -1.0, v));
    ConvexArithmetic(t, Quadratic(shape, u), Bilinear(shape, u, v), Quadratic(shape, v),
      Quadratic(shape, Combine(1.0, u, -1.0, v)), Quadratic(shape, Combine(1.0 - t, u, t, v)), level);
  }

  lemma {:induction false} ConvexArithmetic(t: real, a: real, b: real, c: real, d: real, e: real, level: real)
    requires 0.0 <= t <= 1.0 && a <= level && c <= level && d >= 0.0
    requires d == 1.0 * 1.0 * a + 2.0 * (1.0 * -1.0) * b + -1.0 * -1.0 * c
    requires e == (1.0 - t) * (1.0 - t) * a + 2.0 * ((1.0 - t) * t) * b + t * t * c
    ensures e <= level
  {
    var s := 1.0 - t;
    ProductMonotone(0.0, s, 0.0, t);
    ProductMonotone(0.0, s * t, 0.0, d);
    ProductMonotone(0.0, s, 0.0, level - a);
    ProductMonotone(0.0, t, 0.0, level - c);
    ConvexIdentity(s, t, a, b, c);
  }

  lemma {:induction false} ConvexIdentity(s: real, t: real, a: real, b: real, c: real)
    requires s + t == 1.0
    ensures s * s * a + 2.0 * (s * t) * b + t * t * c == s * a + t * c - (s * t) * (a - 2.0 * b + c)
  {
    assert s * a == (s * (s + t)) * a == s * s * a + s * t * a;
    assert t * c == (t * (s + t)) * c == t * t * c + s * t * c;
  }

  ghost predicate WithinLevel(shape: Matrix, center: Vector, level: real, z: Vector)
    requires IsMatrix(shape, |shape|, |shape|) && |center| == |shape|
  {
    |z| == |shape| && Quadratic(shape, VectorSubtract(z, center)) <= level
  }

  /** Points whose coordinates from k on are corner coordinates. */
  ghost predicate CornerFrom(z: Vector, lower: Vector, upper: Vector, k: nat)
    requires |lower| == |upper|
  {
    InBox(z, lower, upper) && forall i :: k <= i < |z| ==> z[i] == lower[i] || z[i] == upper[i]
  }

  /** Corners within the ellipsoid put the whole box within it, one coordinate at a time. */
  lemma {:induction false} BoxFromCorners(shape: Matrix, center: Vector, level: real,
      lower: Vector, upper: Vector, k: nat, z: Vector)
    requires IsMatrix(shape, |shape|, |shape|) && |center| == |shape| == |lower| == |upper|
    requires IsSymmetric(shape) && PositiveDefinite(shape)
    requires forall v: Vector :: IsVertex(v, lower, upper) ==> WithinLevel(shape, center, level, v)
    requires k <= |shape| && CornerFrom(z, lower, upper, k)
    ensures WithinLevel(shape, center, level, z)
    decreases k
  {
    hide Dot, PositiveDefinite, IsSymmetric, Quadratic;
    if k == 0 {
      assert IsVertex(z, lower, upper);
    } else {
      var i := k - 1;
      var low, high := z[i := lower[i]], z[i := upper[i]];
      BoxFromCorners(shape, center, level, lower, upper, i, low);
      BoxFromCorners(shape, center, level, lower, upper, i, high);
      var t := if lower[i] == upper[i] then 0.0 else (z[i] - lower[i]) / (upper[i] - lower[i]);
      SegmentParameter(z[i], lower[i], upper[i], t);
      var u, v := VectorSubtract(low, center), VectorSubtract(high, center);
      forall j | 0 <= j < |z| ensures VectorSubtract(z, center)[j] == Combine(1.0 - t, u, t, v)[j] {
        SegmentCoordinate(t, u[j], v[j]);
        if j == i {
          SegmentShift(t, lower[i], upper[i], center[i]);
        }
      }
      assert VectorSubtract(z, center) == Combine(1.0 - t, u, t, v);
      EnergyConvex(shape, t, u, v, level);
    }
  }

  lemma {:induction false} SegmentParameter(z: real, low: real, high: real, t: real)
    requires low <= z <= high
    requires t == if low == high then 0.0 else (z - low) / (high - low)
    ensures 0.0 <= t <= 1.0 && z == (1.0 - t) * low + t * high
  {
    if low < high {
      var d := high - low;
      assert t * d == z - low;
      if t < 0.0 {
        ProductPositive(-t, d);
        assert false;
      }
      if t > 1.0 {
        ProductPositive(t - 1.0, d);
        assert false;
      }
    }
  }

  lemma {:induction false} SegmentCoordinate(t: real, u: real, v: real)
    ensures u == v ==> (1.0 - t) * u + t * v == u
  {
  }

  lemma {:induction false} SegmentShift(t: real, low: real, high: real, c: real)
    ensures (1.0 - t) * (low - c) + t * (high - c) == (1.0 - t) * low + t * high - c
  {
  }

  // ----- projections -----

  /** xi bounds the row on the unit energy ball. */
  ghost predicate DualBound(shape: Matrix, row: Vector, xi: real)
    requires IsMatrix(shape, |shape|, |shape|) && |row| == |shape|
  {
    forall d: Vector :: |d| == |shape| ==>
      Dot(row, d) * Dot(row, d) <= (xi * xi) * Quadratic(shape, d)
  }

  /** The row is what the shape makes of its representative, whose energy is the dual square. */
  lemma {:induction false} Representative(shape: Matrix, inverse: Matrix, row: Vector) returns (u: Vector)
    requires IsMatrix(shape, |shape|, |shape|) && IsMatrix(inverse, |shape|, |shape|) && |row| == |shape|
    requires Inverts(shape, inverse)
    ensures |u| == |row| && MatrixVector(shape, u) == row && u == MatrixVector(inverse, row)
    ensures Quadratic(shape, u) == Quadratic(inverse, row) == Dot(row, u)
  {
    u := MatrixVector(inverse, row);
    assert MatrixVector(shape, u) == row;
    DotCommutes(u, row);
  }

  /** The exact dual test is equivalent to bounding the row on all vectors. */
  lemma {:induction false} DualMeaning(shape: Matrix, inverse: Matrix, row: Vector, xi: real)
    requires IsMatrix(shape, |shape|, |shape|) && IsMatrix(inverse, |shape|, |shape|) && |row| == |shape|
    requires IsSymmetric(shape) && PositiveDefinite(shape) && Inverts(shape, inverse)
    ensures xi * xi >= Quadratic(inverse, row) <==> DualBound(shape, row, xi)
    ensures Quadratic(inverse, row) >= 0.0
  {
    hide Dot, PositiveDefinite, IsSymmetric, Inverts, MatrixVector;
    var u := Representative(shape, inverse, row);
    EnergyNonnegative(shape, u);
    var dual := Quadratic(inverse, row);
    if xi * xi >= dual {
      forall d: Vector | |d| == |shape|
        ensures Dot(row, d) * Dot(row, d) <= (xi * xi) * Quadratic(shape, d)
      {
        RowBound(shape, u, d, xi, dual);
        RowIsBilinear(shape, u, d, row);
      }
    }
    if DualBound(shape, row, xi) {
      assert Dot(row, u) * Dot(row, u) <= (xi * xi) * Quadratic(shape, u);
      CancelSquare(dual, xi * xi);
    }
  }

  lemma {:induction false} RowIsBilinear(shape: Matrix, u: Vector, d: Vector, row: Vector)
    requires IsMatrix(shape, |u|, |u|) && |shape| == |u| == |d| && IsSymmetric(shape)
    requires MatrixVector(shape, u) == row
    ensures Dot(row, d) == Bilinear(shape, u, d)
  {
    hide Dot, IsSymmetric;
    BilinearSymmetric(shape, u, d);
    DotCommutes(row, d);
  }

  lemma {:induction false} RowBound(shape: Matrix, u: Vector, d: Vector, xi: real, dual: real)
    requires IsMatrix(shape, |u|, |u|) && |shape| == |u| == |d| && IsSymmetric(shape) && PositiveDefinite(shape)
    requires dual == Quadratic(shape, u) <= xi * xi
    ensures Bilinear(shape, u, d) * Bilinear(shape, u, d) <= (xi * xi) * Quadratic(shape, d)
  {
    hide Dot, PositiveDefinite, IsSymmetric, Quadratic, Bilinear;
    CauchySchwarz(shape, u, d);
    EnergyNonnegative(shape, u);
    EnergyNonnegative(shape, d);
    ProductMonotone(Quadratic(shape, u), xi * xi, Quadratic(shape, d), Quadratic(shape, d));
  }

  lemma {:induction false} CancelSquare(a: real, b: real)
    requires a >= 0.0 && b >= 0.0 && a * a <= b * a
    ensures a <= b
  {
    FactorDifference(a, b);
    if a > b {
      ProductSign(a - b, a, (a - b) * a);
      assert false;
    }
  }

  lemma {:induction false} FactorDifference(a: real, b: real)
    ensures (a - b) * a == a * a - b * a
  {
  }

  /** Inside the ellipsoid a bounded row stays within radius times its bound. */
  lemma {:induction false} RowRange(shape: Matrix, row: Vector, xi: real, radius: real, d: Vector)
    requires IsMatrix(shape, |shape|, |shape|) && |row| == |d| == |shape|
    requires xi >= 0.0 && radius >= 0.0 && DualBound(shape, row, xi)
    requires Quadratic(shape, d) <= radius * radius
    ensures -(radius * xi) <= Dot(row, d) <= radius * xi
  {
    hide Dot, Quadratic;
    var x, q := Dot(row, d), Quadratic(shape, d);
    assert x * x <= (xi * xi) * q;
    ProductMonotone(0.0, radius, 0.0, xi);
    RangeArithmetic(x, xi, q, radius);
    SquareBound(x, radius * xi);
  }

  lemma {:induction false} RangeArithmetic(x: real, xi: real, q: real, radius: real)
    requires x * x <= (xi * xi) * q && q <= radius * radius
    ensures x * x <= (radius * xi) * (radius * xi)
  {
    assert xi * xi >= 0.0;
    MonotoneRight(xi * xi, q, radius * radius);
    FourFactors(radius, xi);
    assert (xi * xi) * (radius * radius) == (radius * xi) * (radius * xi);
  }

  lemma {:induction false} MonotoneRight(a: real, b: real, c: real)
    requires a >= 0.0 && b <= c
    ensures a * b <= a * c
  {
    ProductMonotone(0.0, a, 0.0, c - b);
    assert a * (c - b) == a * c - a * b;
  }

  // ----- the integer bound for one coordinate -----

  /** The integer square root: the largest r with r*r <= n. */
  function IntegerRoot(n: nat): (r: nat)
    ensures r * r <= n < (r + 1) * (r + 1)
  {
    if n == 0 then 0
    else
      var r := IntegerRoot(n - 1);
      if (r + 1) * (r + 1) <= n then NextSquare(r); r + 1 else r
  }

  lemma {:induction false} NextSquare(r: nat)
    ensures (r + 1) * (r + 1) < (r + 2) * (r + 2)
  {
  }

  function UnitDualBound(value: real): (b: nat)
    requires value >= 0.0
  {
    var root := IntegerRoot(value.Floor);
    if (root * root) as real < value then root + 1 else root
  }

  /** The bound is the least integer whose square reaches the value. */
  lemma {:induction false} UnitDualBoundIsCeiling(value: real, k: nat)
    requires value >= 0.0
    ensures (k * k) as real >= value <==> k >= UnitDualBound(value)
  {
    var root := IntegerRoot(value.Floor);
    assert value < (value.Floor + 1) as real;
    if k >= UnitDualBound(value) {
      if k > root {
        SquaresOrdered(root + 1, k);
      } else {
        assert k == root;
      }
    } else {
      SquaresOrdered(k, UnitDualBound(value) - 1);
      if UnitDualBound(value) == root {
        SquaresOrdered(k, root - 1);
        assert (root - 1) * (root - 1) < root * root;
      }
    }
  }

  lemma {:induction false} SquaresOrdered(a: nat, b: nat)
    requires a <= b
    ensures a * a <= b * b
  {
    assert a * a <= a * b <= b * b;
  }

  /** The source works on numerator and denominator; both of its tests are the ones made here. */
  lemma {:induction false} UnitDualBoundOnFractions(numerator: nat, denominator: nat, root: nat)
    requires denominator > 0
    ensures var value := numerator as real / denominator as real;
      && value.Floor == numerator / denominator
      && (root * root * denominator < numerator <==> (root * root) as real < value)
  {
    var value, q := numerator as real / denominator as real, numerator / denominator;
    Scaled(q, denominator, numerator, value);
    Scaled(q + 1, denominator, numerator, value);
    Scaled(root * root, denominator, numerator, value);
    QuotientBounds(numerator, denominator);
    FloorUnique(value, q);
  }

  lemma {:induction false} QuotientBounds(numerator: nat, denominator: nat)
    requires denominator > 0
    ensures numerator / denominator * denominator <= numerator < (numerator / denominator + 1) * denominator
  {
  }

  lemma {:induction false} FloorUnique(value: real, q: int)
    requires q as real <= value < (q + 1) as real
    ensures value.Floor == q
  {
  }

  lemma {:induction false} Scaled(a: nat, denominator: nat, numerator: nat, value: real)
    requires denominator > 0 && value == numerator as real / denominator as real
    ensures a * denominator < numerator <==> a as real < value
    ensures a * denominator <= numerator <==> a as real <= value
  {
    var d, e := denominator as real, value - a as real;
    assert value * d == numerator as real;
    assert (a * denominator) as real == a as real * d;
    assert numerator as real - (a * denominator) as real == e * d;
    if e > 0.0 {
      ProductPositive(e, d);
    } else if e < 0.0 {
      ProductPositive(-e, d);
    }
  }
}
