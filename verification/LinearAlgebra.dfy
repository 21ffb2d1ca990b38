/** Exact vectors and matrices, with the bilinear facts the certificate checker rests on. */
module LinearAlgebra {

  type Vector = seq<real>
  type Matrix = seq<Vector>

  predicate IsMatrix(m: Matrix, rows: nat, columns: nat) {
    |m| == rows && forall i :: 0 <= i < rows ==> |m[i]| == columns
  }

  // ----- the source's helpers, all of them expressions -----

  function Dot(u: Vector, v: Vector): real
    requires |u| == |v|
  {
    if |u| == 0 then 0.0 else u[0] * v[0] + Dot(u[1..], v[1..])
  }

  function VectorAdd(u: Vector, v: Vector): (r: Vector)
    requires |u| == |v|
    ensures |r| == |u|
  {
    seq(|u|, i requires 0 <= i < |u| => u[i] + v[i])
  }

  function VectorSubtract(u: Vector, v: Vector): (r: Vector)
    requires |u| == |v|
    ensures |r| == |u|
  {
    seq(|u|, i requires 0 <= i < |u| => u[i] - v[i])
  }

  function MatrixVector(m: Matrix, v: Vector): (r: Vector)
    requires IsMatrix(m, |m|, |v|)
    ensures |r| == |m|
  {
    seq(|m|, i requires 0 <= i < |m| => Dot(m[i], v))
  }

  function Quadratic(m: Matrix, v: Vector): real
    requires IsMatrix(m, |v|, |v|)
  {
    Dot(v, MatrixVector(m, v))
  }

  function Column(m: Matrix, j: nat): Vector
    requires forall i :: 0 <= i < |m| ==> j < |m[i]|
  {
    seq(|m|, i requires 0 <= i < |m| => m[i][j])
  }

  function Transpose(m: Matrix, columns: nat): (r: Matrix)
    requires IsMatrix(m, |m|, columns)
    ensures IsMatrix(r, columns, |m|)
  {
    seq(columns, j requires 0 <= j < columns => Column(m, j))
  }

  function MatrixMultiply(l: Matrix, r: Matrix, columns: nat): Matrix
    requires IsMatrix(r, |r|, columns) && IsMatrix(l, |l|, |r|)
  {
    seq(|l|, i requires 0 <= i < |l| =>
      seq(columns, j requires 0 <= j < columns => Dot(l[i], Column(r, j))))
  }

  function MatrixSubtract(l: Matrix, r: Matrix): Matrix
    requires |l| == |r| && forall i :: 0 <= i < |l| ==> |l[i]| == |r[i]|
  {
    seq(|l|, i requires 0 <= i < |l| => VectorSubtract(l[i], r[i]))
  }

  function ScalarMatrix(a: real, m: Matrix): Matrix {
    seq(|m|, i requires 0 <= i < |m| => Scale(a, m[i]))
  }

  predicate IsSymmetric(m: Matrix)
    requires IsMatrix(m, |m|, |m|)
  {
    m == Transpose(m, |m|)
  }

  // ----- proof vocabulary -----

  /** A product kept whole, for steps that only add and compare products. */
  function Times(a: real, b: real): real {
    a * b
  }

  function Scale(a: real, v: Vector): (r: Vector)
    ensures |r| == |v|
  {
    seq(|v|, i requires 0 <= i < |v| => a * v[i])
  }

  /** a*u + b*v. */
  function Combine(a: real, u: Vector, b: real, v: Vector): (r: Vector)
    requires |u| == |v|
    ensures |r| == |u|
  {
    seq(|u|, i requires 0 <= i < |u| => a * u[i] + b * v[i])
  }

  function Zeros(n: nat): (r: Vector)
    ensures |r| == n
  {
    seq(n, _ => 0.0)
  }

  function Unit(n: nat, k: nat): (r: Vector)
    ensures |r| == n
  {
    seq(n, i => if i == k then 1.0 else 0.0)
  }

  function Bilinear(m: Matrix, u: Vector, v: Vector): real
    requires IsMatrix(m, |u|, |v|)
  {
    Dot(u, MatrixVector(m, v))
  }

  /** The combination of the rows of m with the given weights: the transpose applied to the weights. */
  function RowCombination(m: Matrix, weights: Vector, columns: nat): (r: Vector)
    requires |m| == |weights| && IsMatrix(m, |m|, columns)
    ensures |r| == columns
  {
    if |m| == 0 then Zeros(columns)
    else Combine(weights[0], m[0], 1.0, RowCombination(m[1..], weights[1..], columns))
  }

  lemma {:induction false} DotHead(u: Vector, v: Vector)
    requires |u| == |v| > 0
    ensures Dot(u, v) == u[0] * v[0] + Dot(u[1..], v[1..])
  {
  }

  lemma {:induction false} ZeroFromParts(x: Vector)
    requires |x| > 0 && x[0] == 0.0 && x[1..] == Zeros(|x| - 1)
    ensures x == Zeros(|x|)
  {
    forall i | 0 <= i < |x| ensures x[i] == 0.0 {
      assert i > 0 ==> x[i] == x[1..][i - 1];
    }
  }

  lemma {:induction false} DotCommutes(u: Vector, v: Vector)
    requires |u| == |v|
    ensures Dot(u, v) == Dot(v, u)
  {
    if |u| > 0 {
      DotCommutes(u[1..], v[1..]);
    }
  }

  lemma {:induction false} CombineTail(a: real, u: Vector, b: real, v: Vector)
    requires |u| == |v| > 0
    ensures Combine(a, u, b, v)[1..] == Combine(a, u[1..], b, v[1..])
  {
    forall i | 0 <= i < |u| - 1
      ensures Combine(a, u, b, v)[1..][i] == Combine(a, u[1..], b, v[1..])[i]
    {
      assert u[1..][i] == u[i + 1] && v[1..][i] == v[i + 1];
    }
  }

  lemma {:induction false} DotCombine(w: Vector, a: real, u: Vector, b: real, v: Vector)
    requires |w| == |u| == |v|
    ensures Dot(w, Combine(a, u, b, v)) == a * Dot(w, u) + b * Dot(w, v)
  {
    if |w| > 0 {
      DotCombine(w[1..], a, u[1..], b, v[1..]);
      CombineTail(a, u, b, v);
      DistributeHead(w[0], a, u[0], b, v[0], Dot(w[1..], u[1..]), Dot(w[1..], v[1..]));
    }
  }

  lemma {:induction false} DistributeHead(w: real, a: real, u: real, b: real, v: real, s: real, t: real)
    ensures w * (a * u + b * v) + (a * s + b * t) == a * (w * u + s) + b * (w * v + t)
  {
  }

  lemma {:induction false} CombineDot(w: Vector, a: real, u: Vector, b: real, v: Vector)
    requires |w| == |u| == |v|
    ensures Dot(Combine(a, u, b, v), w) == a * Dot(u, w) + b * Dot(v, w)
  {
    hide Dot, Combine;
    DotCommutes(w, Combine(a, u, b, v));
    DotCommutes(u, w);
    DotCommutes(v, w);
    DotCombine(w, a, u, b, v);
  }

  /** The combination a*u - (b.w)*b seen from w. */
  lemma {:induction false} DotReduced(w: Vector, a: real, u: Vector, b: Vector)
    requires |w| == |u| == |b|
    ensures Dot(w, Combine(a, u, -Dot(b, w), b)) == a * Dot(w, u) - Dot(b, w) * Dot(b, w)
  {
    hide Dot, Combine;
    var beta := Dot(b, w);
    DotCombine(w, a, u, -beta, b);
    DotCommutes(b, w);
    NegatedSquare(beta);
  }

  lemma {:induction false} NegatedSquare(beta: real)
    ensures -beta * beta == -(beta * beta)
  {
  }

  lemma {:induction false} DotScale(w: Vector, a: real, u: Vector)
    requires |w| == |u|
    ensures Dot(w, Scale(a, u)) == a * Dot(w, u)
  {
    hide Dot;
    assert Scale(a, u) == Combine(a, u, 0.0, u);
    DotCombine(w, a, u, 0.0, u);
  }

  lemma {:induction false} ScaleDot(w: Vector, a: real, u: Vector)
    requires |w| == |u|
    ensures Dot(Scale(a, u), w) == a * Dot(u, w)
  {
    hide Dot, Scale;
    DotScale(w, a, u);
    DotCommutes(w, Scale(a, u));
    DotCommutes(w, u);
  }

  lemma {:induction false} ScaledCombineDot(y: Vector, p: real, s: Vector, a: real, u: Vector, b: real, v: Vector)
    requires |y| == |s| == |u| == |v| && Scale(p, s) == Combine(a, u, b, v)
    ensures p * Dot(s, y) == a * Dot(u, y) + b * Dot(v, y)
  {
    hide Dot, Scale, Combine;
    ScaleDot(y, p, s);
    CombineDot(y, a, u, b, v);
  }

  lemma {:induction false} DotZeros(u: Vector)
    ensures Dot(u, Zeros(|u|)) == 0.0 && Dot(Zeros(|u|), u) == 0.0
  {
    DotCommutes(u, Zeros(|u|));
    if |u| > 0 {
      DotZeros(u[1..]);
      assert Zeros(|u|)[1..] == Zeros(|u[1..]|);
    }
  }

  lemma {:induction false} DotUnit(u: Vector, k: nat)
    requires k < |u|
    ensures Dot(u, Unit(|u|, k)) == u[k] && Dot(Unit(|u|, k), u) == u[k]
  {
    DotCommutes(u, Unit(|u|, k));
    if k == 0 {
      assert Unit(|u|, 0)[1..] == Zeros(|u[1..]|);
      DotZeros(u[1..]);
    } else {
      assert Unit(|u|, k)[1..] == Unit(|u[1..]|, k - 1);
      DotUnit(u[1..], k - 1);
    }
  }

  lemma {:induction false} DotConcat(u: Vector, u': Vector, v: Vector, v': Vector)
    requires |u| == |v| && |u'| == |v'|
    ensures Dot(u + u', v + v') == Dot(u, v) + Dot(u', v')
  {
    if |u| == 0 {
      assert u + u' == u' && v + v' == v';
    } else {
      DotConcat(u[1..], u', v[1..], v');
      assert (u + u')[1..] == u[1..] + u' && (v + v')[1..] == v[1..] + v';
    }
  }

  lemma {:induction false} MatrixVectorCombine(m: Matrix, a: real, u: Vector, b: real, v: Vector)
    requires |u| == |v| && IsMatrix(m, |m|, |u|)
    ensures MatrixVector(m, Combine(a, u, b, v)) == Combine(a, MatrixVector(m, u), b, MatrixVector(m, v))
  {
    forall i | 0 <= i < |m|
      ensures MatrixVector(m, Combine(a, u, b, v))[i] == Combine(a, MatrixVector(m, u), b, MatrixVector(m, v))[i]
    {
      DotCombine(m[i], a, u, b, v);
    }
  }

  lemma {:induction false} TransposeMoves(m: Matrix, u: Vector, v: Vector)
    requires IsMatrix(m, |u|, |v|)
    ensures Dot(u, MatrixVector(m, v)) == Dot(RowCombination(m, u, |v|), v)
  {
    if |u| == 0 {
      DotZeros(v);
    } else {
      TransposeMoves(m[1..], u[1..], v);
      assert MatrixVector(m, v)[1..] == MatrixVector(m[1..], v);
      CombineDot(v, u[0], m[0], 1.0, RowCombination(m[1..], u[1..], |v|));
    }
  }

  lemma {:induction false} RowCombinationEntry(m: Matrix, w: Vector, columns: nat, j: nat)
    requires |m| == |w| && IsMatrix(m, |m|, columns) && j < columns
    ensures RowCombination(m, w, columns)[j] == Dot(w, Column(m, j))
  {
    if |m| > 0 {
      RowCombinationEntry(m[1..], w[1..], columns, j);
      assert Column(m, j)[1..] == Column(m[1..], j);
    }
  }

  lemma {:induction false} RowCombinationIsTranspose(m: Matrix, w: Vector, columns: nat)
    requires |m| == |w| && IsMatrix(m, |m|, columns)
    ensures RowCombination(m, w, columns) == MatrixVector(Transpose(m, columns), w)
  {
    forall j | 0 <= j < columns
      ensures RowCombination(m, w, columns)[j] == MatrixVector(Transpose(m, columns), w)[j]
    {
      RowCombinationEntry(m, w, columns, j);
      DotCommutes(w, Column(m, j));
    }
  }

  lemma {:induction false} MultiplyComposes(l: Matrix, r: Matrix, v: Vector)
    requires IsMatrix(r, |r|, |v|) && IsMatrix(l, |l|, |r|)
    ensures MatrixVector(MatrixMultiply(l, r, |v|), v) == MatrixVector(l, MatrixVector(r, v))
  {
    forall i | 0 <= i < |l|
      ensures MatrixVector(MatrixMultiply(l, r, |v|), v)[i] == MatrixVector(l, MatrixVector(r, v))[i]
    {
      TransposeMoves(r, l[i], v);
      forall j | 0 <= j < |v|
        ensures MatrixMultiply(l, r, |v|)[i][j] == RowCombination(r, l[i], |v|)[j]
      {
        RowCombinationEntry(r, l[i], |v|, j);
      }
      assert MatrixMultiply(l, r, |v|)[i] == RowCombination(r, l[i], |v|);
    }
  }

  lemma {:induction false} BilinearSymmetric(m: Matrix, u: Vector, v: Vector)
    requires |u| == |v| && IsMatrix(m, |u|, |u|) && IsSymmetric(m)
    ensures Bilinear(m, u, v) == Bilinear(m, v, u)
  {
    TransposeMoves(m, u, v);
    RowCombinationIsTranspose(m, u, |v|);
    DotCommutes(MatrixVector(m, u), v);
  }

  lemma {:induction false} BilinearCombine(m: Matrix, w: Vector, a: real, u: Vector, b: real, v: Vector)
    requires |w| == |u| == |v| && IsMatrix(m, |u|, |u|)
    ensures Bilinear(m, w, Combine(a, u, b, v)) == a * Bilinear(m, w, u) + b * Bilinear(m, w, v)
    ensures Bilinear(m, Combine(a, u, b, v), w) == a * Bilinear(m, u, w) + b * Bilinear(m, v, w)
  {
    MatrixVectorCombine(m, a, u, b, v);
    DotCombine(w, a, MatrixVector(m, u), b, MatrixVector(m, v));
    CombineDot(MatrixVector(m, w), a, u, b, v);
  }

  /** Q(a*u + b*v) expanded. */
  lemma {:induction false} QuadraticCombine(m: Matrix, a: real, u: Vector, b: real, v: Vector)
    requires |u| == |v| && IsMatrix(m, |u|, |u|) && IsSymmetric(m)
    ensures Quadratic(m, Combine(a, u, b, v))
         == a * a * Quadratic(m, u) + 2.0 * (a * b) * Bilinear(m, u, v) + b * b * Quadratic(m, v)
  {
    var w := Combine(a, u, b, v);
    BilinearCombine(m, w, a, u, b, v);
    BilinearCombine(m, u, a, u, b, v);
    BilinearCombine(m, v, a, u, b, v);
    BilinearSymmetric(m, u, v);
    var uu, uv, vv := Quadratic(m, u), Bilinear(m, u, v), Quadratic(m, v);
    assert Quadratic(m, w) == a * Bilinear(m, w, u) + b * Bilinear(m, w, v);
    assert Bilinear(m, w, u) == a * uu + b * uv;
    assert Bilinear(m, w, v) == a * uv + b * vv;
    ExpandSquare(a, b, uu, uv, vv);
  }

  lemma {:induction false} ExpandSquare(a: real, b: real, x: real, y: real, z: real)
    ensures a * (a * x + b * y) + b * (a * y + b * z) == a * a * x + 2.0 * (a * b) * y + b * b * z
  {
  }

  /** Every nonzero vector has positive energy: what "positive definite" means. */
  ghost predicate PositiveDefinite(m: Matrix)
    requires IsMatrix(m, |m|, |m|)
  {
    forall x: Vector :: |x| == |m| && x != Zeros(|m|) ==> Quadratic(m, x) > 0.0
  }

  lemma {:induction false} EnergyNonnegative(m: Matrix, x: Vector)
    requires IsMatrix(m, |x|, |x|) && PositiveDefinite(m)
    ensures Quadratic(m, x) >= 0.0
  {
    if x == Zeros(|x|) {
      DotZeros(MatrixVector(m, x));
    }
  }

  lemma {:induction false} QuadraticSum(m: Matrix, u: Vector, v: Vector)
    requires |u| == |v| && IsMatrix(m, |u|, |u|) && IsSymmetric(m)
    ensures Quadratic(m, Combine(1.0, u, 1.0, v))
         == Quadratic(m, u) + 2.0 * Bilinear(m, u, v) + Quadratic(m, v)
  {
    QuadraticCombine(m, 1.0, u, 1.0, v);
  }

  /** The energy of c*u - b*v, for c the energy of v and b the product of u and v. */
  lemma {:induction false} QuadraticResidual(m: Matrix, u: Vector, v: Vector, b: real, c: real)
    requires |u| == |v| && IsMatrix(m, |u|, |u|) && IsSymmetric(m)
    requires b == Bilinear(m, u, v) && c == Quadratic(m, v)
    ensures Quadratic(m, Combine(c, u, -b, v)) == c * (Quadratic(m, u) * c - b * b)
  {
    hide Dot;
    QuadraticCombine(m, c, u, -b, v);
    ResidualArithmetic(Quadratic(m, u), b, c);
  }

  lemma {:induction false} ResidualArithmetic(a: real, b: real, c: real)
    ensures c * c * a + 2.0 * (c * (-b)) * b + (-b) * (-b) * c == c * (a * c - b * b)
  {
  }

  lemma {:induction false} BilinearZero(m: Matrix, u: Vector)
    requires IsMatrix(m, |u|, |u|)
    ensures Bilinear(m, u, Zeros(|u|)) == 0.0
  {
    forall i | 0 <= i < |m| ensures MatrixVector(m, Zeros(|u|))[i] == 0.0 {
      DotZeros(m[i]);
    }
    assert MatrixVector(m, Zeros(|u|)) == Zeros(|u|);
    DotZeros(u);
  }

  lemma {:induction false} EnergyPositive(m: Matrix, x: Vector)
    requires IsMatrix(m, |x|, |x|) && PositiveDefinite(m) && x != Zeros(|x|)
    ensures Quadratic(m, x) > 0.0
  {
  }

  /** Cauchy-Schwarz for the energy of a positive definite matrix. */
  lemma {:induction false} CauchySchwarz(m: Matrix, u: Vector, v: Vector)
    requires |u| == |v| && IsMatrix(m, |u|, |u|) && IsSymmetric(m) && PositiveDefinite(m)
    ensures Bilinear(m, u, v) * Bilinear(m, u, v) <= Quadratic(m, u) * Quadratic(m, v)
  {
    hide *;
    EnergyNonnegative(m, u);
    EnergyNonnegative(m, v);
    if v == Zeros(|v|) {
      BilinearZero(m, u);
      ProductMonotone(0.0, Quadratic(m, u), 0.0, Quadratic(m, v));
    } else {
      var b, c := Bilinear(m, u, v), Quadratic(m, v);
      EnergyPositive(m, v);
      QuadraticResidual(m, u, v, b, c);
      EnergyNonnegative(m, Combine(c, u, -b, v));
      PositiveFactor(c, Quadratic(m, u) * c - b * b);
    }
  }

  lemma {:induction false} PositiveFactor(c: real, d: real)
    requires c > 0.0 && c * d >= 0.0
    ensures d >= 0.0
  {
    if d < 0.0 {
      ProductPositive(c, -d);
      assert false;
    }
  }

  lemma {:induction false} ProductPositive(a: real, b: real)
    requires a > 0.0 && b > 0.0
    ensures a * b > 0.0
  {
  }

  lemma {:induction false} ProductSign(a: real, b: real, p: real)
    requires p == a * b && ((a > 0.0 && b > 0.0) || (a < 0.0 && b < 0.0))
    ensures p > 0.0
  {
    if a < 0.0 {
      ProductPositive(-a, -b);
      assert -a * -b == a * b;
    }
  }

  /** The triangle inequality, in squared form so that no root is taken. */
  lemma {:induction false} EnergyTriangle(m: Matrix, u: Vector, p: real, v: Vector, q: real)
    requires |u| == |v| && IsMatrix(m, |u|, |u|) && IsSymmetric(m) && PositiveDefinite(m)
    requires p >= 0.0 && q >= 0.0
    requires Quadratic(m, u) <= p * p && Quadratic(m, v) <= q * q
    ensures Quadratic(m, Combine(1.0, u, 1.0, v)) <= (p + q) * (p + q)
  {
    hide *;
    QuadraticSum(m, u, v);
    CauchySchwarz(m, u, v);
    EnergyNonnegative(m, u);
    EnergyNonnegative(m, v);
    TriangleArithmetic(Quadratic(m, u), Bilinear(m, u, v), Quadratic(m, v), p, q);
  }

  lemma {:induction false} TriangleArithmetic(a: real, b: real, c: real, p: real, q: real)
    requires p >= 0.0 && q >= 0.0
    requires 0.0 <= a <= p * p && 0.0 <= c <= q * q && b * b <= a * c
    ensures a + 2.0 * b + c <= (p + q) * (p + q)
  {
    ProductMonotone(a, p * p, c, q * q);
    assert (p * p) * (q * q) == (p * q) * (p * q);
    assert p * q >= 0.0;
    SquareBound(b, p * q);
    assert (p + q) * (p + q) == p * p + 2.0 * (p * q) + q * q;
  }

  lemma {:induction false} ProductMonotone(a: real, a': real, b: real, b': real)
    requires 0.0 <= a <= a' && 0.0 <= b <= b'
    ensures a * b <= a' * b'
  {
    assert a' * b' - a * b == a' * (b' - b) + (a' - a) * b;
    assert a' * (b' - b) >= 0.0 && (a' - a) * b >= 0.0;
  }

  lemma {:induction false} SquareStrict(c: real, b: real)
    requires 0.0 <= c < b
    ensures c * c < b * b
  {
    ProductSign(b - c, b + c, (b - c) * (b + c));
    DifferenceOfSquares(b, c);
  }

  lemma {:induction false} DifferenceOfSquares(b: real, c: real)
    ensures (b - c) * (b + c) == b * b - c * c
  {
  }

  lemma {:induction false} SquareBound(b: real, c: real)
    requires c >= 0.0 && b * b <= c * c
    ensures -c <= b <= c
  {
    if b > c {
      SquareStrict(c, b);
      assert false;
    }
    if -b > c {
      SquareStrict(c, -b);
      assert false;
    }
  }
}
