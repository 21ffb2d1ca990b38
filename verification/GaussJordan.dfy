/** Gauss-Jordan inversion over exact numbers, justified by the solutions it preserves. */
module GaussJordan {
  import opened LinearAlgebra
  import opened Bareiss
  import opened Options
  import Determinants

  /** z is annihilated by every row. */
  ghost predicate Annihilates(work: Matrix, z: Vector)
    requires IsMatrix(work, |work|, |z|)
  {
    forall i :: 0 <= i < |work| ==> Dot(work[i], z) == 0.0
  }

  ghost predicate SameSolutions(a: Matrix, b: Matrix, width: nat)
    requires IsMatrix(a, |a|, width) && IsMatrix(b, |b|, width)
  {
    forall z: Vector :: |z| == width ==> (Annihilates(a, z) <==> Annihilates(b, z))
  }

  /** E undoes M from both sides. */
  ghost predicate Inverts(m: Matrix, e: Matrix)
    requires IsMatrix(m, |m|, |m|) && IsMatrix(e, |m|, |m|)
  {
    forall x: Vector, y: Vector :: |x| == |m| && |y| == |m| ==>
      (MatrixVector(m, x) == y <==> MatrixVector(e, y) == x)
  }

  ghost predicate Singular(m: Matrix)
    requires IsMatrix(m, |m|, |m|)
  {
    exists x: Vector :: |x| == |m| && x != Zeros(|m|) && MatrixVector(m, x) == Zeros(|m|)
  }

  /** The first columns of the work rows are those of the identity. */
  ghost predicate Reduced(work: Matrix, columns: nat) {
    forall i, j :: 0 <= i < |work| && 0 <= j < columns && j < |work[i]| ==>
      work[i][j] == if i == j then 1.0 else 0.0
  }

  function Augmented(m: Matrix): (r: Matrix)
    requires IsMatrix(m, |m|, |m|)
    ensures IsMatrix(r, |m|, 2 * |m|)
  {
    seq(|m|, i requires 0 <= i < |m| => m[i] + Unit(|m|, i))
  }

  function Divided(v: Vector, d: real): (r: Vector)
    requires d != 0.0
    ensures |r| == |v|
  {
    seq(|v|, i requires 0 <= i < |v| => v[i] / d)
  }

  function RightHalf(work: Matrix, n: nat): (e: Matrix)
    requires IsMatrix(work, n, 2 * n)
    ensures IsMatrix(e, n, n)
  {
    seq(n, i requires 0 <= i < n => work[i][n..])
  }

  function ClearedRow(work: Matrix, column: nat, i: nat): (r: Vector)
    requires column < |work| && i < |work| && IsMatrix(work, |work|, |work[0]|) && column < |work[0]|
    ensures |r| == |work[0]|
  {
    if i == column then work[i] else VectorSubtract(work[i], Scale(work[i][column], work[column]))
  }

  function Cleared(work: Matrix, column: nat): (r: Matrix)
    requires column < |work| && IsMatrix(work, |work|, |work[0]|) && column < |work[0]|
    ensures IsMatrix(r, |work|, |work[0]|)
  {
    seq(|work|, i requires 0 <= i < |work| => ClearedRow(work, column, i))
  }

  /** Subtracting the pivot row from all the others, in place. */
  method ClearColumn(start: Matrix, column: nat) returns (work: Matrix)
    requires column < |start| && IsMatrix(start, |start|, |start[0]|) && column < |start[0]|
    ensures work == Cleared(start, column)
  {
    work := start;
    for row := 0 to |start|
      invariant |work| == |start|
      invariant forall i :: 0 <= i < row ==> work[i] == ClearedRow(start, column, i)
      invariant forall i :: row <= i < |start| ==> work[i] == start[i]
      invariant work[column] == start[column]
    {
      if row == column {
        continue;
      }
      var factor := work[row][column];
      work := work[row := VectorSubtract(work[row], Scale(factor, work[column]))];
    }
  }

  /** The inverse, or None where the source raises. */
  method Inverse(matrix: Matrix) returns (inverse: Option<Matrix>)
    requires |matrix| >= 1 && IsMatrix(matrix, |matrix|, |matrix|)
    ensures inverse.None? <==> Singular(matrix)
    ensures inverse.Some? ==> IsMatrix(inverse.value, |matrix|, |matrix|) && Inverts(matrix, inverse.value)
  {
    hide Dot, Annihilates, Augmented, Inverts, Singular, Divided, Cleared, Unit, Swap;
    var size, work := |matrix|, Augmented(matrix);
    for column := 0 to size
      invariant IsMatrix(work, size, 2 * size)
      invariant Reduced(work, column)
      invariant SameSolutions(work, Augmented(matrix), 2 * size)
    {
      var pivot := column;
      while pivot < size && work[pivot][column] == 0.0
        invariant column <= pivot <= size
        invariant forall i :: column <= i < pivot ==> work[i][column] == 0.0
      {
        pivot := pivot + 1;
      }
      if pivot == size {
        StuckMeansSingular(matrix, work, column);
        return None;
      }
      var next := Swap(work, column, pivot);
      SwapKeeps(work, column, pivot, 2 * size);
      var divisor := next[column][column];
      DivideKeeps(next, column, divisor, 2 * size);
      next := next[column := Divided(next[column], divisor)];
      ClearKeeps(next, column, 2 * size);
      next := ClearColumn(next, column);
      work := next;
    }
    FinishedInverts(matrix, work);
    return Some(RightHalf(work, size));
  }

  // ----- each row operation keeps the solutions and the finished columns -----

  lemma {:induction false} SwapKeeps(work: Matrix, column: nat, pivot: nat, width: nat)
    requires IsMatrix(work, |work|, width) && column <= pivot < |work| && column < width
    requires Reduced(work, column) && work[pivot][column] != 0.0
    ensures var w := Swap(work, column, pivot);
      && IsMatrix(w, |work|, width) && SameSolutions(w, work, width)
      && w[column][column] != 0.0
      && (forall i, j :: 0 <= i < |w| && 0 <= j < column ==> w[i][j] == if i == j then 1.0 else 0.0)
  {
    var w := Swap(work, column, pivot);
    forall z: Vector | |z| == width ensures Annihilates(w, z) <==> Annihilates(work, z) {
      if Annihilates(w, z) {
        assert Dot(w[column], z) == 0.0 && Dot(w[pivot], z) == 0.0;
        forall i | 0 <= i < |work| ensures Dot(work[i], z) == 0.0 {
          assert i != column && i != pivot ==> Dot(w[i], z) == 0.0;
        }
      }
    }
  }

  lemma {:induction false} DotDivided(v: Vector, d: real, z: Vector)
    requires d != 0.0 && |v| == |z|
    ensures Dot(Divided(v, d), z) == 0.0 <==> Dot(v, z) == 0.0
  {
    hide Dot;
    forall i | 0 <= i < |v| ensures Scale(d, Divided(v, d))[i] == v[i] {
      assert d * (v[i] / d) == v[i];
    }
    assert Scale(d, Divided(v, d)) == v;
    ScaleDot(z, d, Divided(v, d));
    ZeroProduct(d, Dot(Divided(v, d), z));
  }

  lemma {:induction false} ZeroProduct(d: real, e: real)
    requires d != 0.0
    ensures d * e == 0.0 <==> e == 0.0
  {
  }

  lemma {:induction false} DivideKeeps(work: Matrix, column: nat, divisor: real, width: nat)
    requires IsMatrix(work, |work|, width) && column < |work| && column < width
    requires divisor == work[column][column] != 0.0
    requires forall i, j :: 0 <= i < |work| && 0 <= j < column ==> work[i][j] == if i == j then 1.0 else 0.0
    ensures var w := work[column := Divided(work[column], divisor)];
      && IsMatrix(w, |work|, width) && SameSolutions(w, work, width)
      && w[column][column] == 1.0
      && (forall i, j :: 0 <= i < |w| && 0 <= j < column ==> w[i][j] == if i == j then 1.0 else 0.0)
  {
    hide Dot;
    var w := work[column := Divided(work[column], divisor)];
    forall z: Vector | |z| == width ensures Annihilates(w, z) <==> Annihilates(work, z) {
      DotDivided(work[column], divisor, z);
      if Annihilates(w, z) {
        assert Dot(w[column], z) == 0.0;
        forall i | 0 <= i < |work| ensures Dot(work[i], z) == 0.0 {
          assert i != column ==> Dot(w[i], z) == 0.0;
        }
      }
    }
  }

  lemma {:induction false} DotClearedRow(work: Matrix, column: nat, i: nat, z: Vector)
    requires column < |work| && i < |work| && IsMatrix(work, |work|, |work[0]|) && column < |work[0]|
    requires |z| == |work[0]| && Dot(work[column], z) == 0.0
    ensures Dot(ClearedRow(work, column, i), z) == Dot(work[i], z)
  {
    hide Dot;
    if i != column {
      var f := work[i][column];
      SubtractIsCombine(work[i], f, work[column]);
      CombineDot(z, 1.0, work[i], -f, work[column]);
    }
  }

  lemma {:induction false} SubtractIsCombine(u: Vector, f: real, v: Vector)
    requires |u| == |v|
    ensures VectorSubtract(u, Scale(f, v)) == Combine(1.0, u, -f, v)
  {
    forall k | 0 <= k < |u| ensures VectorSubtract(u, Scale(f, v))[k] == Combine(1.0, u, -f, v)[k] {
      NegatedTerm(u[k], f, v[k]);
    }
  }

  lemma {:induction false} NegatedTerm(a: real, f: real, b: real)
    ensures a - f * b == 1.0 * a + -f * b
  {
  }

  lemma {:induction false} ClearKeeps(work: Matrix, column: nat, width: nat)
    requires IsMatrix(work, |work|, width) && column < |work| && column < width && work[column][column] == 1.0
    requires forall i, j :: 0 <= i < |work| && 0 <= j < column ==> work[i][j] == if i == j then 1.0 else 0.0
    ensures var w := Cleared(work, column);
      && IsMatrix(w, |work|, width) && SameSolutions(w, work, width) && Reduced(w, column + 1)
  {
    hide Dot;
    var w := Cleared(work, column);
    forall z: Vector | |z| == width ensures Annihilates(w, z) <==> Annihilates(work, z) {
      if Annihilates(w, z) || Annihilates(work, z) {
        assert Dot(work[column], z) == 0.0 by {
          assert w[column] == work[column];
        }
        forall i | 0 <= i < |work| ensures Dot(w[i], z) == Dot(work[i], z) {
          DotClearedRow(work, column, i, z);
        }
      }
    }
    forall i, j | 0 <= i < |w| && 0 <= j <= column ensures w[i][j] == if i == j then 1.0 else 0.0 {
      ClearedEntry(work, column, i, j);
    }
  }

  lemma {:induction false} ClearedEntry(work: Matrix, column: nat, i: nat, j: nat)
    requires |work| > 0 && IsMatrix(work, |work|, |work[0]|) && column < |work| && column < |work[0]|
    requires work[column][column] == 1.0 && i < |work| && j <= column
    requires forall i, j :: 0 <= i < |work| && 0 <= j < column ==> work[i][j] == if i == j then 1.0 else 0.0
    ensures ClearedRow(work, column, i)[j] == if i == j then 1.0 else 0.0
  {
    if i != column {
      assert ClearedRow(work, column, i)[j] == work[i][j] - work[i][column] * work[column][j];
      if j < column {
        assert work[column][j] == 0.0;
      }
    }
  }

  // ----- reading the result off -----

  lemma {:induction false} AugmentedMeaning(m: Matrix, x: Vector, y: Vector)
    requires IsMatrix(m, |m|, |m|) && |x| == |y| == |m|
    ensures Annihilates(Augmented(m), x + Scale(-1.0, y)) <==> MatrixVector(m, x) == y
  {
    hide Dot;
    var z := x + Scale(-1.0, y);
    forall i | 0 <= i < |m| ensures Dot(Augmented(m)[i], z) == MatrixVector(m, x)[i] - y[i] {
      DotConcat(m[i], Unit(|m|, i), x, Scale(-1.0, y));
      DotScale(Unit(|m|, i), -1.0, y);
      DotUnit(y, i);
    }
    if Annihilates(Augmented(m), z) {
      forall i | 0 <= i < |m| ensures MatrixVector(m, x)[i] == y[i] {
        assert Dot(Augmented(m)[i], z) == 0.0;
      }
    }
  }

  lemma {:induction false} FinishedMeaning(work: Matrix, n: nat, x: Vector, y: Vector)
    requires IsMatrix(work, n, 2 * n) && Reduced(work, n) && |x| == |y| == n
    ensures Annihilates(work, x + Scale(-1.0, y)) <==> MatrixVector(RightHalf(work, n), y) == x
  {
    hide Dot;
    var z, e := x + Scale(-1.0, y), RightHalf(work, n);
    forall i | 0 <= i < n ensures Dot(work[i], z) == x[i] - MatrixVector(e, y)[i] {
      assert work[i][..n] == Unit(n, i);
      assert work[i] == Unit(n, i) + e[i];
      DotConcat(Unit(n, i), e[i], x, Scale(-1.0, y));
      DotUnit(x, i);
      DotScale(e[i], -1.0, y);
    }
    if Annihilates(work, z) {
      forall i | 0 <= i < n ensures MatrixVector(e, y)[i] == x[i] {
        assert Dot(work[i], z) == 0.0;
      }
    }
  }

  lemma {:induction false} FinishedInverts(m: Matrix, work: Matrix)
    requires |m| >= 1 && IsMatrix(m, |m|, |m|) && IsMatrix(work, |m|, 2 * |m|)
    requires Reduced(work, |m|) && SameSolutions(work, Augmented(m), 2 * |m|)
    ensures Inverts(m, RightHalf(work, |m|)) && !Singular(m)
  {
    hide Dot, Annihilates, Augmented, RightHalf;
    var n, e := |m|, RightHalf(work, |m|);
    forall x: Vector, y: Vector | |x| == n && |y| == n
      ensures MatrixVector(m, x) == y <==> MatrixVector(e, y) == x
    {
      AugmentedMeaning(m, x, y);
      FinishedMeaning(work, n, x, y);
      assert |x + Scale(-1.0, y)| == 2 * n;
    }
    InvertibleIsNotSingular(m, e);
  }

  lemma {:induction false} InvertibleIsNotSingular(m: Matrix, e: Matrix)
    requires |m| >= 1 && IsMatrix(m, |m|, |m|) && IsMatrix(e, |m|, |m|) && Inverts(m, e)
    ensures !Singular(m)
  {
    if x: Vector :| |x| == |m| && x != Zeros(|m|) && MatrixVector(m, x) == Zeros(|m|) {
      assert MatrixVector(e, Zeros(|m|)) == x;
      forall i | 0 <= i < |m| ensures x[i] == 0.0 {
        DotZeros(e[i]);
      }
      assert false;
    }
  }

  /** With no pivot left in a column, the column gives a kernel vector. */
  lemma {:induction false} StuckMeansSingular(m: Matrix, work: Matrix, column: nat)
    requires column < |m| && IsMatrix(m, |m|, |m|) && IsMatrix(work, |m|, 2 * |m|)
    requires Reduced(work, column) && SameSolutions(work, Augmented(m), 2 * |m|)
    requires forall i :: column <= i < |m| ==> work[i][column] == 0.0
    ensures Singular(m)
  {
    hide Dot, Augmented, Annihilates, Zeros, Scale, MatrixVector, Reduced;
    var x := StuckSolution(work, column, |m|);
    AugmentedMeaning(m, x, Zeros(|m|));
  }

  lemma {:induction false} StuckSolution(work: Matrix, column: nat, n: nat) returns (x: Vector)
    requires column < n && IsMatrix(work, n, 2 * n) && Reduced(work, column)
    requires forall i :: column <= i < n ==> work[i][column] == 0.0
    ensures |x| == n && x != Zeros(n) && Annihilates(work, x + Scale(-1.0, Zeros(n)))
  {
    hide Dot;
    var head := seq(column, j requires 0 <= j < column => -work[j][column]);
    x := head + [1.0] + Zeros(n - column - 1);
    StuckVector(x, column, n);
    var z := x + Zeros(n);
    forall i | 0 <= i < n ensures Dot(work[i], z) == 0.0 {
      StuckRow(work[i], column, i, head, z);
    }
  }

  lemma {:induction false} StuckVector(x: Vector, column: nat, n: nat)
    requires column < n == |x| && x[column] == 1.0
    ensures x != Zeros(n)
    ensures Scale(-1.0, Zeros(n)) == Zeros(n)
  {
    assert x[column] != Zeros(n)[column];
    forall i | 0 <= i < n ensures Scale(-1.0, Zeros(n))[i] == Zeros(n)[i] {
      assert -1.0 * 0.0 == 0.0;
    }
  }

  lemma {:induction false} StuckRow(row: Vector, column: nat, i: nat, head: Vector, z: Vector)
    requires |row| == |z| && column < |row| && |head| == column
    requires forall j :: 0 <= j < column ==> row[j] == if i == j then 1.0 else 0.0
    requires z[..column] == head && z[column] == 1.0
    requires forall j :: column < j < |z| ==> z[j] == 0.0
    requires if i < column then head[i] == -row[column] else row[column] == 0.0
    ensures Dot(row, z) == 0.0
  {
    hide Dot;
    var left, right := row[..column], row[column..];
    assert row == left + right && z == head + z[column..];
    DotConcat(left, right, head, z[column..]);
    DotHead(right, z[column..]);
    assert z[column..][1..] == Zeros(|right[1..]|);
    DotZeros(right[1..]);
    if i < column {
      assert left == Unit(column, i);
      DotUnit(head, i);
    } else {
      assert left == Zeros(column);
      DotZeros(head);
    }
  }

  /** A positive definite matrix is never the one the inversion raises on. */
  lemma {:induction false} PositiveDefiniteInverts(m: Matrix)
    requires IsMatrix(m, |m|, |m|) && PositiveDefinite(m)
    ensures !Singular(m)
  {
    hide Dot;
    if x: Vector :| |x| == |m| && x != Zeros(|m|) && MatrixVector(m, x) == Zeros(|m|) {
      DotZeros(x);
      EnergyPositive(m, x);
      assert false;
    }
  }

  // ----- the determinant says the same -----

  /** A row of m on x, in terms of the first row and the eliminated row; the division cleared. */
  lemma {:induction false} RowSplit(m: Matrix, previous: real, x: Vector, i: nat)
    requires |x| == |m| && IsMatrix(m, |m|, |m|) && previous != 0.0 && i + 1 < |m|
    ensures Times(m[0][0], Dot(m[i + 1], x))
         == Times(m[i + 1][0], Dot(m[0], x)) + Times(previous, Dot(Eliminate(m, previous)[i], x[1..]))
  {
    hide Dot, Eliminate, Lower;
    EliminateRowDot(m, previous, x[1..], i);
    DotHead(m[i + 1], x);
    DotHead(m[0], x);
    LowerRow(m, i);
    SplitArithmetic(m[0][0], m[i + 1][0], x[0], Dot(Lower(m)[i], x[1..]), Dot(m[0][1..], x[1..]));
  }

  lemma {:induction false} LowerRow(m: Matrix, i: nat)
    requires i + 1 < |m| && IsMatrix(m, |m|, |m|)
    ensures Lower(m)[i] == m[i + 1][1..]
  {
  }

  lemma {:induction false} SplitArithmetic(a: real, l: real, x: real, c: real, b: real)
    ensures Times(a, l * x + c) == Times(l, a * x + b) + (Times(a, c) + Times(-l, b))
  {
  }

  lemma {:induction false} ZeroFactor(a: real, b: real)
    ensures Times(a, 0.0) == 0.0
    ensures a != 0.0 && Times(a, b) == 0.0 ==> b == 0.0
  {
  }

  lemma {:induction false} KernelIsSingular(m: Matrix)
    requires IsMatrix(m, |m|, |m|)
    ensures Singular(m) <==> exists x: Vector :: |x| == |m| && x != Zeros(|m|) && Annihilates(m, x)
  {
    hide Dot;
    forall x: Vector | |x| == |m| ensures Annihilates(m, x) <==> MatrixVector(m, x) == Zeros(|m|) {
      if MatrixVector(m, x) == Zeros(|m|) {
        forall i | 0 <= i < |m| ensures Dot(m[i], x) == 0.0 {
          assert MatrixVector(m, x)[i] == Zeros(|m|)[i];
        }
      }
    }
  }

  lemma {:induction false} KernelStep(m: Matrix, previous: real, x: Vector)
    requires |x| == |m| >= 2 && IsMatrix(m, |m|, |m|) && previous != 0.0 && m[0][0] != 0.0
    ensures Dot(m[0], x) == 0.0 ==> (Annihilates(m, x) <==> Annihilates(Eliminate(m, previous), x[1..]))
  {
    hide Dot, Eliminate, Times;
    if Dot(m[0], x) == 0.0 {
      var s := Eliminate(m, previous);
      forall i | 0 <= i < |m| - 1
        ensures Dot(m[i + 1], x) == 0.0 <==> Dot(s[i], x[1..]) == 0.0
      {
        RowSplit(m, previous, x, i);
        ZeroFactor(m[i + 1][0], 0.0);
        ZeroFactor(m[0][0], Dot(m[i + 1], x));
        ZeroFactor(previous, Dot(s[i], x[1..]));
      }
      if Annihilates(m, x) {
        forall i | 0 <= i < |s| ensures Dot(s[i], x[1..]) == 0.0 {
          assert Dot(m[i + 1], x) == 0.0;
        }
      }
      if Annihilates(s, x[1..]) {
        forall i | 0 < i < |m| ensures Dot(m[i], x) == 0.0 {
          assert Dot(s[i - 1], x[1..]) == 0.0;
        }
      }
    }
  }

  lemma {:induction false} SingularStep(m: Matrix, previous: real)
    requires |m| >= 2 && IsMatrix(m, |m|, |m|) && previous != 0.0 && m[0][0] != 0.0
    ensures Singular(m) <==> Singular(Eliminate(m, previous))
  {
    hide Dot, Eliminate, Singular, Annihilates;
    var s := Eliminate(m, previous);
    KernelIsSingular(m);
    KernelIsSingular(s);
    if x: Vector :| |x| == |m| && x != Zeros(|m|) && Annihilates(m, x) {
      KernelFirst(m, x);
      KernelStep(m, previous, x);
      TailNonzero(m[0], x);
    }
    if y: Vector :| |y| == |s| && y != Zeros(|s|) && Annihilates(s, y) {
      var x := Annihilator(m[0], y);
      KernelStep(m, previous, x);
    }
  }

  lemma {:induction false} KernelFirst(m: Matrix, x: Vector)
    requires |m| > 0 && IsMatrix(m, |m|, |x|) && Annihilates(m, x)
    ensures Dot(m[0], x) == 0.0
  {
  }

  lemma {:induction false} TailNonzero(row: Vector, x: Vector)
    requires |row| == |x| > 0 && row[0] != 0.0 && x != Zeros(|x|) && Dot(row, x) == 0.0
    ensures x[1..] != Zeros(|x| - 1)
  {
    if x[1..] == Zeros(|x| - 1) {
      NonzeroHead(x);
      FirstProduct(row, x);
      assert false;
    }
  }

  lemma {:induction false} SwapSingular(m: Matrix, r: nat)
    requires r < |m| && IsMatrix(m, |m|, |m|)
    ensures Singular(Swap(m, 0, r)) <==> Singular(m)
  {
    hide Dot, Singular;
    var swapped := Swap(m, 0, r);
    KernelIsSingular(m);
    KernelIsSingular(swapped);
    forall x: Vector | |x| == |m| ensures Annihilates(swapped, x) <==> Annihilates(m, x) {
      if Annihilates(swapped, x) {
        forall i | 0 <= i < |m| ensures Dot(m[i], x) == 0.0 {
          assert m[i] == swapped[if i == 0 then r else if i == r then 0 else i];
        }
      }
    }
  }

  lemma {:induction false} ZeroColumnSingular(m: Matrix)
    requires |m| >= 1 && IsMatrix(m, |m|, |m|) && forall i :: 0 <= i < |m| ==> m[i][0] == 0.0
    ensures Singular(m)
  {
    var x := Unit(|m|, 0);
    hide Dot;
    assert x[0] != Zeros(|m|)[0];
    forall i | 0 <= i < |m| ensures MatrixVector(m, x)[i] == 0.0 {
      DotUnit(m[i], 0);
    }
  }

  lemma {:induction false} SingleSingular(m: Matrix)
    requires |m| == 1 && IsMatrix(m, 1, 1)
    ensures Singular(m) <==> m[0][0] == 0.0
  {
    if m[0][0] == 0.0 {
      ZeroColumnSingular(m);
    }
    if x: Vector :| |x| == 1 && x != Zeros(1) && MatrixVector(m, x) == Zeros(1) {
      assert MatrixVector(m, x)[0] == Dot(m[0], x) == m[0][0] * x[0] + Dot(m[0][1..], x[1..]);
      assert x[0] != 0.0;
      ZeroFactor(x[0], m[0][0]);
    }
  }

  lemma {:induction false} EliminationDecides(m: Matrix, previous: real)
    requires |m| >= 1 && IsMatrix(m, |m|, |m|) && previous != 0.0
    ensures Elimination(m, previous) == 0.0 <==> Singular(m)
    decreases |m|, if |m[0]| > 0 && m[0][0] != 0.0 then 0 else 1
  {
    hide Singular, Eliminate;
    if |m| == 1 {
      SingleSingular(m);
    } else if m[0][0] != 0.0 {
      EliminationDecides(Eliminate(m, previous), m[0][0]);
      SingularStep(m, previous);
    } else {
      var r := PivotRow(m, 1);
      if r.None? {
        ZeroColumnSingular(m);
      } else {
        EliminationDecides(Swap(m, 0, r.value), previous);
        SwapSingular(m, r.value);
      }
    }
  }

  /** The inversion raises exactly on the matrices whose determinant is zero. */
  lemma {:induction false} DeterminantDecides(m: Matrix)
    requires |m| >= 1 && IsMatrix(m, |m|, |m|)
    ensures Determinants.Det(m) == 0.0 <==> Singular(m)
  {
    hide Elimination, Singular, Determinants.Det;
    EliminationFromOne(m);
    EliminationDecides(m, 1.0);
  }
}
