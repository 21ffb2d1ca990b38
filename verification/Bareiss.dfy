/** Fraction-free elimination and the leading-minor test for positive definiteness. */
module Bareiss {
  import opened LinearAlgebra
  import opened Determinants
  import opened Options

  // ----- one elimination, as a function of the part of the work matrix still active -----

  /** The first row below the top one whose leading entry is nonzero. */
  function PivotRow(m: Matrix, from: nat): (r: Option<nat>)
    requires forall i :: 0 <= i < |m| ==> |m[i]| >= 1
    requires from <= |m|
    decreases |m| - from
    ensures r.None? ==> forall i :: from <= i < |m| ==> m[i][0] == 0.0
    ensures r.Some? ==> from <= r.value < |m| && m[r.value][0] != 0.0
    ensures r.Some? ==> forall i :: from <= i < r.value ==> m[i][0] == 0.0
  {
    if from == |m| then None
    else if m[from][0] != 0.0 then Some(from)
    else PivotRow(m, from + 1)
  }

  function Swap(m: Matrix, i: nat, j: nat): Matrix
    requires i < |m| && j < |m|
  {
    m[i := m[j]][j := m[i]]
  }

  /** The fraction-free update of one entry. */
  function Update(entry: real, pivot: real, left: real, above: real, previous: real): real
    requires previous != 0.0
  {
    (entry * pivot - left * above) / previous
  }

  function Eliminate(m: Matrix, previous: real): (r: Matrix)
    requires |m| >= 1 && IsMatrix(m, |m|, |m|) && previous != 0.0
    ensures IsMatrix(r, |m| - 1, |m| - 1)
  {
    seq(|m| - 1, i requires 0 <= i < |m| - 1 =>
      seq(|m| - 1, j requires 0 <= j < |m| - 1 =>
        Update(m[i + 1][j + 1], m[0][0], m[i + 1][0], m[0][j + 1], previous)))
  }

  /** What the elimination returns from an active part m, the last pivot being previous. */
  function Elimination(m: Matrix, previous: real): real
    requires |m| >= 1 && IsMatrix(m, |m|, |m|) && previous != 0.0
    decreases |m|
  {
    if |m| == 1 then m[0][0]
    else if m[0][0] != 0.0 then Elimination(Eliminate(m, previous), m[0][0])
    else match PivotRow(m, 1)
      case None => 0.0
      case Some(r) => -Elimination(Eliminate(Swap(m, 0, r), previous), m[r][0])
  }

  function Active(work: Matrix, k: nat): (r: Matrix)
    requires k <= |work| && IsMatrix(work, |work|, |work|)
    ensures IsMatrix(r, |work| - k, |work| - k)
  {
    seq(|work| - k, i requires 0 <= i < |work| - k => work[k + i][k..])
  }

  // ----- the source's loops -----

  /** The two inner loops: every entry below and right of the pivot is rewritten in place. */
  method EliminateBelow(start: Matrix, k: nat, previous: real) returns (work: Matrix)
    requires k < |start| && IsMatrix(start, |start|, |start|) && previous != 0.0
    ensures IsMatrix(work, |start|, |start|)
    ensures Active(work, k + 1) == Eliminate(Active(start, k), previous)
  {
    hide Update;
    work := start;
    var n, pivot := |start|, start[k][k];
    for row := k + 1 to n
      invariant IsMatrix(work, n, n)
      invariant forall i :: 0 <= i <= k || row <= i < n ==> work[i] == start[i]
      invariant forall i, j :: k < i < row && k < j < n ==>
        work[i][j] == Update(start[i][j], pivot, start[i][k], start[k][j], previous)
    {
      for column := k + 1 to n
        invariant IsMatrix(work, n, n)
        invariant forall i :: 0 <= i <= k || row < i < n ==> work[i] == start[i]
        invariant forall i, j :: k < i < row && k < j < n ==>
          work[i][j] == Update(start[i][j], pivot, start[i][k], start[k][j], previous)
        invariant forall j :: 0 <= j <= k || column <= j < n ==> work[row][j] == start[row][j]
        invariant forall j :: k < j < column ==>
          work[row][j] == Update(start[row][j], pivot, start[row][k], start[k][j], previous)
      {
        work := work[row := work[row][column :=
          Update(work[row][column], pivot, work[row][k], work[k][column], previous)]];
      }
    }
    forall i | 0 <= i < n - k - 1
      ensures Active(work, k + 1)[i] == Eliminate(Active(start, k), previous)[i]
    {
      assert Active(start, k)[i + 1] == start[k + i + 1][k..] && Active(start, k)[0] == start[k][k..];
      forall j | 0 <= j < n - k - 1
        ensures Active(work, k + 1)[i][j] == Eliminate(Active(start, k), previous)[i][j]
      {
        assert work[k + 1 + i][k + 1 + j]
            == Update(start[k + 1 + i][k + 1 + j], pivot, start[k + 1 + i][k], start[k][k + 1 + j], previous);
      }
    }
  }

  /** The scan for a row to swap in: the first one below k with a nonzero entry, or the size if none. */
  method FindPivot(work: Matrix, k: nat) returns (swap: nat)
    requires k < |work| && IsMatrix(work, |work|, |work|)
    ensures k < swap <= |work|
    ensures PivotRow(Active(work, k), 1) == if swap == |work| then None else Some(swap - k)
  {
    swap := k + 1;
    while swap < |work| && work[swap][k] == 0.0
      invariant k < swap <= |work|
      invariant forall i :: k < i < swap ==> work[i][k] == 0.0
    {
      swap := swap + 1;
    }
    FoundPivot(work, k, swap);
  }

  method Determinant(matrix: Matrix) returns (d: real)
    requires |matrix| >= 1 && IsMatrix(matrix, |matrix|, |matrix|)
    ensures d == Elimination(matrix, 1.0) == Det(matrix)
  {
    hide Elimination, Eliminate, PivotRow, Active, Update, Swap, Det;
    EliminationFromOne(matrix);
    var size, work, sign, previous := |matrix|, matrix, 1.0, 1.0;
    ActiveEnds(matrix, 1.0);
    for k := 0 to size - 1
      invariant IsMatrix(work, size, size) && previous != 0.0
      invariant sign == 1.0 || sign == -1.0
      invariant Elimination(matrix, 1.0)
             == if sign == 1.0 then Elimination(Active(work, k), previous) else -Elimination(Active(work, k), previous)
    {
      if work[k][k] == 0.0 {
        var swap := FindPivot(work, k);
        EliminationSwap(work, k, previous, swap);
        if swap == size {
          return 0.0;
        }
        work := Swap(work, k, swap);
        sign := -sign;
      }
      EliminationPivot(work, k, previous);
      var pivot := work[k][k];
      work := EliminateBelow(work, k, previous);
      previous := pivot;
    }
    ActiveEnds(work, previous);
    return sign * work[size - 1][size - 1];
  }

  lemma {:induction false} ActiveEnds(work: Matrix, previous: real)
    requires |work| >= 1 && IsMatrix(work, |work|, |work|) && previous != 0.0
    ensures Active(work, 0) == work
    ensures Elimination(Active(work, |work| - 1), previous) == work[|work| - 1][|work| - 1]
  {
  }

  lemma {:induction false} EliminationPivot(work: Matrix, k: nat, previous: real)
    requires k < |work| - 1 && IsMatrix(work, |work|, |work|) && previous != 0.0 && work[k][k] != 0.0
    ensures Elimination(Active(work, k), previous)
         == Elimination(Eliminate(Active(work, k), previous), work[k][k])
  {
  }

  lemma {:induction false} EliminationSwap(work: Matrix, k: nat, previous: real, swap: nat)
    requires k < |work| - 1 && IsMatrix(work, |work|, |work|) && previous != 0.0 && work[k][k] == 0.0
    requires k < swap <= |work|
    requires PivotRow(Active(work, k), 1) == if swap == |work| then None else Some(swap - k)
    ensures swap == |work| ==> Elimination(Active(work, k), previous) == 0.0
    ensures swap < |work| ==>
      && IsMatrix(Swap(work, k, swap), |work|, |work|) && Swap(work, k, swap)[k][k] != 0.0
      && Elimination(Active(work, k), previous) == -Elimination(Active(Swap(work, k, swap), k), previous)
  {
    if swap < |work| {
      SwapActive(work, k, swap);
      assert Active(work, k)[swap - k][0] == work[swap][k];
    }
  }

  lemma {:induction false} SwapActive(work: Matrix, k: nat, swap: nat)
    requires k < swap < |work| && IsMatrix(work, |work|, |work|)
    ensures Active(Swap(work, k, swap), k) == Swap(Active(work, k), 0, swap - k)
  {
  }

  lemma {:induction false} FoundPivot(work: Matrix, k: nat, swap: nat)
    requires k < swap <= |work| && IsMatrix(work, |work|, |work|)
    requires forall i :: k < i < swap ==> work[i][k] == 0.0
    requires swap < |work| ==> work[swap][k] != 0.0
    ensures PivotRow(Active(work, k), 1) == if swap == |work| then None else Some(swap - k)
  {
    var m, r := Active(work, k), PivotRow(Active(work, k), 1);
    forall i | 0 <= i < |m| ensures m[i][0] == work[k + i][k] {
    }
    assert r.Some? ==> work[k + r.value][k] != 0.0;
    assert swap < |work| ==> m[swap - k][0] != 0.0;
  }

  // ----- the value of an elimination -----

  lemma {:induction false} ClearedCorner(m: Matrix, previous: real)
    requires |m| >= 2 && IsMatrix(m, |m|, |m|) && previous != 0.0
    ensures var c := Cleared(m, |m|);
      && (forall i :: 1 <= i < |m| ==> c[i][0] == 0.0)
      && Minor(c, 0) == ScaledRows(Eliminate(m, previous), previous, |m| - 1)
  {
    hide Eliminate, Update;
    var c, s := Cleared(m, |m|), Eliminate(m, previous);
    forall i | 1 <= i < |m| ensures c[i][0] == 0.0 && c[i][1..] == Scale(previous, s[i - 1]) {
      CombineTail(m[0][0], m[i], -m[i][0], m[0]);
      EliminateRow(m, previous, i - 1);
    }
  }

  /** One step, divisions cleared: n - 1 rows were multiplied by the pivot, and n - 1 divided by the last pivot. */
  lemma {:induction false} PivotStepDet(m: Matrix, previous: real)
    requires |m| >= 2 && IsMatrix(m, |m|, |m|) && previous != 0.0
    ensures Power(m[0][0], |m| - 1) * Det(m)
         == m[0][0] * (Power(previous, |m| - 1) * Det(Eliminate(m, previous)))
  {
    hide Det, Eliminate, Minor, ScaledRows, Combine, Power;
    var c := Cleared(m, |m|);
    ClearedDet(m, |m|);
    ClearedCorner(m, previous);
    WholeExpansion(c);
    CornerExpansion(c, |m|);
    ScaledDet(Eliminate(m, previous), previous, |m| - 1);
  }

  lemma {:induction false} WholeExpansion(m: Matrix)
    requires |m| >= 1 && IsMatrix(m, |m|, |m|)
    ensures Det(m) == Expansion(m, |m|)
  {
  }

  lemma {:induction false} CancelPivot(a: real, power: real, d: real, scale: real, e: real)
    requires a != 0.0 && power != 0.0 && (a * power) * d == a * (scale * (e * power))
    ensures e * scale == d
  {
    assert (a * power) * d == (a * power) * (e * scale);
    Product(a, power);
    CancelFactor(a * power, d, e * scale);
  }

  lemma {:induction false} CancelFactor(c: real, x: real, y: real)
    requires c != 0.0 && c * x == c * y
    ensures x == y
  {
    assert c * (x - y) == 0.0;
    Product(c, x - y);
  }

  lemma {:induction false} ZeroColumn(m: Matrix, k: nat)
    requires k <= |m| && IsMatrix(m, |m|, |m|) && forall i :: 0 <= i < |m| ==> m[i][0] == 0.0
    ensures Expansion(m, k) == 0.0
  {
    hide Det, Minor;
    if k > 0 {
      ZeroColumn(m, k - 1);
    }
  }

  /** Elimination computes the determinant, the last pivot's powers apart; a swap changes the sign of both. */
  lemma {:induction false} EliminationIsDeterminant(m: Matrix, previous: real)
    requires |m| >= 1 && IsMatrix(m, |m|, |m|) && previous != 0.0
    ensures Elimination(m, previous) * Power(previous, |m| - 1) == Det(m)
    decreases |m|, if |m[0]| > 0 && m[0][0] != 0.0 then 0 else 1
  {
    hide Det, Expansion, Eliminate, Minor;
    if |m| == 1 {
      SingleEntry(m);
    } else if m[0][0] != 0.0 {
      var a, n, next := m[0][0], |m|, Eliminate(m, previous);
      EliminationIsDeterminant(next, a);
      PivotStepDet(m, previous);
      CancelPivot(a, Power(a, n - 2), Det(m), Power(previous, n - 1), Elimination(next, a));
    } else {
      var r := PivotRow(m, 1);
      if r.None? {
        ZeroColumn(m, |m|);
        WholeExpansion(m);
      } else {
        var swapped := Swap(m, 0, r.value);
        EliminationIsDeterminant(swapped, previous);
        SwapNegates(m, 0, r.value);
      }
    }
  }

  lemma {:induction false} SingleEntry(m: Matrix)
    requires |m| == 1 && IsMatrix(m, 1, 1)
    ensures Det(m) == m[0][0]
  {
    assert Expansion(m, 1) == Expansion(m, 0) + Term(m, 0);
  }

  lemma {:induction false} EliminationFromOne(m: Matrix)
    requires |m| >= 1 && IsMatrix(m, |m|, |m|)
    ensures Elimination(m, 1.0) == Det(m)
  {
    hide Det, Elimination;
    EliminationIsDeterminant(m, 1.0);
    PowerOfOne(|m| - 1);
  }

  lemma {:induction false} PowerOfOne(k: nat)
    ensures Power(1.0, k) == 1.0
  {
    if k > 0 {
      PowerOfOne(k - 1);
    }
  }

  function Leading(m: Matrix, k: nat): Matrix
    requires k <= |m| && IsMatrix(m, |m|, |m|)
  {
    seq(k, i requires 0 <= i < k => m[i][..k])
  }

  /** Sylvester's test as the source runs it: one separate elimination for each leading block. */
  method IsPositiveDefinite(matrix: Matrix) returns (ok: bool)
    requires IsMatrix(matrix, |matrix|, |matrix|)
    ensures IsSymmetric(matrix) ==> (ok <==> PositiveDefinite(matrix))
  {
    ok := true;
    for size := 1 to |matrix| + 1
      invariant forall k :: 1 <= k < size ==> Elimination(Leading(matrix, k), 1.0) > 0.0
    {
      var d := Determinant(Leading(matrix, size));
      if d <= 0.0 {
        ok := false;
        if IsSymmetric(matrix) {
          MinorsDecide(matrix);
        }
        return;
      }
    }
    if IsSymmetric(matrix) {
      MinorsDecide(matrix);
    }
  }

  // ----- why the minors decide -----

  /** Every pivot met without a swap is positive. */
  ghost predicate PositivePivots(m: Matrix, previous: real)
    requires IsMatrix(m, |m|, |m|) && previous != 0.0
    decreases |m|
  {
    |m| == 0 || (m[0][0] > 0.0 && PositivePivots(Eliminate(m, previous), m[0][0]))
  }

  lemma {:induction false} LeadingEliminate(m: Matrix, previous: real, k: nat)
    requires IsMatrix(m, |m|, |m|) && previous != 0.0 && 1 <= k <= |m|
    ensures Leading(Eliminate(m, previous), k - 1) == Eliminate(Leading(m, k), previous)
  {
    forall i | 0 <= i < k - 1
      ensures Leading(Eliminate(m, previous), k - 1)[i] == Eliminate(Leading(m, k), previous)[i]
    {
      hide Update;
      assert Leading(m, k)[i + 1] == m[i + 1][..k] && Leading(m, k)[0] == m[0][..k];
    }
  }

  ghost predicate PositiveMinors(m: Matrix, previous: real)
    requires IsMatrix(m, |m|, |m|) && previous != 0.0
  {
    forall k :: 1 <= k <= |m| ==> Elimination(Leading(m, k), previous) > 0.0
  }

  /** The runs for different sizes agree, and none of them swaps before one of them fails. */
  lemma {:induction false} MinorsArePivots(m: Matrix, previous: real)
    requires IsMatrix(m, |m|, |m|) && previous != 0.0
    ensures PositiveMinors(m, previous) <==> PositivePivots(m, previous)
    decreases |m|
  {
    if |m| > 0 {
      assert Leading(m, 1)[0][0] == m[0][0];
      assert Elimination(Leading(m, 1), previous) == m[0][0];
      if m[0][0] > 0.0 {
        var next := Eliminate(m, previous);
        MinorsArePivots(next, m[0][0]);
        forall k | 2 <= k <= |m|
          ensures Elimination(Leading(m, k), previous) == Elimination(Leading(next, k - 1), m[0][0])
        {
          LeadingEliminate(m, previous, k);
        }
        if PositiveMinors(m, previous) {
          forall k | 1 <= k <= |next| ensures Elimination(Leading(next, k), m[0][0]) > 0.0 {
            assert Elimination(Leading(m, k + 1), previous) > 0.0;
          }
        }
      }
    }
  }

  lemma {:induction false} EliminateSymmetric(m: Matrix, previous: real)
    requires |m| >= 1 && IsMatrix(m, |m|, |m|) && IsSymmetric(m) && previous != 0.0
    ensures IsSymmetric(Eliminate(m, previous))
  {
    var s := Eliminate(m, previous);
    forall i, j | 0 <= i < |m| && 0 <= j < |m| ensures m[i][j] == m[j][i] {
      assert m[i][j] == Transpose(m, |m|)[i][j];
    }
    forall i | 0 <= i < |s| ensures s[i] == Transpose(s, |s|)[i] {
      forall j | 0 <= j < |s| ensures s[i][j] == s[j][i] {
        UpdateCommutes(m[i + 1][j + 1], m[0][0], m[i + 1][0], m[0][j + 1], previous);
        assert m[i + 1][j + 1] == m[j + 1][i + 1] && m[0][j + 1] == m[j + 1][0] && m[i + 1][0] == m[0][i + 1];
      }
    }
  }

  lemma {:induction false} UpdateCommutes(e: real, a: real, l: real, b: real, previous: real)
    requires previous != 0.0
    ensures Update(e, a, l, b, previous) == Update(e, a, b, l, previous)
    ensures previous * Update(e, a, l, b, previous) == a * e + -l * b
  {
  }

  /** m with its first row and first column removed. */
  function Lower(m: Matrix): (c: Matrix)
    requires |m| >= 1 && IsMatrix(m, |m|, |m|)
    ensures IsMatrix(c, |m| - 1, |m| - 1)
  {
    seq(|m| - 1, i requires 0 <= i < |m| - 1 => m[i + 1][1..])
  }

  lemma {:induction false} LowerRows(m: Matrix, x: Vector)
    requires |x| == |m| >= 1 && IsMatrix(m, |m|, |m|) && IsSymmetric(m)
    ensures MatrixVector(m, x)[1..] == Combine(x[0], m[0][1..], 1.0, MatrixVector(Lower(m), x[1..]))
  {
    hide Dot;
    var cy := MatrixVector(Lower(m), x[1..]);
    forall i | 0 <= i < |m| - 1 ensures MatrixVector(m, x)[1..][i] == Combine(x[0], m[0][1..], 1.0, cy)[i] {
      SymmetricEntry(m, i + 1);
      DotHead(m[i + 1], x);
      SumTerms(x[0], m[i + 1][0], cy[i]);
    }
  }

  lemma {:induction false} SumTerms(a: real, b: real, c: real)
    ensures a * b + 1.0 * c == b * a + c
  {
  }

  /** The energy of m split along the first coordinate. */
  lemma {:induction false} EnergyBlocks(m: Matrix, x: Vector)
    requires |x| == |m| >= 1 && IsMatrix(m, |m|, |m|) && IsSymmetric(m)
    ensures Dot(m[0], x) == m[0][0] * x[0] + Dot(m[0][1..], x[1..])
    ensures Quadratic(m, x)
         == m[0][0] * (x[0] * x[0]) + 2.0 * (x[0] * Dot(m[0][1..], x[1..])) + Quadratic(Lower(m), x[1..])
  {
    hide Dot, Combine, Lower;
    LowerRows(m, x);
    DotHead(m[0], x);
    DotHead(x, MatrixVector(m, x));
    DotCommutes(m[0][1..], x[1..]);
    DotCombine(x[1..], x[0], m[0][1..], 1.0, MatrixVector(Lower(m), x[1..]));
    BlockArithmetic(m[0][0], x[0], Dot(m[0][1..], x[1..]), Quadratic(Lower(m), x[1..]), Dot(m[0], x), Quadratic(m, x));
  }

  lemma {:induction false} BlockArithmetic(a: real, x: real, beta: real, kappa: real, d: real, q: real)
    requires d == a * x + beta && q == x * d + (x * beta + 1.0 * kappa)
    ensures q == a * (x * x) + 2.0 * (x * beta) + kappa
  {
  }

  lemma {:induction false} EliminateRow(m: Matrix, previous: real, i: nat)
    requires IsMatrix(m, |m|, |m|) && previous != 0.0 && i + 1 < |m|
    ensures Scale(previous, Eliminate(m, previous)[i])
         == Combine(m[0][0], Lower(m)[i], -m[i + 1][0], m[0][1..])
  {
    forall j | 0 <= j < |m| - 1
      ensures Scale(previous, Eliminate(m, previous)[i])[j]
           == Combine(m[0][0], Lower(m)[i], -m[i + 1][0], m[0][1..])[j]
    {
      hide Update;
      UpdateCommutes(m[i + 1][j + 1], m[0][0], m[i + 1][0], m[0][j + 1], previous);
      assert m[i + 1][1..][j] == m[i + 1][j + 1] && m[0][1..][j] == m[0][j + 1];
    }
  }

  /** a*(Cy) - (b.y)*b, for a the corner of m, b the rest of its first row and C its lower block. */
  ghost function Reduced(m: Matrix, y: Vector): (r: Vector)
    requires |y| + 1 == |m| && IsMatrix(m, |m|, |m|)
    ensures |r| == |y|
  {
    Combine(m[0][0], MatrixVector(Lower(m), y), -Dot(m[0][1..], y), m[0][1..])
  }

  lemma {:induction false} ReducedAt(m: Matrix, y: Vector, i: nat)
    requires |y| + 1 == |m| && IsMatrix(m, |m|, |m|) && i < |y|
    ensures Reduced(m, y)[i]
         == Times(m[0][0], Dot(Lower(m)[i], y)) + Times(-Dot(m[0][1..], y), m[0][1..][i])
  {
    hide Dot, Lower;
  }

  lemma {:induction false} EliminateAppliedRow(m: Matrix, previous: real, y: Vector, i: nat)
    requires |y| + 1 == |m| && IsMatrix(m, |m|, |m|) && IsSymmetric(m) && previous != 0.0 && i < |y|
    ensures Times(previous, Dot(Eliminate(m, previous)[i], y)) == Reduced(m, y)[i]
  {
    SymmetricEntry(m, i + 1);
    hide Dot, Eliminate, Lower, IsSymmetric, Transpose, Reduced, Combine, MatrixVector, Update, Times;
    ReducedAt(m, y, i);
    EliminateRowDot(m, previous, y, i);
    NegatedFactors(m[i + 1][0], Dot(m[0][1..], y));
  }

  lemma {:induction false} NegatedFactors(l: real, beta: real)
    ensures Times(-l, beta) == Times(-beta, l)
  {
  }

  lemma {:induction false} SymmetricEntry(m: Matrix, i: nat)
    requires 0 < i < |m| && IsMatrix(m, |m|, |m|) && IsSymmetric(m)
    ensures m[i][0] == m[0][i] == m[0][1..][i - 1]
  {
    assert m[i][0] == Transpose(m, |m|)[i][0];
  }

  lemma {:induction false} EliminateRowDot(m: Matrix, previous: real, y: Vector, i: nat)
    requires |y| + 1 == |m| && IsMatrix(m, |m|, |m|) && previous != 0.0 && i < |y|
    ensures Times(previous, Dot(Eliminate(m, previous)[i], y))
         == Times(m[0][0], Dot(Lower(m)[i], y)) + Times(-m[i + 1][0], Dot(m[0][1..], y))
  {
    hide Dot, Eliminate, Lower, Scale, Combine, Update;
    EliminateRow(m, previous, i);
    ScaledCombineDot(y, previous, Eliminate(m, previous)[i], m[0][0], Lower(m)[i], -m[i + 1][0], m[0][1..]);
  }

  /** What the reduced matrix does to y, the division cleared. */
  lemma {:induction false} EliminateApplied(m: Matrix, previous: real, y: Vector)
    requires |y| + 1 == |m| && IsMatrix(m, |m|, |m|) && IsSymmetric(m) && previous != 0.0
    ensures Scale(previous, MatrixVector(Eliminate(m, previous), y)) == Reduced(m, y)
  {
    hide Dot, Eliminate, Lower, Combine, Reduced;
    forall i | 0 <= i < |y|
      ensures Scale(previous, MatrixVector(Eliminate(m, previous), y))[i] == Reduced(m, y)[i]
    {
      EliminateAppliedRow(m, previous, y, i);
    }
  }

  lemma {:induction false} ReducedEnergy(m: Matrix, previous: real, y: Vector)
    requires |y| + 1 == |m| && IsMatrix(m, |m|, |m|) && IsSymmetric(m) && previous != 0.0
    ensures previous * Quadratic(Eliminate(m, previous), y)
         == m[0][0] * Quadratic(Lower(m), y) - Dot(m[0][1..], y) * Dot(m[0][1..], y)
  {
    hide Dot, Eliminate, MatrixVector, Combine, Scale, Reduced, Quadratic;
    ReducedLeft(m, previous, y);
    ReducedRight(m, y);
  }

  lemma {:induction false} ReducedLeft(m: Matrix, previous: real, y: Vector)
    requires |y| + 1 == |m| && IsMatrix(m, |m|, |m|) && IsSymmetric(m) && previous != 0.0
    ensures previous * Quadratic(Eliminate(m, previous), y) == Dot(y, Reduced(m, y))
  {
    hide Dot, Eliminate, MatrixVector, Scale, Reduced, Lower, Combine;
    EliminateApplied(m, previous, y);
    DotScale(y, previous, MatrixVector(Eliminate(m, previous), y));
  }

  lemma {:induction false} ReducedRight(m: Matrix, y: Vector)
    requires |y| + 1 == |m| && IsMatrix(m, |m|, |m|)
    ensures Dot(y, Reduced(m, y)) == m[0][0] * Quadratic(Lower(m), y) - Dot(m[0][1..], y) * Dot(m[0][1..], y)
  {
    hide Dot, MatrixVector, Combine, Lower;
    DotReduced(y, m[0][0], MatrixVector(Lower(m), y), m[0][1..]);
  }

  /** The step on energies: m00 * x'Mx = (m0.x)^2 + previous * y'Sy, for y the tail of x. */
  lemma {:induction false} EnergyStep(m: Matrix, previous: real, x: Vector)
    requires |x| == |m| >= 1 && IsMatrix(m, |m|, |m|) && IsSymmetric(m) && previous != 0.0
    ensures m[0][0] * Quadratic(m, x)
         == Dot(m[0], x) * Dot(m[0], x) + previous * Quadratic(Eliminate(m, previous), x[1..])
  {
    hide Dot, Eliminate, MatrixVector, Quadratic, Combine, Lower;
    var a, b, y, s := m[0][0], m[0][1..], x[1..], Eliminate(m, previous);
    EnergyBlocks(m, x);
    ReducedEnergy(m, previous, y);
    StepArithmetic(a, x[0], Dot(b, y), Quadratic(Lower(m), y), previous, Quadratic(m, x), Quadratic(s, y),
                   Dot(m[0], x));
  }

  lemma {:induction false} StepArithmetic(a: real, x: real, beta: real, kappa: real, previous: real, q: real, s: real,
      d: real)
    requires d == a * x + beta && q == a * (x * x) + 2.0 * (x * beta) + kappa
    requires previous * s == a * kappa - beta * beta
    ensures a * q == d * d + previous * s
  {
    assert a * q == (a * x) * (a * x) + 2.0 * (a * x * beta) + a * kappa;
    assert d * d == (a * x) * (a * x) + 2.0 * (a * x * beta) + beta * beta;
  }

  /** Positive pivots give positive energy, and conversely. */
  lemma {:induction false} PivotsDecide(m: Matrix, previous: real)
    requires IsMatrix(m, |m|, |m|) && IsSymmetric(m) && previous > 0.0
    ensures PositivePivots(m, previous) <==> PositiveDefinite(m)
    decreases |m|
  {
    if |m| > 0 {
      var s := Eliminate(m, previous);
      EliminateSymmetric(m, previous);
      if m[0][0] > 0.0 {
        PivotsDecide(s, m[0][0]);
        if PositiveDefinite(s) {
          forall x: Vector | |x| == |m| && x != Zeros(|m|) ensures Quadratic(m, x) > 0.0 {
            ForwardEnergy(m, previous, x);
          }
        }
      }
      if PositiveDefinite(m) {
        CornerPositive(m);
        forall y: Vector | |y| == |s| && y != Zeros(|s|) ensures Quadratic(s, y) > 0.0 {
          BackwardEnergy(m, previous, y);
        }
      }
    }
  }

  lemma {:induction false} CornerPositive(m: Matrix)
    requires |m| > 0 && IsMatrix(m, |m|, |m|) && PositiveDefinite(m)
    ensures m[0][0] > 0.0
  {
    var e := Unit(|m|, 0);
    assert e[0] != Zeros(|m|)[0];
    DotUnit(MatrixVector(m, e), 0);
    DotUnit(m[0], 0);
  }

  lemma {:induction false} ForwardEnergy(m: Matrix, previous: real, x: Vector)
    requires |x| == |m| > 0 && IsMatrix(m, |m|, |m|) && IsSymmetric(m) && previous > 0.0
    requires m[0][0] > 0.0 && PositiveDefinite(Eliminate(m, previous)) && x != Zeros(|m|)
    ensures Quadratic(m, x) > 0.0
  {
    hide Dot, Eliminate, MatrixVector, Quadratic, PositiveDefinite, Combine, Lower;
    var s, y := Eliminate(m, previous), x[1..];
    EnergyStep(m, previous, x);
    EnergyNonnegative(s, y);
    if y == Zeros(|s|) {
      NonzeroHead(x);
      FirstProduct(m[0], x);
      SquareWins(m[0][0], Quadratic(m, x), Dot(m[0], x), previous, Quadratic(s, y));
    } else {
      EnergyPositive(s, y);
      TailWins(m[0][0], Quadratic(m, x), Dot(m[0], x), previous, Quadratic(s, y));
    }
  }

  lemma {:induction false} NonzeroHead(x: Vector)
    requires |x| > 0 && x != Zeros(|x|) && x[1..] == Zeros(|x| - 1)
    ensures x[0] != 0.0
  {
    if x[0] == 0.0 {
      ZeroFromParts(x);
      assert false;
    }
  }

  lemma {:induction false} FirstProduct(row: Vector, x: Vector)
    requires |row| == |x| > 0 && x[1..] == Zeros(|x| - 1)
    requires row[0] != 0.0 && x[0] != 0.0
    ensures Dot(row, x) != 0.0
  {
    DotZeros(row[1..]);
    assert row[0] * x[0] != 0.0;
  }

  lemma {:induction false} SquareWins(a: real, q: real, d: real, previous: real, s: real)
    requires a > 0.0 && previous > 0.0 && s >= 0.0 && a * q == d * d + previous * s && d != 0.0
    ensures q > 0.0
  {
    ProductSign(d, d, d * d);
    ProductMonotone(0.0, previous, 0.0, s);
    PositiveQuotient(a, q);
  }

  lemma {:induction false} TailWins(a: real, q: real, d: real, previous: real, s: real)
    requires a > 0.0 && previous > 0.0 && s > 0.0 && a * q == d * d + previous * s
    ensures q > 0.0
  {
    ProductPositive(previous, s);
    PositiveQuotient(a, q);
  }

  lemma {:induction false} BackwardEnergy(m: Matrix, previous: real, y: Vector)
    requires |y| + 1 == |m| && IsMatrix(m, |m|, |m|) && IsSymmetric(m) && previous > 0.0
    requires m[0][0] > 0.0 && PositiveDefinite(m) && y != Zeros(|y|)
    ensures Quadratic(Eliminate(m, previous), y) > 0.0
  {
    var x := Annihilator(m[0], y);
    hide Dot, Eliminate, MatrixVector, Quadratic, PositiveDefinite;
    EnergyStep(m, previous, x);
    EnergyPositive(m, x);
    ProductPositive(m[0][0], Quadratic(m, x));
    assert Dot(m[0], x) * Dot(m[0], x) == 0.0;
    PositiveQuotient(previous, Quadratic(Eliminate(m, previous), y));
  }

  /** The extension of y on which a row with a nonzero head vanishes. */
  lemma {:induction false} Annihilator(row: Vector, y: Vector) returns (x: Vector)
    requires |row| == |y| + 1 && row[0] != 0.0 && y != Zeros(|y|)
    ensures |x| == |row| && x[1..] == y && x != Zeros(|x|) && Dot(row, x) == 0.0
  {
    x := [-Dot(row[1..], y) / row[0]] + y;
    assert x[1..] == y;
    assert Zeros(|x|)[1..] == Zeros(|y|);
  }

  lemma {:induction false} PositiveQuotient(p: real, s: real)
    requires p > 0.0 && p * s > 0.0
    ensures s > 0.0
  {
  }

  /** A symmetric matrix of any size passes the minor test exactly when it is positive definite. */
  lemma {:induction false} MinorsDecide(m: Matrix)
    requires IsMatrix(m, |m|, |m|) && IsSymmetric(m)
    ensures PositiveMinors(m, 1.0) <==> PositiveDefinite(m)
  {
    MinorsArePivots(m, 1.0);
    PivotsDecide(m, 1.0);
  }
}
