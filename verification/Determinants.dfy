/** The determinant by expansion along the first column, and what row operations do to it. */
module Determinants {
  import opened LinearAlgebra

  /** m without row i and without its first column. */
  function Minor(m: Matrix, i: nat): (r: Matrix)
    requires i < |m| && IsMatrix(m, |m|, |m|)
    ensures IsMatrix(r, |m| - 1, |m| - 1)
  {
    seq(|m| - 1, k requires 0 <= k < |m| - 1 => (if k < i then m[k] else m[k + 1])[1..])
  }

  function Signed(i: nat, x: real): real {
    if i % 2 == 0 then x else -x
  }

  function Det(m: Matrix): real
    requires IsMatrix(m, |m|, |m|)
    decreases |m|, |m| + 1
  {
    if |m| == 0 then 1.0 else Expansion(m, |m|)
  }

  /** The first k terms of the expansion. */
  function Expansion(m: Matrix, k: nat): real
    requires k <= |m| && IsMatrix(m, |m|, |m|)
    decreases |m|, k
  {
    if k == 0 then 0.0 else Expansion(m, k - 1) + Term(m, k - 1)
  }

  function Term(m: Matrix, i: nat): real
    requires i < |m| && IsMatrix(m, |m|, |m|)
    decreases |m|, 0
  {
    Signed(i, Times(m[i][0], Det(Minor(m, i))))
  }

  function Power(a: real, k: nat): (r: real)
    ensures a != 0.0 ==> r != 0.0
  {
    if k == 0 then 1.0 else Product(a, Power(a, k - 1)); a * Power(a, k - 1)
  }

  lemma {:induction false} Product(a: real, b: real)
    ensures a != 0.0 && b != 0.0 ==> a * b != 0.0
  {
  }

  // ----- linearity in one row -----

  lemma {:induction false} MinorOfRow(m: Matrix, i: nat, u: Vector, j: nat)
    requires i < |m| && j < |m| && IsMatrix(m, |m|, |m|) && |u| == |m|
    ensures var r := m[i := u];
      Minor(r, j) == if i == j then Minor(m, j) else Minor(m, j)[(if i < j then i else i - 1) := u[1..]]
  {
  }

  lemma {:induction false} TermLinear(m: Matrix, i: nat, a: real, u: Vector, b: real, v: Vector, j: nat)
    requires i < |m| && j < |m| && IsMatrix(m, |m|, |m|) && |u| == |v| == |m|
    ensures Term(m[i := Combine(a, u, b, v)], j) == Times(a, Term(m[i := u], j)) + Times(b, Term(m[i := v], j))
    decreases |m|, 0
  {
    hide Det, Minor, Times, Signed;
    var w := Combine(a, u, b, v);
    MinorOfRow(m, i, u, j);
    MinorOfRow(m, i, v, j);
    MinorOfRow(m, i, w, j);
    if i == j {
      TermLeft(j, a, u[0], b, v[0], w[0], Det(Minor(m, j)));
    } else {
      CombineTail(a, u, b, v);
      DetLinear(Minor(m, j), if i < j then i else i - 1, a, u[1..], b, v[1..]);
      TermRight(j, a, Det(Minor(m[i := u], j)), b, Det(Minor(m[i := v], j)), Det(Minor(m[i := w], j)), m[j][0]);
    }
  }

  lemma {:induction false} ExpansionLinear(m: Matrix, i: nat, a: real, u: Vector, b: real, v: Vector, k: nat)
    requires i < |m| && k <= |m| && IsMatrix(m, |m|, |m|) && |u| == |v| == |m|
    ensures Expansion(m[i := Combine(a, u, b, v)], k)
         == Times(a, Expansion(m[i := u], k)) + Times(b, Expansion(m[i := v], k))
    decreases |m|, k
  {
    if k > 0 {
      hide Term, Combine, Expansion, Times;
      var left, right, both := m[i := u], m[i := v], m[i := Combine(a, u, b, v)];
      ExpansionLinear(m, i, a, u, b, v, k - 1);
      TermLinear(m, i, a, u, b, v, k - 1);
      OneMoreTerm(left, k);
      OneMoreTerm(right, k);
      OneMoreTerm(both, k);
      Gather(a, Expansion(left, k - 1), Term(left, k - 1), b, Expansion(right, k - 1), Term(right, k - 1));
    }
  }

  lemma {:induction false} OneMoreTerm(m: Matrix, k: nat)
    requires 1 <= k <= |m| && IsMatrix(m, |m|, |m|)
    ensures Expansion(m, k) == Expansion(m, k - 1) + Term(m, k - 1)
  {
  }

  lemma {:induction false} TermLeft(j: nat, a: real, x: real, b: real, y: real, z: real, d: real)
    requires z == a * x + b * y
    ensures Signed(j, Times(z, d)) == Times(a, Signed(j, Times(x, d))) + Times(b, Signed(j, Times(y, d)))
  {
    assert (a * x + b * y) * d == a * (x * d) + b * (y * d);
  }

  lemma {:induction false} TermRight(j: nat, a: real, x: real, b: real, y: real, z: real, d: real)
    requires z == Times(a, x) + Times(b, y)
    ensures Signed(j, Times(d, z)) == Times(a, Signed(j, Times(d, x))) + Times(b, Signed(j, Times(d, y)))
  {
    assert d * (a * x + b * y) == a * (d * x) + b * (d * y);
  }

  lemma {:induction false} Gather(a: real, s: real, x: real, b: real, t: real, y: real)
    ensures (Times(a, s) + Times(b, t)) + (Times(a, x) + Times(b, y)) == Times(a, s + x) + Times(b, t + y)
  {
  }

  lemma {:induction false} DetLinear(m: Matrix, i: nat, a: real, u: Vector, b: real, v: Vector)
    requires i < |m| && IsMatrix(m, |m|, |m|) && |u| == |v| == |m|
    ensures Det(m[i := Combine(a, u, b, v)]) == Times(a, Det(m[i := u])) + Times(b, Det(m[i := v]))
    decreases |m|, |m| + 1
  {
    hide Expansion, Combine, Times;
    ExpansionLinear(m, i, a, u, b, v, |m|);
  }

  // ----- equal rows and exchanged rows -----

  lemma {:induction false} ExpansionAdjacent(m: Matrix, i: nat, k: nat)
    requires i + 1 < |m| && k <= |m| && IsMatrix(m, |m|, |m|) && m[i] == m[i + 1]
    ensures Expansion(m, k) == if k == i + 1 then Term(m, i) else 0.0
    decreases |m|, k
  {
    if k > 0 {
      hide Term;
      ExpansionAdjacent(m, i, k - 1);
      TermAdjacent(m, i, k - 1);
    }
  }

  lemma {:induction false} TermAdjacent(m: Matrix, i: nat, j: nat)
    requires i + 1 < |m| && j < |m| && IsMatrix(m, |m|, |m|) && m[i] == m[i + 1]
    ensures j == i + 1 ==> Term(m, j) == -Term(m, i)
    ensures j != i && j != i + 1 ==> Term(m, j) == 0.0
    decreases |m|, 0
  {
    hide Det, Minor;
    MinorAdjacent(m, i, j);
    if j != i && j != i + 1 {
      AdjacentVanish(Minor(m, j), if j < i then i - 1 else i);
    }
  }

  lemma {:induction false} MinorAdjacent(m: Matrix, i: nat, j: nat)
    requires i + 1 < |m| && j < |m| && IsMatrix(m, |m|, |m|) && m[i] == m[i + 1]
    ensures j == i + 1 ==> Minor(m, j) == Minor(m, i)
    ensures j != i && j != i + 1 ==>
      var i' := if j < i then i - 1 else i; i' + 1 < |m| - 1 && Minor(m, j)[i'] == Minor(m, j)[i' + 1]
  {
  }

  lemma {:induction false} AdjacentVanish(m: Matrix, i: nat)
    requires i + 1 < |m| && IsMatrix(m, |m|, |m|) && m[i] == m[i + 1]
    ensures Det(m) == 0.0
    decreases |m|, |m| + 1
  {
    hide Expansion;
    ExpansionAdjacent(m, i, |m|);
  }

  /** If repeating a row at i and j always gives zero, exchanging those rows changes the sign. */
  lemma {:induction false} ExchangeNegates(m: Matrix, i: nat, j: nat, u: Vector, v: Vector)
    requires i < |m| && j < |m| && i != j && IsMatrix(m, |m|, |m|) && |u| == |v| == |m|
    requires forall x: Vector :: |x| == |m| ==> Det(m[i := x][j := x]) == 0.0
    ensures Det(m[i := u][j := v]) == -Det(m[i := v][j := u])
  {
    hide Det, Combine;
    var w := Combine(1.0, u, 1.0, v);
    DetLinear(m[i := w], j, 1.0, u, 1.0, v);
    ExchangeSplits(m, i, j, u, v, u);
    ExchangeSplits(m, i, j, u, v, v);
    assert Det(m[i := w][j := w]) == 0.0;
  }

  lemma {:induction false} ExchangeSplits(m: Matrix, i: nat, j: nat, u: Vector, v: Vector, x: Vector)
    requires i < |m| && j < |m| && i != j && IsMatrix(m, |m|, |m|) && |u| == |v| == |x| == |m|
    ensures Det(m[i := Combine(1.0, u, 1.0, v)][j := x]) == Det(m[i := u][j := x]) + Det(m[i := v][j := x])
  {
    hide Det, Combine;
    var w := Combine(1.0, u, 1.0, v);
    DetLinear(m[j := x], i, 1.0, u, 1.0, v);
    assert m[j := x][i := w] == m[i := w][j := x];
    assert m[j := x][i := u] == m[i := u][j := x];
    assert m[j := x][i := v] == m[i := v][j := x];
  }

  /** Two equal rows, however far apart. */
  lemma {:induction false} EqualRowsVanish(m: Matrix, i: nat, j: nat)
    requires i < j < |m| && IsMatrix(m, |m|, |m|) && m[i] == m[j]
    ensures Det(m) == 0.0
    decreases j
  {
    hide Det;
    if j == i + 1 {
      AdjacentVanish(m, i);
    } else {
      forall x: Vector | |x| == |m| ensures Det(m[j - 1 := x][j := x]) == 0.0 {
        AdjacentVanish(m[j - 1 := x][j := x], j - 1);
      }
      ExchangeNegates(m, j - 1, j, m[j - 1], m[j]);
      assert m[j - 1 := m[j - 1]][j := m[j]] == m;
      EqualRowsVanish(m[j - 1 := m[j]][j := m[j - 1]], i, j - 1);
    }
  }

  lemma {:induction false} SwapNegates(m: Matrix, i: nat, j: nat)
    requires i < j < |m| && IsMatrix(m, |m|, |m|)
    ensures Det(m[i := m[j]][j := m[i]]) == -Det(m)
  {
    hide Det;
    forall x: Vector | |x| == |m| ensures Det(m[i := x][j := x]) == 0.0 {
      EqualRowsVanish(m[i := x][j := x], i, j);
    }
    ExchangeNegates(m, i, j, m[i], m[j]);
    assert m[i := m[i]][j := m[j]] == m;
  }

  // ----- the row operations of one elimination step -----

  /** Rows 1..k-1 become a times themselves less a multiple of the first row. */
  function Cleared(m: Matrix, k: nat): (r: Matrix)
    requires 1 <= k <= |m| && IsMatrix(m, |m|, |m|)
    ensures IsMatrix(r, |m|, |m|)
  {
    seq(|m|, i requires 0 <= i < |m| => if 1 <= i < k then Combine(m[0][0], m[i], -m[i][0], m[0]) else m[i])
  }

  lemma {:induction false} ClearedDet(m: Matrix, k: nat)
    requires 1 <= k <= |m| && IsMatrix(m, |m|, |m|)
    ensures Det(Cleared(m, k)) == Power(m[0][0], k - 1) * Det(m)
  {
    hide Det, Combine;
    if k == 1 {
      assert Cleared(m, 1) == m;
    } else {
      var before, i, a := Cleared(m, k - 1), k - 1, m[0][0];
      ClearedDet(m, k - 1);
      assert Cleared(m, k) == before[i := Combine(a, m[i], -m[i][0], m[0])];
      DetLinear(before, i, a, m[i], -m[i][0], m[0]);
      assert before[i := m[i]] == before;
      EqualRowsVanish(before[i := m[0]], 0, i);
      OneMore(a, Power(a, k - 2), Det(m), Det(before), -m[i][0]);
    }
  }

  lemma {:induction false} OneMore(a: real, power: real, d: real, before: real, l: real)
    requires before == power * d
    ensures a * before + l * 0.0 == (a * power) * d
  {
  }

  function ScaledRows(m: Matrix, p: real, k: nat): (r: Matrix)
    requires k <= |m| && IsMatrix(m, |m|, |m|)
    ensures IsMatrix(r, |m|, |m|)
  {
    seq(|m|, i requires 0 <= i < |m| => if i < k then Scale(p, m[i]) else m[i])
  }

  lemma {:induction false} ScaledDet(m: Matrix, p: real, k: nat)
    requires k <= |m| && IsMatrix(m, |m|, |m|)
    ensures Det(ScaledRows(m, p, k)) == Power(p, k) * Det(m)
  {
    hide Det;
    if k == 0 {
      assert ScaledRows(m, p, 0) == m;
    } else {
      var before, i := ScaledRows(m, p, k - 1), k - 1;
      ScaledDet(m, p, k - 1);
      assert Scale(p, m[i]) == Combine(p, m[i], 0.0, m[i]);
      assert ScaledRows(m, p, k) == before[i := Scale(p, m[i])];
      DetLinear(before, i, p, m[i], 0.0, m[i]);
      assert before[i := m[i]] == before;
      OneMore(p, Power(p, k - 1), Det(m), Det(before), 0.0);
    }
  }

  /** Below a first column of zeros only the corner term is left. */
  lemma {:induction false} CornerExpansion(m: Matrix, k: nat)
    requires 1 <= k <= |m| && IsMatrix(m, |m|, |m|) && forall i :: 1 <= i < |m| ==> m[i][0] == 0.0
    ensures Expansion(m, k) == m[0][0] * Det(Minor(m, 0))
  {
    hide Det, Minor;
    if k > 1 {
      CornerExpansion(m, k - 1);
    }
  }
}
