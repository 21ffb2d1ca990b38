/** One-time products of a shared matrix and a shared column, in one shot and split into a prefix and a suffix. */
module MatrixBeaver {
  import opened NumberTheory
  import opened SecretSharing
  import opened Beaver

  type Column = seq<int>
  type Rows = seq<seq<int>>

  predicate IsColumn(x: Column, n: int, q: int) {
    |x| == n && forall i :: 0 <= i < |x| ==> Canonical(x[i], q)
  }

  predicate IsRows(m: Rows, rows: int, inner: int, q: int) {
    |m| == rows && forall i :: 0 <= i < |m| ==> IsColumn(m[i], inner, q)
  }

  predicate Rectangular(m: Rows, inner: nat) {
    forall i :: 0 <= i < |m| ==> |m[i]| == inner
  }

  function Dot(a: Column, b: Column): int
    requires |a| == |b|
  {
    if a == [] then 0 else a[0] * b[0] + Dot(a[1..], b[1..])
  }

  function MatrixVector(m: Rows, x: Column, q: int): (r: Column)
    requires q >= 3 && Rectangular(m, |x|)
    ensures |r| == |m|
  {
    seq(|m|, i requires 0 <= i < |m| => Dot(m[i], x) % q)
  }

  function AddColumns(a: Column, b: Column, q: int): (r: Column)
    requires q >= 3 && |a| == |b|
    ensures |r| == |a|
  {
    seq(|a|, i requires 0 <= i < |a| => Add(a[i], b[i], q))
  }

  function SubtractColumns(a: Column, b: Column, q: int): (r: Column)
    requires q >= 3 && |a| == |b|
    ensures |r| == |a|
  {
    seq(|a|, i requires 0 <= i < |a| => Subtract(a[i], b[i], q))
  }

  function AddRows(a: Rows, b: Rows, q: int): (r: Rows)
    requires q >= 3 && |a| == |b| && forall i :: 0 <= i < |a| ==> |a[i]| == |b[i]|
    ensures |r| == |a| && forall i :: 0 <= i < |a| ==> |r[i]| == |a[i]|
  {
    seq(|a|, i requires 0 <= i < |a| => AddColumns(a[i], b[i], q))
  }

  function SubtractRows(a: Rows, b: Rows, q: int): (r: Rows)
    requires q >= 3 && |a| == |b| && forall i :: 0 <= i < |a| ==> |a[i]| == |b[i]|
    ensures |r| == |a| && forall i :: 0 <= i < |a| ==> |r[i]| == |a[i]|
  {
    seq(|a|, i requires 0 <= i < |a| => SubtractColumns(a[i], b[i], q))
  }

  // ----- sums and products up to congruence -----

  /** Entry by entry, c is congruent to a + b. */
  ghost predicate SumsTo(a: Column, b: Column, c: Column, q: int) {
    |a| == |b| == |c| && forall i :: 0 <= i < |c| ==> Congruent(a[i] + b[i], c[i], q)
  }

  lemma {:induction false} DotCommutes(a: Column, b: Column)
    requires |a| == |b|
    ensures Dot(a, b) == Dot(b, a)
  {
    if a != [] {
      DotCommutes(a[1..], b[1..]);
    }
  }

  lemma {:induction false} DotSplit(a: Column, b: Column, n: nat)
    requires |a| == |b| && n <= |a|
    ensures Dot(a, b) == Dot(a[..n], b[..n]) + Dot(a[n..], b[n..])
  {
    if n == 0 {
      assert a[0..] == a && b[0..] == b;
    } else {
      DotSplit(a[1..], b[1..], n - 1);
      assert a[..n][1..] == a[1..][..n - 1] && b[..n][1..] == b[1..][..n - 1];
      assert a[n..] == a[1..][n - 1..] && b[n..] == b[1..][n - 1..];
    }
  }

  lemma {:induction false} DotSum(a: Column, b: Column, c: Column, f: Column, q: int)
    requires SumsTo(a, b, c, q) && |f| == |c|
    ensures Congruent(Dot(a, f) + Dot(b, f), Dot(c, f), q)
  {
    hide Congruent;
    if c == [] {
      CongruentReflexive(0, q);
    } else {
      TailsSum(a, b, c, q);
      DotSum(a[1..], b[1..], c[1..], f[1..], q);
      CongruentReflexive(f[0], q);
      CongruentProduct(a[0] + b[0], c[0], f[0], f[0], q);
      CongruentSum((a[0] + b[0]) * f[0], c[0] * f[0],
                   Dot(a[1..], f[1..]) + Dot(b[1..], f[1..]), Dot(c[1..], f[1..]), q);
      Distribute(a[0], b[0], f[0]);
      assert Dot(a, f) + Dot(b, f)
          == (a[0] + b[0]) * f[0] + (Dot(a[1..], f[1..]) + Dot(b[1..], f[1..]));
    }
  }

  lemma {:induction false} TailsSum(a: Column, b: Column, c: Column, q: int)
    requires SumsTo(a, b, c, q) && c != []
    ensures SumsTo(a[1..], b[1..], c[1..], q) && Congruent(a[0] + b[0], c[0], q)
  {
    hide Congruent;
    forall i | 0 <= i < |c| - 1
      ensures Congruent(a[1..][i] + b[1..][i], c[1..][i], q)
    {
      assert Congruent(a[i + 1] + b[i + 1], c[i + 1], q);
    }
  }

  lemma {:induction false} Distribute(a: int, b: int, c: int)
    ensures (a + b) * c == a * c + b * c
  {
  }

  /** The bilinear expansion behind the protocol: (u + e)·(v + f) modulo q. */
  lemma {:induction false} DotExpand(u: Column, e: Column, x: Column, v: Column, f: Column, y: Column, q: int)
    requires SumsTo(u, e, x, q) && SumsTo(v, f, y, q) && |u| == |v|
    ensures Congruent(Dot(u, v) + Dot(u, f) + Dot(e, v) + Dot(e, f), Dot(x, y), q)
  {
    hide Congruent, Dot;
    DotSum(u, e, x, y, q);
    DotSum(v, f, y, u, q);
    DotSum(v, f, y, e, q);
    DotCommutes(u, v);
    DotCommutes(u, f);
    DotCommutes(e, v);
    DotCommutes(e, f);
    DotCommutes(u, y);
    DotCommutes(e, y);
    CongruentSum(Dot(v, u) + Dot(f, u), Dot(y, u), Dot(v, e) + Dot(f, e), Dot(y, e), q);
    CongruentTransitive(Dot(v, u) + Dot(f, u) + (Dot(v, e) + Dot(f, e)), Dot(u, y) + Dot(e, y), Dot(x, y), q);
  }

  // ----- one party's arithmetic -----

  /** Row i of W + U·F + E·V, with E·F added by party 0 alone; each product is reduced before the sum. */
  function OneShotRow(party: int, u: Column, v: Column, w: int, e: Column, f: Column, q: int): int
    requires q >= 3 && |u| == |v| == |e| == |f|
  {
    var value := (w + Dot(u, f) % q + Dot(e, v) % q) % q;
    if party == 0 then (value + Dot(e, f) % q) % q else value
  }

  function OneShot(party: int, u: Rows, v: Column, w: Column, e: Rows, f: Column, q: int): (r: Column)
    requires q >= 3 && Rectangular(u, |v|) && Rectangular(e, |v|) && |u| == |e| == |w| && |f| == |v|
    ensures |r| == |w|
  {
    seq(|w|, i requires 0 <= i < |w| => OneShotRow(party, u[i], v, w[i], e[i], f, q))
  }

  function PrefixL(party: int, u: Column, e: Column, q: int): (l: Column)
    requires q >= 3 && |u| == |e|
    ensures |l| == |u|
  {
    seq(|u|, i requires 0 <= i < |u| => (u[i] + if party == 0 then e[i] else 0) % q)
  }

  function PrefixH(party: int, u: Column, v: Column, e: Column, fx: Column, q: int): int
    requires q >= 3 && |u| == |v| == |e| && |fx| <= |u|
  {
    (Dot(e, v) % q + Dot(PrefixL(party, u, e, q)[..|fx|], fx) % q) % q
  }

  function SuffixRow(w: int, l: Column, h: int, fv: Column, q: int): int
    requires q >= 3 && |fv| <= |l|
  {
    (w + h + Dot(l[|l| - |fv|..], fv) % q) % q
  }

  lemma {:induction false} Reduced(a: int, b: int, c: int, q: int)
    requires q >= 3
    ensures Congruent((a + b % q + c % q) % q, a + b + c, q) && Canonical((a + b % q + c % q) % q, q)
  {
    CongruentReflexive(a, q);
    CongruentRemainder(b, q);
    CongruentRemainder(c, q);
    CongruentSum(a, a, b % q, b, q);
    CongruentSum(a + b % q, a + b, c % q, c, q);
    CongruentRemainder(a + b % q + c % q, q);
    CongruentTransitive((a + b % q + c % q) % q, a + b % q + c % q, a + b + c, q);
  }

  lemma {:induction false} ReducedPair(a: int, b: int, q: int)
    requires q >= 3
    ensures Congruent((a + b % q) % q, a + b, q) && Canonical((a + b % q) % q, q)
  {
    CongruentReflexive(a, q);
    CongruentRemainder(b, q);
    CongruentSum(a, a, b % q, b, q);
    CongruentRemainder(a + b % q, q);
    CongruentTransitive((a + b % q) % q, a + b % q, a + b, q);
  }

  function Cross(party: int, n: int): int {
    if party == 0 then n else 0
  }

  lemma {:induction false} OneShotMeaning(party: int, u: Column, v: Column, w: int, e: Column, f: Column, q: int)
    requires q >= 3 && |u| == |v| == |e| == |f|
    ensures var r := OneShotRow(party, u, v, w, e, f, q);
      && Canonical(r, q)
      && Congruent(r, w + Dot(u, f) + Dot(e, v) + Cross(party, Dot(e, f)), q)
  {
    hide Congruent, Dot;
    ReducedTerms(party, w, Dot(u, f), Dot(e, v), Dot(e, f), q);
  }

  lemma {:induction false} ReducedTerms(party: int, w: int, a: int, b: int, c: int, q: int)
    requires q >= 3
    ensures var value := (w + a % q + b % q) % q;
      var r := if party == 0 then (value + c % q) % q else value;
      Canonical(r, q) && Congruent(r, w + a + b + Cross(party, c), q)
  {
    hide Congruent;
    var value := (w + a % q + b % q) % q;
    Reduced(w, a, b, q);
    if party == 0 {
      ReducedPair(value, c, q);
      CongruentReflexive(c, q);
      CongruentSum(value, w + a + b, c, c, q);
      CongruentTransitive((value + c % q) % q, value + c, w + a + b + c, q);
    }
  }

  lemma {:induction false} PrefixLMeaning(party: int, u: Column, e: Column, f: Column, q: int)
    requires q >= 3 && |u| == |e| == |f|
    ensures Congruent(Dot(PrefixL(party, u, e, q), f), Dot(u, f) + Cross(party, Dot(e, f)), q)
  {
    hide Congruent, Dot;
    var l, s := PrefixL(party, u, e, q), if party == 0 then e else Zeros(|u|);
    forall i | 0 <= i < |l|
      ensures Congruent(u[i] + s[i], l[i], q)
    {
      CongruentRemainder(u[i] + s[i], q);
    }
    DotSum(u, s, l, f, q);
    DotZeros(|u|, f);
    CongruentSymmetric(Dot(u, f) + Dot(s, f), Dot(l, f), q);
  }

  function Zeros(n: nat): (r: Column)
    ensures |r| == n
  {
    seq(n, _ => 0)
  }

  lemma {:induction false} DotZeros(n: nat, f: Column)
    requires |f| == n
    ensures Dot(Zeros(n), f) == 0
  {
    if n > 0 {
      assert Zeros(n)[1..] == Zeros(n - 1);
      DotZeros(n - 1, f[1..]);
    }
  }

  lemma {:induction false} PrefixMeaning(party: int, u: Column, v: Column, w: int, e: Column, fx: Column, fv: Column,
      q: int)
    requires q >= 3 && |u| == |v| == |e| == |fx| + |fv|
    ensures var f := fx + fv;
      var r := SuffixRow(w, PrefixL(party, u, e, q), PrefixH(party, u, v, e, fx, q), fv, q);
      && Canonical(r, q)
      && Congruent(r, w + Dot(u, f) + Dot(e, v) + Cross(party, Dot(e, f)), q)
  {
    hide Congruent, Dot, PrefixL;
    var f, l, h, n := fx + fv, PrefixL(party, u, e, q), PrefixH(party, u, v, e, fx, q), |fx|;
    var head, tail := Dot(l[..n], fx), Dot(l[n..], fv);
    var r := SuffixRow(w, l, h, fv, q);
    assert f[..n] == fx && f[n..] == fv;
    DotSplit(l, f, n);
    PrefixLMeaning(party, u, e, f, q);
    Reduced(0, Dot(e, v), head, q);
    CongruentReflexive(w, q);
    CongruentSum(w, w, h, Dot(e, v) + head, q);
    ReducedPair(w + h, tail, q);
    CongruentReflexive(tail, q);
    CongruentSum(w + h, w + (Dot(e, v) + head), tail, tail, q);
    CongruentTransitive(r, w + h + tail, w + (Dot(e, v) + head) + tail, q);
    CongruentReflexive(w + Dot(e, v), q);
    CongruentSum(w + Dot(e, v), w + Dot(e, v), Dot(l, f), Dot(u, f) + Cross(party, Dot(e, f)), q);
    CongruentTransitive(r, w + Dot(e, v) + Dot(l, f), w + Dot(u, f) + Dot(e, v) + Cross(party, Dot(e, f)), q);
  }

  /** Opening the prefix early changes nothing: each row of the split form is the row of the one-shot form. */
  lemma {:induction false} SplitRowIsOneShotRow(party: int, u: Column, v: Column, w: int, e: Column,
      fx: Column, fv: Column, q: int)
    requires q >= 3 && |u| == |v| == |e| == |fx| + |fv|
    ensures SuffixRow(w, PrefixL(party, u, e, q), PrefixH(party, u, v, e, fx, q), fv, q)
         == OneShotRow(party, u, v, w, e, fx + fv, q)
  {
    hide Congruent, Dot, PrefixL, PrefixH, SuffixRow, OneShotRow;
    var f := fx + fv;
    var a, b := SuffixRow(w, PrefixL(party, u, e, q), PrefixH(party, u, v, e, fx, q), fv, q),
                OneShotRow(party, u, v, w, e, f, q);
    var m := w + Dot(u, f) + Dot(e, v) + Cross(party, Dot(e, f));
    PrefixMeaning(party, u, v, w, e, fx, fv, q);
    OneShotMeaning(party, u, v, w, e, f, q);
    CongruentSymmetric(b, m, q);
    CongruentTransitive(a, m, b, q);
    SmallResidue(a, b, q);
  }

  /** Two shares of u·v make the two one-shot rows shares of x·y. */
  lemma {:induction false} OneShotRowsMultiply(u0: Column, u1: Column, u: Column, v0: Column, v1: Column, v: Column,
      w0: int, w1: int, e: Column, x: Column, f: Column, y: Column, q: int)
    requires q >= 3 && |u| == |v| && SumsTo(u0, u1, u, q) && SumsTo(v0, v1, v, q)
    requires SumsTo(u, e, x, q) && SumsTo(v, f, y, q) && Shares(w0, w1, Dot(u, v), q)
    ensures Shares(OneShotRow(0, u0, v0, w0, e, f, q), OneShotRow(1, u1, v1, w1, e, f, q), Dot(x, y), q)
  {
    hide Congruent, Dot, OneShotRow;
    var r0, r1 := OneShotRow(0, u0, v0, w0, e, f, q), OneShotRow(1, u1, v1, w1, e, f, q);
    OneShotMeaning(0, u0, v0, w0, e, f, q);
    OneShotMeaning(1, u1, v1, w1, e, f, q);
    var m0, m1 := w0 + Dot(u0, f) + Dot(e, v0) + Dot(e, f), w1 + Dot(u1, f) + Dot(e, v1);
    CongruentSum(r0, m0, r1, m1, q);
    DotSum(u0, u1, u, f, q);
    DotSum(v0, v1, v, e, q);
    DotCommutes(e, v0);
    DotCommutes(e, v1);
    DotCommutes(e, v);
    CongruentSum(w0 + w1, Dot(u, v), Dot(u0, f) + Dot(u1, f), Dot(u, f), q);
    CongruentSum(w0 + w1 + (Dot(u0, f) + Dot(u1, f)), Dot(u, v) + Dot(u, f),
                 Dot(v0, e) + Dot(v1, e), Dot(v, e), q);
    CongruentReflexive(Dot(e, f), q);
    CongruentSum(w0 + w1 + (Dot(u0, f) + Dot(u1, f)) + (Dot(v0, e) + Dot(v1, e)),
                 Dot(u, v) + Dot(u, f) + Dot(v, e), Dot(e, f), Dot(e, f), q);
    DotExpand(u, e, x, v, f, y, q);
    var total := Dot(u, v) + Dot(u, f) + Dot(e, v) + Dot(e, f);
    CongruentTransitive(m0 + m1, total, Dot(x, y), q);
    CongruentTransitive(r0 + r1, m0 + m1, Dot(x, y), q);
  }

  // ----- whole matrices -----

  ghost predicate RowsSumTo(a: Rows, b: Rows, m: Rows, q: int) {
    |a| == |b| == |m| && forall i :: 0 <= i < |m| ==> SumsTo(a[i], b[i], m[i], q)
  }

  /** The shares of W stand for the product U·V. */
  ghost predicate SharesOfProduct(w0: Column, w1: Column, u: Rows, v: Column, q: int) {
    && |w0| == |w1| == |u| && Rectangular(u, |v|)
    && forall i :: 0 <= i < |u| ==> Shares(w0[i], w1[i], Dot(u[i], v), q)
  }

  function SplitShare(party: int, u: Rows, v: Column, w: Column, e: Rows, fx: Column, fv: Column, q: int): (r: Column)
    requires q >= 3 && Rectangular(u, |v|) && Rectangular(e, |v|) && |u| == |e| == |w| && |fx| + |fv| == |v|
    ensures |r| == |w|
  {
    seq(|w|, i requires 0 <= i < |w| =>
      SuffixRow(w[i], PrefixL(party, u[i], e[i], q), PrefixH(party, u[i], v, e[i], fx, q), fv, q))
  }

  /** Splitting refines the whole, for every shape and every cut of the column. */
  lemma {:induction false} SplitIsOneShot(party: int, u: Rows, v: Column, w: Column, e: Rows, fx: Column, fv: Column,
      q: int)
    requires q >= 3 && Rectangular(u, |v|) && Rectangular(e, |v|) && |u| == |e| == |w| && |fx| + |fv| == |v|
    ensures SplitShare(party, u, v, w, e, fx, fv, q) == OneShot(party, u, v, w, e, fx + fv, q)
  {
    hide SuffixRow, PrefixH, OneShotRow;
    forall i | 0 <= i < |w|
      ensures SplitShare(party, u, v, w, e, fx, fv, q)[i] == OneShot(party, u, v, w, e, fx + fv, q)[i]
    {
      SplitRowIsOneShotRow(party, u[i], v, w[i], e[i], fx, fv, q);
    }
  }

  /** Opening the masks gives the masked message: u + (opened x - u) is x again. */
  lemma {:induction false} OpenedColumn(x0: Column, x1: Column, x: Column, u0: Column, u1: Column, u: Column, q: int)
    requires q >= 3 && SumsTo(x0, x1, x, q) && SumsTo(u0, u1, u, q) && |x| == |u|
    ensures SumsTo(u, AddColumns(SubtractColumns(x0, u0, q), SubtractColumns(x1, u1, q), q), x, q)
  {
    hide Congruent, Add, Subtract;
    var e := AddColumns(SubtractColumns(x0, u0, q), SubtractColumns(x1, u1, q), q);
    forall i | 0 <= i < |x|
      ensures Congruent(u[i] + e[i], x[i], q)
    {
      OpenedEntry(x0[i], x1[i], x[i], u0[i], u1[i], u[i], q);
    }
  }

  lemma {:induction false} OpenedEntry(x0: int, x1: int, x: int, u0: int, u1: int, u: int, q: int)
    requires q >= 3 && Congruent(x0 + x1, x, q) && Congruent(u0 + u1, u, q)
    ensures Congruent(u + Add(Subtract(x0, u0, q), Subtract(x1, u1, q), q), x, q)
  {
    hide Congruent, Add, Subtract;
    LinearOperations(x0, x1, x, u0, u1, u, 0, q);
    var a, b := Subtract(x0, u0, q), Subtract(x1, u1, q);
    AddMeaning(a, b, q);
    CongruentTransitive(Add(a, b, q), a + b, x - u, q);
    CongruentReflexive(u, q);
    CongruentSum(u, u, Add(a, b, q), x - u, q);
  }

  /** The opened masks of a multiplication. */
  function OpenedRows(x0: Rows, x1: Rows, u0: Rows, u1: Rows, inner: nat, q: int): (e: Rows)
    requires q >= 3 && |x0| == |x1| == |u0| == |u1|
    requires Rectangular(x0, inner) && Rectangular(x1, inner) && Rectangular(u0, inner) && Rectangular(u1, inner)
    ensures |e| == |x0| && Rectangular(e, inner)
  {
    AddRows(SubtractRows(x0, u0, q), SubtractRows(x1, u1, q), q)
  }

  function OpenedMask(y0: Column, y1: Column, v0: Column, v1: Column, q: int): (f: Column)
    requires q >= 3 && |y0| == |y1| == |v0| == |v1|
    ensures |f| == |y0|
  {
    AddColumns(SubtractColumns(y0, v0, q), SubtractColumns(y1, v1, q), q)
  }

  /** For every shape, every sharing and every valid triple the two one-shot shares reconstruct to X·y modulo q. */
  lemma {:induction false} MatrixProductReconstructs(x0: Rows, x1: Rows, x: Rows, y0: Column, y1: Column, y: Column,
      u0: Rows, u1: Rows, u: Rows, v0: Column, v1: Column, v: Column, w0: Column, w1: Column, q: int)
    requires q >= 3 && |x| == |u| && |y| == |v| && Rectangular(x, |y|) && Rectangular(u, |v|)
    requires RowsSumTo(x0, x1, x, q) && RowsSumTo(u0, u1, u, q) && SumsTo(y0, y1, y, q) && SumsTo(v0, v1, v, q)
    requires SharesOfProduct(w0, w1, u, v, q)
    ensures Rectangular(x0, |y|) && Rectangular(x1, |y|) && Rectangular(u0, |y|) && Rectangular(u1, |y|)
    ensures var e, f := OpenedRows(x0, x1, u0, u1, |y|, q), OpenedMask(y0, y1, v0, v1, q);
      AddColumns(OneShot(0, u0, v0, w0, e, f, q), OneShot(1, u1, v1, w1, e, f, q), q) == MatrixVector(x, y, q)
  {
    hide Congruent, Dot, OneShotRow, Shares;
    var e, f := OpenedRows(x0, x1, u0, u1, |y|, q), OpenedMask(y0, y1, v0, v1, q);
    OpenedColumn(y0, y1, y, v0, v1, v, q);
    forall i | 0 <= i < |x|
      ensures Add(OneShotRow(0, u0[i], v0, w0[i], e[i], f, q), OneShotRow(1, u1[i], v1, w1[i], e[i], f, q), q)
           == Dot(x[i], y) % q
    {
      OpenedColumn(x0[i], x1[i], x[i], u0[i], u1[i], u[i], q);
      OneShotRowsMultiply(u0[i], u1[i], u[i], v0, v1, v, w0[i], w1[i], e[i], x[i], f, y, q);
      ReconstructMeaning(OneShotRow(0, u0[i], v0, w0[i], e[i], f, q),
                         OneShotRow(1, u1[i], v1, w1[i], e[i], f, q), Dot(x[i], y), q);
    }
  }
}
