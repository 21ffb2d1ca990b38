/** One party's split matrix product: the prefix is opened early, W is bound later, the suffix is sent last. */
module MatrixPrefixes {
  import opened Options
  import opened SecretSharing
  import opened Beaver
  import opened MatrixBeaver

  datatype MatrixTriple = MatrixTriple(u: Rows, v: Column, w: Column, party: int, rows: nat, inner: nat,
                                       lifecycle: TripleLifecycle)
  {
    predicate Shaped(q: int) {
      && q >= 3 && rows >= 1 && inner >= 1 && party in {0, 1}
      && IsRows(u, rows, inner, q) && IsColumn(v, inner, q) && IsColumn(w, rows, q)
    }
  }

  datatype Phase = PrefixSent | PrefixOpened | Bound | SuffixSent | LocallyFinished | Terminal

  /** L = U + [party 0] E and H = E·V + L[..n]·Fx, kept from the moment the prefix is opened. */
  ghost predicate PrefixData(t: MatrixTriple, e: Rows, fx: Column, l: Rows, h: Column, q: int)
    requires t.Shaped(q)
  {
    && |e| == |l| == |h| == t.rows && Rectangular(e, t.inner) && Rectangular(l, t.inner) && |fx| <= t.inner
    && (forall i :: 0 <= i < t.rows ==> l[i] == PrefixL(t.party, t.u[i], e[i], q))
    && (forall i :: 0 <= i < t.rows ==> h[i] == PrefixH(t.party, t.u[i], t.v, e[i], fx, q))
  }

  class MatrixPrefix {
    const q: int
    const n: nat
    var triple: MatrixTriple
    var eShare: Rows
    var fxShare: Column
    var fvShare: Option<Column>
    var l: Rows
    var h: Column
    var phase: Phase
    ghost var e: Rows
    ghost var fx: Column

    ghost predicate Valid()
      reads this, triple.lifecycle
    {
      && triple.Shaped(q) && 0 < n < triple.inner
      && |eShare| == triple.rows && Rectangular(eShare, triple.inner) && |fxShare| == n
      && triple.lifecycle.Valid() && triple.party in triple.lifecycle.masked
      && (fvShare.Some? ==> |fvShare.value| == triple.inner - n)
      && (phase in {PrefixOpened, Bound, SuffixSent} ==>
            && triple.lifecycle.masked == {0, 1} && |fx| == n
            && PrefixData(triple, e, fx, l, h, q))
    }

    constructor Sent(q: int, triple: MatrixTriple, n: nat, eShare: Rows, fxShare: Column)
      requires triple.Shaped(q) && 0 < n < triple.inner
      requires |eShare| == triple.rows && Rectangular(eShare, triple.inner) && |fxShare| == n
      requires triple.lifecycle.Valid() && triple.party in triple.lifecycle.masked
      ensures Valid() && fresh(this) && phase == PrefixSent
      ensures this.q == q && this.n == n && this.triple == triple
      ensures this.eShare == eShare && this.fxShare == fxShare && fvShare == None
    {
      this.q, this.n, this.triple, this.eShare, this.fxShare := q, n, triple, eShare, fxShare;
      fvShare, l, h, phase := None, [], [], PrefixSent;
      e, fx := [], [];
    }

    /** Masks the matrix and the state part of the column; the triple is claimed before anything leaves. */
    static method Start(q: int, t: MatrixTriple, matrix: Rows, state: Column) returns (r: Option<MatrixPrefix>)
      requires t.Shaped(q) && t.lifecycle.Valid()
      modifies t.lifecycle
      ensures t.lifecycle.Valid() && t.lifecycle.isOpen == old(t.lifecycle.isOpen)
      ensures r.Some? ==> t.lifecycle.masked == old(t.lifecycle.masked) + {t.party}
      ensures r.Some? <==>
        && IsRows(matrix, t.rows, t.inner, q) && 0 < |state| < t.inner && IsColumn(state, |state|, q)
        && t.party !in old(t.lifecycle.masked)
      ensures r.Some? ==> fresh(r.value) && r.value.Valid() && r.value.phase == PrefixSent
      ensures r.Some? ==> r.value.q == q && r.value.n == |state| && r.value.triple == t
      ensures r.Some? ==> r.value.eShare == SubtractRows(matrix, t.u, q)
      ensures r.Some? ==> r.value.fxShare == SubtractColumns(state, t.v[..|state|], q)
    {
      if !IsRows(matrix, t.rows, t.inner, q) {
        return None;
      }
      var n := |state|;
      if !(0 < n < t.inner) || !IsColumn(state, n, q) {
        return None;
      }
      var ok := t.lifecycle.ClaimMasking(t.party);
      if !ok {
        return None;
      }
      var prefix := new MatrixPrefix.Sent(q, t, n, SubtractRows(matrix, t.u, q),
                                          SubtractColumns(state, t.v[..n], q));
      return Some(prefix);
    }

    /** Any failure leaves the prefix terminal. */
    method OpenPrefix(peerE: Rows, peerFx: Column) returns (ok: bool)
      requires Valid()
      modifies this, triple.lifecycle
      ensures Valid() && triple == old(triple) && triple.lifecycle.isOpen == old(triple.lifecycle.isOpen)
      ensures unchanged(`eShare) && unchanged(`fxShare) && unchanged(`fvShare)
      ensures ok <==>
        && old(phase) == PrefixSent
        && IsRows(peerE, triple.rows, triple.inner, q) && IsColumn(peerFx, n, q)
        && 1 - triple.party !in old(triple.lifecycle.masked)
      ensures phase == if old(phase) != PrefixSent then old(phase) else if ok then PrefixOpened else Terminal
      ensures ok ==> e == AddRows(eShare, peerE, q) && fx == AddColumns(fxShare, peerFx, q)
      ensures !ok ==> unchanged(`e) && unchanged(`fx)
    {
      if phase != PrefixSent {
        return false;
      }
      phase := Terminal;
      if !IsRows(peerE, triple.rows, triple.inner, q) || !IsColumn(peerFx, n, q) {
        return false;
      }
      ok := triple.lifecycle.ClaimMasking(1 - triple.party);
      if !ok {
        return false;
      }
      var opE, opFx, t := AddRows(eShare, peerE, q), AddColumns(fxShare, peerFx, q), triple;
      l := seq(t.rows, i requires 0 <= i < t.rows => PrefixL(t.party, t.u[i], opE[i], q));
      h := seq(t.rows, i requires 0 <= i < t.rows => PrefixH(t.party, t.u[i], t.v, opE[i], opFx, q));
      e, fx := opE, opFx;
      phase := PrefixOpened;
      return true;
    }

    method Bind(w: Column) returns (ok: bool)
      requires Valid()
      modifies this
      ensures Valid() && unchanged(`e) && unchanged(`fx) && unchanged(`eShare) && unchanged(`fxShare)
      ensures unchanged(`fvShare)
      ensures ok <==> old(phase) == PrefixOpened && IsColumn(w, triple.rows, q)
      ensures triple == if ok then old(triple).(w := w) else old(triple)
      ensures phase == if old(phase) != PrefixOpened then old(phase) else if ok then Bound else Terminal
    {
      if phase != PrefixOpened {
        return false;
      }
      phase := Terminal;
      if !IsColumn(w, triple.rows, q) {
        return false;
      }
      triple := triple.(w := w);
      phase := Bound;
      return true;
    }

    /** The suffix is started at most once, whether or not its value is accepted. */
    method MaskSuffix(value: Column) returns (r: Option<Column>)
      requires Valid()
      modifies this
      ensures Valid() && triple == old(triple) && unchanged(`e) && unchanged(`fx)
      ensures unchanged(`eShare) && unchanged(`fxShare)
      ensures r.Some? <==> old(phase) == Bound && IsColumn(value, triple.inner - n, q)
      ensures r.Some? ==> r == fvShare == Some(SubtractColumns(value, triple.v[n..], q))
      ensures r.None? ==> unchanged(`fvShare)
      ensures phase == if old(phase) == Bound then SuffixSent else old(phase)
    {
      if phase != Bound {
        return None;
      }
      phase := SuffixSent;
      if !IsColumn(value, triple.inner - n, q) {
        return None;
      }
      fvShare := Some(SubtractColumns(value, triple.v[n..], q));
      return fvShare;
    }

    /** Delivers this party's share at most once, and it is the share of the one-shot form. */
    method Finish(peerFv: Column) returns (r: Option<Column>)
      requires Valid()
      modifies this, triple.lifecycle
      ensures Valid() && triple == old(triple) && unchanged(`e) && unchanged(`fx) && unchanged(`fvShare)
      ensures r.Some? <==>
        && old(phase) == SuffixSent && fvShare.Some? && IsColumn(peerFv, triple.inner - n, q)
        && !old(triple.lifecycle.isOpen)
      ensures r.Some? ==>
        var t := triple;
        && |e| == t.rows && Rectangular(e, t.inner) && |fx| == n
        && r.value == OneShot(t.party, t.u, t.v, t.w, e, fx + AddColumns(fvShare.value, peerFv, q), q)
        && t.party in t.lifecycle.finished
      ensures phase == if old(phase) != SuffixSent then old(phase) else if r.Some? then LocallyFinished else Terminal
    {
      if phase != SuffixSent {
        return None;
      }
      phase := Terminal;
      if !IsColumn(peerFv, triple.inner - n, q) || fvShare.None? {
        return None;
      }
      var fv := AddColumns(fvShare.value, peerFv, q);
      var ok := triple.lifecycle.ClaimOpening();
      if !ok {
        return None;
      }
      var t, rowsL, sums := triple, l, h;
      var value := seq(t.rows, i requires 0 <= i < t.rows => SuffixRow(t.w[i], rowsL[i], sums[i], fv, q));
      assert value == SplitShare(t.party, t.u, t.v, t.w, e, fx, fv, q);
      SplitIsOneShot(t.party, t.u, t.v, t.w, e, fx, fv, q);
      var last;
      ok, last := triple.lifecycle.ClaimFinish(t.party);
      if !ok {
        return None;
      }
      phase := LocallyFinished;
      return Some(value);
    }

    method Abort()
      requires Valid()
      modifies this
      ensures Valid() && phase == Terminal && triple == old(triple)
      ensures unchanged(`e) && unchanged(`fx) && unchanged(`fvShare)
    {
      phase := Terminal;
    }
  }

  // ----- both parties -----

  lemma {:induction false} AddColumnsCommutes(a: Column, b: Column, q: int)
    requires q >= 3 && |a| == |b|
    ensures AddColumns(a, b, q) == AddColumns(b, a, q)
  {
  }

  lemma {:induction false} AddRowsCommutes(a: Rows, b: Rows, inner: nat, q: int)
    requires q >= 3 && |a| == |b| && Rectangular(a, inner) && Rectangular(b, inner)
    ensures AddRows(a, b, q) == AddRows(b, a, q)
  {
    forall i | 0 <= i < |a|
      ensures AddColumns(a[i], b[i], q) == AddColumns(b[i], a[i], q)
    {
      AddColumnsCommutes(a[i], b[i], q);
    }
  }

  /** The masks of the state part and of the suffix, one after the other, are the mask of the whole column. */
  lemma {:induction false} MaskInTwoParts(s0: Column, s1: Column, z0: Column, z1: Column, v0: Column, v1: Column,
      q: int)
    requires q >= 3 && |s0| == |s1| && |z0| == |z1| && |v0| == |v1| == |s0| + |z0|
    ensures AddColumns(SubtractColumns(s0, v0[..|s0|], q), SubtractColumns(s1, v1[..|s0|], q), q)
          + AddColumns(SubtractColumns(z0, v0[|s0|..], q), SubtractColumns(z1, v1[|s0|..], q), q)
         == OpenedMask(s0 + z0, s1 + z1, v0, v1, q)
  {
    hide Add, Subtract;
  }

  lemma {:induction false} ResidueRows(a: Rows, b: Rows, rows: nat, inner: nat, q: int)
    requires IsRows(a, rows, inner, q) && IsRows(b, rows, inner, q) && q >= 3
    ensures IsRows(SubtractRows(a, b, q), rows, inner, q)
  {
  }

  lemma {:induction false} ResidueColumn(a: Column, b: Column, n: nat, q: int)
    requires |a| == |b| == n && q >= 3
    ensures IsColumn(SubtractColumns(a, b, q), n, q)
  {
  }

  /** Two parties at the same phase of one product: separate objects and lifecycles, the same opened masks. */
  ghost predicate Paired(p0: MatrixPrefix, p1: MatrixPrefix, phase: Phase)
    reads p0, p0.triple.lifecycle, p1, p1.triple.lifecycle
  {
    && p0.Valid() && p1.Valid() && p0 != p1 && p0.triple.lifecycle != p1.triple.lifecycle
    && p0.triple.party == 0 && p1.triple.party == 1
    && p0.triple.rows == p1.triple.rows && p0.triple.inner == p1.triple.inner
    && p0.q == p1.q && p0.n == p1.n && p0.e == p1.e && p0.fx == p1.fx
    && p0.phase == p1.phase == phase
    && !p0.triple.lifecycle.isOpen && !p1.triple.lifecycle.isOpen
  }

  ghost predicate Unused(t0: MatrixTriple, t1: MatrixTriple, q: int)
    reads t0.lifecycle, t1.lifecycle
  {
    && t0.Shaped(q) && t1.Shaped(q) && t0.party == 0 && t1.party == 1
    && t0.rows == t1.rows && t0.inner == t1.inner && t0.lifecycle != t1.lifecycle
    && t0.lifecycle.Valid() && t0.lifecycle.masked == {} && !t0.lifecycle.isOpen
    && t1.lifecycle.Valid() && t1.lifecycle.masked == {} && !t1.lifecycle.isOpen
  }

  method OpenBoth(q: int, t0: MatrixTriple, t1: MatrixTriple, x0: Rows, x1: Rows, s0: Column, s1: Column)
    returns (p0: MatrixPrefix, p1: MatrixPrefix)
    requires Unused(t0, t1, q) && IsRows(x0, t0.rows, t0.inner, q) && IsRows(x1, t0.rows, t0.inner, q)
    requires 0 < |s0| < t0.inner && IsColumn(s0, |s0|, q) && IsColumn(s1, |s0|, q)
    modifies t0.lifecycle, t1.lifecycle
    ensures fresh(p0) && fresh(p1) && Paired(p0, p1, PrefixOpened)
    ensures p0.q == q && p0.n == |s0| && p0.triple == t0 && p1.triple == t1
    ensures |x0| == |x1| == |t0.u| == |t1.u| && |s1| == |s0| && |t0.v| == |t1.v| == t0.inner
    ensures Rectangular(x0, t0.inner) && Rectangular(x1, t0.inner)
    ensures Rectangular(t0.u, t0.inner) && Rectangular(t1.u, t0.inner)
    ensures p0.e == OpenedRows(x0, x1, t0.u, t1.u, t0.inner, q)
    ensures p0.fx == AddColumns(SubtractColumns(s0, t0.v[..|s0|], q), SubtractColumns(s1, t1.v[..|s0|], q), q)
  {
    hide PrefixData, AddRows, SubtractRows, AddColumns, SubtractColumns, IsRows, IsColumn;
    Shapes(t0.u, t1.u, x0, x1, t0.rows, t0.inner, q);
    ColumnShapes(t0.v, t1.v, t0.inner, q);
    ColumnShapes(s0, s1, |s0|, q);
    var m0 := MatrixPrefix.Start(q, t0, x0, s0);
    var m1 := MatrixPrefix.Start(q, t1, x1, s1);
    p0, p1 := m0.value, m1.value;
    ResidueRows(x0, t0.u, t0.rows, t0.inner, q);
    ResidueRows(x1, t1.u, t0.rows, t0.inner, q);
    ResidueColumn(s0, t0.v[..|s0|], |s0|, q);
    ResidueColumn(s1, t1.v[..|s0|], |s0|, q);
    AddRowsCommutes(p0.eShare, p1.eShare, t0.inner, q);
    AddColumnsCommutes(p0.fxShare, p1.fxShare, q);
    var ok0 := p0.OpenPrefix(p1.eShare, p1.fxShare);
    var ok1 := p1.OpenPrefix(p0.eShare, p0.fxShare);
  }

  method FinishBoth(p0: MatrixPrefix, p1: MatrixPrefix, w0: Column, w1: Column, z0: Column, z1: Column)
    returns (r0: Column, r1: Column)
    requires Paired(p0, p1, PrefixOpened)
    requires IsColumn(w0, p0.triple.rows, p0.q) && IsColumn(w1, p0.triple.rows, p0.q)
    requires IsColumn(z0, p0.triple.inner - p0.n, p0.q) && IsColumn(z1, p0.triple.inner - p0.n, p0.q)
    modifies p0, p1, p0.triple.lifecycle, p1.triple.lifecycle
    ensures var t0, t1, q, e := old(p0.triple), old(p1.triple), p0.q, old(p0.e);
      && |z0| == |z1| == t0.inner - p0.n && |w0| == |w1| == |t0.u| == |t1.u| == |e|
      && |t0.v| == |t1.v| == t0.inner && |old(p0.fx)| == p0.n
      && Rectangular(e, t0.inner) && Rectangular(t0.u, t0.inner) && Rectangular(t1.u, t0.inner)
      && var f := old(p0.fx)
           + AddColumns(SubtractColumns(z0, t0.v[p0.n..], q), SubtractColumns(z1, t1.v[p0.n..], q), q);
      && r0 == OneShot(0, t0.u, t0.v, w0, e, f, q)
      && r1 == OneShot(1, t1.u, t1.v, w1, e, f, q)
  {
    hide PrefixData, AddColumns, SubtractColumns, IsRows, IsColumn, OneShot;
    ColumnShapes(p0.triple.v, p1.triple.v, p0.triple.inner, p0.q);
    ColumnShapes(z0, z1, p0.triple.inner - p0.n, p0.q);
    ColumnShapes(w0, w1, p0.triple.rows, p0.q);
    Shapes(p0.triple.u, p1.triple.u, p0.triple.u, p1.triple.u, p0.triple.rows, p0.triple.inner, p0.q);
    var ok := p0.Bind(w0);
    ok := p1.Bind(w1);
    var g0 := p0.MaskSuffix(z0);
    var g1 := p1.MaskSuffix(z1);
    ResidueColumn(z0, p0.triple.v[p0.n..], p0.triple.inner - p0.n, p0.q);
    ResidueColumn(z1, p1.triple.v[p0.n..], p0.triple.inner - p0.n, p0.q);
    AddColumnsCommutes(g0.value, g1.value, p0.q);
    var o0 := p0.Finish(g1.value);
    var o1 := p1.Finish(g0.value);
    r0, r1 := o0.value, o1.value;
  }

  /** A whole run: prefixes exchanged, W bound, suffixes exchanged, both finished. Nothing fails and the outputs
      reconstruct to X·y modulo q, whatever the placeholder W of the triples was. */
  method RunSplitProduct(q: int, t0: MatrixTriple, t1: MatrixTriple, x0: Rows, x1: Rows,
      s0: Column, s1: Column, z0: Column, z1: Column, w0: Column, w1: Column,
      ghost x: Rows, ghost y: Column, ghost u: Rows, ghost v: Column) returns (r0: Column, r1: Column)
    requires Unused(t0, t1, q) && IsRows(x0, t0.rows, t0.inner, q) && IsRows(x1, t0.rows, t0.inner, q)
    requires 0 < |s0| < t0.inner && IsColumn(s0, |s0|, q) && IsColumn(s1, |s0|, q)
    requires IsColumn(z0, t0.inner - |s0|, q) && IsColumn(z1, t0.inner - |s0|, q)
    requires IsColumn(w0, t0.rows, q) && IsColumn(w1, t0.rows, q)
    requires |x| == |u| == t0.rows && |y| == |v| == t0.inner && Rectangular(x, |y|) && Rectangular(u, |v|)
    requires RowsSumTo(x0, x1, x, q) && RowsSumTo(t0.u, t1.u, u, q)
    requires SumsTo(s0 + z0, s1 + z1, y, q) && SumsTo(t0.v, t1.v, v, q) && SharesOfProduct(w0, w1, u, v, q)
    modifies t0.lifecycle, t1.lifecycle
    ensures |r0| == |r1| && AddColumns(r0, r1, q) == MatrixVector(x, y, q)
  {
    hide Paired, RowsSumTo, SumsTo, SharesOfProduct, PrefixData, AddColumns, SubtractColumns,
      MatrixVector, OneShot, OpenedRows, OpenedMask, IsRows, IsColumn;
    var p0, p1 := OpenBoth(q, t0, t1, x0, x1, s0, s1);
    r0, r1 := FinishBoth(p0, p1, w0, w1, z0, z1);
    MaskInTwoParts(s0, s1, z0, z1, t0.v, t1.v, q);
    MatrixProductReconstructs(x0, x1, x, s0 + z0, s1 + z1, y, t0.u, t1.u, u, t0.v, t1.v, v, w0, w1, q);
  }

  lemma {:induction false} Shapes(a: Rows, b: Rows, c: Rows, d: Rows, rows: nat, inner: nat, q: int)
    requires IsRows(a, rows, inner, q) && IsRows(b, rows, inner, q)
    requires IsRows(c, rows, inner, q) && IsRows(d, rows, inner, q)
    ensures |a| == |b| == |c| == |d| == rows && Rectangular(a, inner) && Rectangular(b, inner)
    ensures Rectangular(c, inner) && Rectangular(d, inner)
  {
  }

  lemma {:induction false} ColumnShapes(a: Column, b: Column, n: nat, q: int)
    requires IsColumn(a, n, q) && IsColumn(b, n, q)
    ensures |a| == |b| == n
  {
  }
}
