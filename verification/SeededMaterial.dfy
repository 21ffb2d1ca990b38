/** Material expanded from two independent seeds, and the dealer's corrections that make it a triple. */
module SeededMaterial {
  import opened NumberTheory
  import opened Options
  import opened SecretSharing
  import opened MatrixBeaver

  const MAX_RETRIES := 256

  function Candidate(block: nat -> nat, retry: nat, q: nat): nat {
    block(retry) % Power2(BitLength(q))
  }

  /** The mask keeps the remainder by the least power of two above q, so about half of all candidates are below q. */
  lemma {:induction false} CandidateIs(block: nat -> nat, retry: nat, q: nat, bits: nat)
    requires bits >= 1 && Power2(bits - 1) <= q < Power2(bits)
    ensures Candidate(block, retry, q) == block(retry) % Power2(bits)
    ensures Candidate(block, retry, q) < Power2(bits) <= 2 * q
  {
    BitLengthBounds(q);
    if BitLength(q) < bits {
      Power2Grows(BitLength(q), bits - 1);
    } else if bits < BitLength(q) {
      Power2Grows(bits, BitLength(q) - 1);
    }
  }

  /** Rejection sampling over the keyed blocks: the first candidate below q, or nothing after 256 of them. */
  method ExpandResidue(block: nat -> nat, q: nat) returns (r: Option<nat>)
    requires q >= 3
    ensures r.Some? ==> exists k: nat ::
      && k < 256 && r.value == Candidate(block, k, q) < q
      && forall j: nat :: j < k ==> Candidate(block, j, q) >= q
    ensures r.None? ==> forall j: nat :: j < 256 ==> Candidate(block, j, q) >= q
  {
    for retry := 0 to MAX_RETRIES
      invariant forall j: nat :: j < retry ==> Candidate(block, j, q) >= q
    {
      var value := Candidate(block, retry, q);
      if value < q {
        return Some(value);
      }
    }
    return None;
  }

  /** What one seed expands to: party 1 has no W and no truncation shares of its own. */
  datatype PartyValues = PartyValues(u: Rows, v: Column, w: Column, truncations: seq<(int, int)>)

  ghost predicate Expanded(a: PartyValues, b: PartyValues, rows: nat, inner: nat, q: int) {
    && q >= 3
    && IsRows(a.u, rows, inner, q) && IsColumn(a.v, inner, q) && IsColumn(a.w, rows, q)
    && IsRows(b.u, rows, inner, q) && IsColumn(b.v, inner, q)
    && forall k :: 0 <= k < |a.truncations| ==> Canonical(a.truncations[k].0, q) && Canonical(a.truncations[k].1, q)
  }

  /** The residue that completes a given first share. */
  function SecondShare(message: int, first: int, q: int): int
    requires q >= 3
  {
    (message - first) % q
  }

  lemma {:induction false} SecondShareCompletes(message: int, first: int, q: int)
    requires q >= 3
    ensures Shares(first, SecondShare(message, first, q), message, q) && Canonical(SecondShare(message, first, q), q)
  {
    CongruentRemainder(message - first, q);
    CongruentReflexive(first, q);
    CongruentSum(first, first, SecondShare(message, first, q), message - first, q);
  }

  /** W2 = ((U1 + U2)(V1 + V2) - W1) mod q. */
  function CorrectionW(a: PartyValues, b: PartyValues, q: int): (w: Column)
    requires q >= 3 && |a.u| == |b.u| == |a.w| && |a.v| == |b.v|
    requires Rectangular(a.u, |a.v|) && Rectangular(b.u, |a.v|)
    ensures |w| == |a.w|
  {
    var product := MatrixVector(AddRows(a.u, b.u, q), AddColumns(a.v, b.v, q), q);
    SubtractColumns(product, a.w, q)
  }

  /** Two independent expansions and the corrected W are a valid triple. */
  lemma {:induction false} CorrectionsMakeTriple(a: PartyValues, b: PartyValues, rows: nat, inner: nat, q: int)
    requires Expanded(a, b, rows, inner, q)
    ensures |a.u| == |b.u| == |a.w| == rows && |a.v| == |b.v| == inner
    ensures Rectangular(a.u, inner) && Rectangular(b.u, inner)
    ensures var u, v := AddRows(a.u, b.u, q), AddColumns(a.v, b.v, q);
      && RowsSumTo(a.u, b.u, u, q) && SumsTo(a.v, b.v, v, q)
      && SharesOfProduct(a.w, CorrectionW(a, b, q), u, v, q)
      && IsColumn(CorrectionW(a, b, q), rows, q)
  {
    hide Congruent, Dot;
    var u, v, w2 := AddRows(a.u, b.u, q), AddColumns(a.v, b.v, q), CorrectionW(a, b, q);
    ColumnsSum(a.v, b.v, q);
    forall i | 0 <= i < rows
      ensures SumsTo(a.u[i], b.u[i], u[i], q) && Shares(a.w[i], w2[i], Dot(u[i], v), q) && Canonical(w2[i], q)
    {
      ColumnsSum(a.u[i], b.u[i], q);
      var product := Dot(u[i], v);
      SecondShareCompletes(product % q, a.w[i], q);
      CongruentRemainder(product, q);
      CongruentTransitive(a.w[i] + w2[i], product % q, product, q);
    }
  }

  lemma {:induction false} ColumnsSum(a: Column, b: Column, q: int)
    requires q >= 3 && |a| == |b|
    ensures SumsTo(a, b, AddColumns(a, b, q), q)
  {
    hide Congruent;
    forall i | 0 <= i < |a|
      ensures Congruent(a[i] + b[i], AddColumns(a, b, q)[i], q)
    {
      CongruentRemainder(a[i] + b[i], q);
    }
  }

  /** The corrections in their wire order: W2, then one (r, r') second share per truncation. */
  ghost predicate Corrects(result: seq<int>, a: PartyValues, draws: seq<(int, int)>, rows: nat, k: nat, q: int)
    requires q >= 3
  {
    && |result| == rows + 2 * k && k <= |draws| == |a.truncations|
    && forall i :: 0 <= i < k ==>
         && result[rows + 2 * i] == SecondShare(draws[i].0, a.truncations[i].0, q)
         && result[rows + 2 * i + 1] == SecondShare(draws[i].1, a.truncations[i].1, q)
  }

  method DealerCorrections(a: PartyValues, b: PartyValues, rows: nat, inner: nat, q: int, draws: seq<(int, int)>)
    returns (result: seq<int>)
    requires Expanded(a, b, rows, inner, q) && |draws| == |a.truncations|
    ensures |a.u| == |b.u| == |a.w| == rows && |a.v| == |b.v| == inner
    ensures Rectangular(a.u, inner) && Rectangular(b.u, inner)
    ensures |result| == rows + 2 * |draws| && (forall x :: x in result ==> Canonical(x, q))
    ensures SharesOfProduct(a.w, result[..rows], AddRows(a.u, b.u, q), AddColumns(a.v, b.v, q), q)
    ensures forall i :: 0 <= i < |draws| ==>
      && Shares(a.truncations[i].0, result[rows + 2 * i], draws[i].0, q)
      && Shares(a.truncations[i].1, result[rows + 2 * i + 1], draws[i].1, q)
  {
    hide Shares, SharesOfProduct, CorrectionW, SecondShare;
    CorrectionsMakeTriple(a, b, rows, inner, q);
    result := CorrectionW(a, b, q);
    ghost var w2 := result;
    assert result[..rows] == w2;
    for k := 0 to |draws|
      invariant Corrects(result, a, draws, rows, k, q) && result[..rows] == w2
      invariant forall x :: x in result ==> Canonical(x, q)
    {
      SecondShareCompletes(draws[k].0, a.truncations[k].0, q);
      SecondShareCompletes(draws[k].1, a.truncations[k].1, q);
      result := result + [SecondShare(draws[k].0, a.truncations[k].0, q),
                          SecondShare(draws[k].1, a.truncations[k].1, q)];
    }
    forall i | 0 <= i < |draws|
      ensures Shares(a.truncations[i].0, result[rows + 2 * i], draws[i].0, q)
      ensures Shares(a.truncations[i].1, result[rows + 2 * i + 1], draws[i].1, q)
    {
      SecondShareCompletes(draws[i].0, a.truncations[i].0, q);
      SecondShareCompletes(draws[i].1, a.truncations[i].1, q);
    }
  }
}
