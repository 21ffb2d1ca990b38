/** Protocol 1: scalar multiplication of shares with one-time triples. */
module Beaver {
  import opened NumberTheory
  import opened Options
  import opened SecretSharing

  // ----- the arithmetic of one party -----

  /** e*a + d*b + c, the public product d*e added by party 0 alone. */
  function FinishShare(party: int, a: int, b: int, c: int, d: int, e: int, q: int): int
    requires q >= 3
  {
    var r := Add(Add(MultiplyPublic(a, e, q), MultiplyPublic(b, d, q), q), c, q);
    if party == 0 then AddPublic(r, (d * e) % q, q) else r
  }

  /** Opening the masked differences and finishing on both sides multiplies the shared messages. */
  lemma {:induction false} BeaverMultiplies(x0: int, x1: int, x: int, y0: int, y1: int, y: int,
      a0: int, a1: int, a: int, b0: int, b1: int, b: int, c0: int, c1: int, q: int)
    requires q >= 3 && Shares(x0, x1, x, q) && Shares(y0, y1, y, q)
    requires Shares(a0, a1, a, q) && Shares(b0, b1, b, q) && Shares(c0, c1, a * b, q)
    ensures var d := Reconstruct(Subtract(x0, a0, q), Subtract(x1, a1, q), q);
      var e := Reconstruct(Subtract(y0, b0, q), Subtract(y1, b1, q), q);
      Shares(FinishShare(0, a0, b0, c0, d, e, q), FinishShare(1, a1, b1, c1, d, e, q), x * y, q)
  {
    hide Congruent, Add, Subtract, AddPublic, SubtractPublic, MultiplyPublic, Reconstruct, Shares;
    LinearOperations(x0, x1, x, a0, a1, a, 0, q);
    LinearOperations(y0, y1, y, b0, b1, b, 0, q);
    var d := Reconstruct(Subtract(x0, a0, q), Subtract(x1, a1, q), q);
    var e := Reconstruct(Subtract(y0, b0, q), Subtract(y1, b1, q), q);
    ReconstructMeaning(Subtract(x0, a0, q), Subtract(x1, a1, q), x - a, q);
    ReconstructMeaning(Subtract(y0, b0, q), Subtract(y1, b1, q), y - b, q);
    var l0, l1 := MultiplyPublic(a0, e, q), MultiplyPublic(a1, e, q);
    var r0, r1 := MultiplyPublic(b0, d, q), MultiplyPublic(b1, d, q);
    LinearOperations(a0, a1, a, a0, a1, a, e, q);
    LinearOperations(b0, b1, b, b0, b1, b, d, q);
    LinearOperations(l0, l1, a * e, r0, r1, b * d, 0, q);
    LinearOperations(Add(l0, r0, q), Add(l1, r1, q), a * e + b * d, c0, c1, a * b, 0, q);
    var s0, s1 := Add(Add(l0, r0, q), c0, q), Add(Add(l1, r1, q), c1, q);
    LinearOperations(s0, s1, a * e + b * d + a * b, s0, s1, a * e + b * d + a * b, (d * e) % q, q);
    CompletedProduct(x, y, a, b, d, e, q);
    SharesOfCongruent(FinishShare(0, a0, b0, c0, d, e, q), FinishShare(1, a1, b1, c1, d, e, q),
      a * e + b * d + a * b + (d * e) % q, x * y, q);
  }

  lemma {:induction false} SharesOfCongruent(s0: int, s1: int, m: int, m': int, q: int)
    requires Shares(s0, s1, m, q) && Congruent(m, m', q)
    ensures Shares(s0, s1, m', q)
  {
    CongruentTransitive(s0 + s1, m, m', q);
  }

  lemma {:induction false} CompletedProduct(x: int, y: int, a: int, b: int, d: int, e: int, q: int)
    requires q >= 3 && Congruent(d, x - a, q) && Congruent(e, y - b, q)
    ensures Congruent(a * e + b * d + a * b + (d * e) % q, x * y, q)
  {
    hide Congruent;
    CongruentReflexive(a, q);
    CongruentReflexive(b, q);
    CongruentSum(a, a, d, x - a, q);
    CongruentSum(b, b, e, y - b, q);
    CongruentProduct(a + d, x, b + e, y, q);
    CongruentRemainder(d * e, q);
    var rest := a * e + b * d + a * b;
    CongruentReflexive(rest, q);
    CongruentSum(rest, rest, (d * e) % q, d * e, q);
    CompletedIdentity(a, b, d, e);
    CongruentTransitive(rest + (d * e) % q, rest + d * e, x * y, q);
  }

  lemma {:induction false} CompletedIdentity(a: int, b: int, d: int, e: int)
    ensures a * e + b * d + a * b + d * e == (a + d) * (b + e)
  {
  }

  // ----- the one-time state of a triple -----

  class TripleLifecycle {
    const owner: object
    var masked: set<int>
    var isOpen: bool
    var finished: set<int>
    var consumed: bool
    var attested: set<int>
    var peerReady: set<int>

    /** Masking by both precedes opening, which precedes finishing, which precedes consumption. */
    ghost predicate Valid()
      reads this
    {
      && masked <= {0, 1} && finished <= {0, 1}
      && (isOpen ==> masked == {0, 1})
      && (finished != {} ==> isOpen)
      && (consumed ==> finished != {})
      && (finished == {0, 1} ==> consumed)
      && (attested + peerReady != {} ==> consumed)
    }

    constructor (owner: object)
      ensures Valid() && this.owner == owner
      ensures masked == {} && !isOpen && finished == {} && !consumed
    {
      this.owner := owner;
      masked, isOpen, finished, consumed := {}, false, {}, false;
      attested, peerReady := {}, {};
    }

    method ClaimMasking(party: int) returns (ok: bool)
      requires Valid() && party in {0, 1}
      modifies this
      ensures Valid() && unchanged(`isOpen) && unchanged(`finished) && unchanged(`consumed)
      ensures unchanged(`attested) && unchanged(`peerReady)
      ensures ok <==> party !in old(masked)
      ensures masked == old(masked) + {party}
    {
      if consumed || party in masked {
        return false;
      }
      masked := masked + {party};
      return true;
    }

    method ClaimOpening() returns (ok: bool)
      requires Valid()
      modifies this
      ensures Valid() && unchanged(`masked) && unchanged(`finished) && unchanged(`consumed)
      ensures unchanged(`attested) && unchanged(`peerReady)
      ensures ok <==> !old(isOpen) && masked == {0, 1}
      ensures isOpen == (old(isOpen) || ok)
    {
      if consumed || isOpen || masked != {0, 1} {
        return false;
      }
      isOpen := true;
      return true;
    }

    method ClaimFinish(party: int) returns (ok: bool, last: bool)
      requires Valid() && party in {0, 1}
      modifies this
      ensures Valid() && unchanged(`masked) && unchanged(`isOpen)
      ensures unchanged(`attested) && unchanged(`peerReady)
      ensures ok <==> isOpen && !old(consumed) && party !in old(finished)
      ensures finished == if ok then old(finished) + {party} else old(finished)
      ensures last <==> ok && finished == {0, 1}
      ensures consumed == (old(consumed) || last)
    {
      if consumed || !isOpen || party in finished {
        return false, false;
      }
      finished := finished + {party};
      last := finished == {0, 1};
      if last {
        consumed := true;
      }
      return true, last;
    }

    /** A peer's own witness, kept apart from the client's attestation; either one retires the triple once. */
    method AcceptPeerReady(party: int) returns (ok: bool)
      requires Valid() && party in {0, 1}
      modifies this
      ensures Valid() && unchanged(`masked) && unchanged(`isOpen) && unchanged(`finished) && unchanged(`attested)
      ensures ok <==> !old(consumed) && finished == {party}
      ensures peerReady == if ok then old(peerReady) + {1 - party} else old(peerReady)
      ensures consumed == (old(consumed) || ok)
    {
      if consumed || finished != {party} || !isOpen {
        return false;
      }
      peerReady := peerReady + {1 - party};
      consumed := true;
      return true;
    }

    method AttestPeerFinish(party: int) returns (ok: bool)
      requires Valid() && party in {0, 1}
      modifies this
      ensures Valid() && unchanged(`masked) && unchanged(`isOpen) && unchanged(`finished) && unchanged(`peerReady)
      ensures ok <==> !old(consumed) && finished == {party}
      ensures attested == if ok then old(attested) + {1 - party} else old(attested)
      ensures consumed == (old(consumed) || ok)
    {
      if consumed || finished != {party} || !isOpen {
        return false;
      }
      attested := attested + {1 - party};
      consumed := true;
      return true;
    }
  }

  datatype TripleShare = TripleShare(a: int, b: int, c: int, party: int, lifecycle: TripleLifecycle)
  datatype MaskedDifference = MaskedDifference(d: int, e: int, party: int, lifecycle: TripleLifecycle)
  datatype PublicDifferences = PublicDifferences(d: int, e: int, lifecycle: TripleLifecycle)

  class BeaverMultiplier {
    const q: int
    var created: nat
    var consumed: nat
    ghost var pending: set<TripleLifecycle>

    /** The counters differ by exactly the triples not yet finished by both parties. */
    ghost predicate Valid()
      reads this, pending
    {
      && q >= 3
      && (forall t :: t in pending ==> t.Valid() && t.owner == this && t.finished != {0, 1})
      && created == consumed + |pending|
    }

    constructor (modulus: int)
      requires modulus >= 3
      ensures Valid() && q == modulus && created == consumed == 0 && pending == {}
    {
      q := modulus;
      created, consumed, pending := 0, 0, {};
    }

    /** The dealer's triple; the sampled values and the first shares are the draws. */
    method CreateTriple(a: int, b: int, a0: int, b0: int, c0: int) returns (t0: TripleShare, t1: TripleShare)
      requires Valid() && Canonical(a, q) && Canonical(b, q)
      requires Canonical(a0, q) && Canonical(b0, q) && Canonical(c0, q)
      modifies this
      ensures Valid() && created == old(created) + 1 && consumed == old(consumed)
      ensures fresh(t0.lifecycle) && t1.lifecycle == t0.lifecycle && t0.party == 0 && t1.party == 1
      ensures t0.lifecycle.masked == {} && !t0.lifecycle.isOpen && t0.lifecycle.finished == {} && !t0.lifecycle.consumed
      ensures pending == old(pending) + {t0.lifecycle} && t0.lifecycle !in old(pending)
      ensures Shares(t0.a, t1.a, a, q) && Shares(t0.b, t1.b, b, q) && Shares(t0.c, t1.c, a * b, q)
      ensures Canonical(t0.a, q) && Canonical(t0.b, q) && Canonical(t0.c, q)
      ensures Canonical(t1.a, q) && Canonical(t1.b, q) && Canonical(t1.c, q)
    {
      var c := a * b % q;
      ShareReconstructs(a, a0, q);
      ShareReconstructs(b, b0, q);
      ShareReconstructs(c, c0, q);
      CongruentRemainder(a * b, q);
      var (x0, x1) := Share(a, a0, q);
      var (y0, y1) := Share(b, b0, q);
      var (z0, z1) := Share(c, c0, q);
      SharesOfCongruent(z0, z1, c, a * b, q);
      var lifecycle := new TripleLifecycle(this);
      created := created + 1;
      pending := pending + {lifecycle};
      t0 := TripleShare(x0, y0, z0, 0, lifecycle);
      t1 := TripleShare(x1, y1, z1, 1, lifecycle);
    }

    method MaskInputs(x: int, y: int, t: TripleShare) returns (r: Option<MaskedDifference>)
      requires Valid() && t.lifecycle.Valid() && t.party in {0, 1}
      modifies t.lifecycle
      ensures Valid() && t.lifecycle.Valid()
      ensures t.lifecycle.isOpen == old(t.lifecycle.isOpen) && t.lifecycle.finished == old(t.lifecycle.finished)
      ensures t.lifecycle.consumed == old(t.lifecycle.consumed)
      ensures r.Some? <==> t.lifecycle.owner == this && t.party !in old(t.lifecycle.masked)
      ensures r.Some? ==> t.lifecycle.masked == old(t.lifecycle.masked) + {t.party}
      ensures r.Some? ==>
        r.value == MaskedDifference(Subtract(x, t.a, q), Subtract(y, t.b, q), t.party, t.lifecycle)
    {
      if t.lifecycle.owner != this {
        return None;
      }
      var ok := t.lifecycle.ClaimMasking(t.party);
      if !ok {
        return None;
      }
      return Some(MaskedDifference(Subtract(x, t.a, q), Subtract(y, t.b, q), t.party, t.lifecycle));
    }

    method OpenMaskedDifferences(first: MaskedDifference, second: MaskedDifference)
      returns (r: Option<PublicDifferences>)
      requires Valid() && first.lifecycle.Valid() && first.party in {0, 1} && second.party in {0, 1}
      modifies first.lifecycle
      ensures Valid() && first.lifecycle.Valid()
      ensures first.lifecycle.masked == old(first.lifecycle.masked)
      ensures first.lifecycle.finished == old(first.lifecycle.finished)
      ensures first.lifecycle.consumed == old(first.lifecycle.consumed)
      ensures r.Some? <==>
        && first.lifecycle.owner == this && first.lifecycle == second.lifecycle
        && first.party != second.party && !old(first.lifecycle.isOpen) && first.lifecycle.masked == {0, 1}
      ensures r.Some? ==> first.lifecycle.isOpen
      ensures r.Some? ==> r.value == PublicDifferences(Reconstruct(first.d, second.d, q),
                                                       Reconstruct(first.e, second.e, q), first.lifecycle)
    {
      if first.lifecycle.owner != this || first.lifecycle != second.lifecycle || first.party == second.party {
        return None;
      }
      var ok := first.lifecycle.ClaimOpening();
      if !ok {
        return None;
      }
      return Some(PublicDifferences(Reconstruct(first.d, second.d, q), Reconstruct(first.e, second.e, q),
                                    first.lifecycle));
    }

    method Finish(t: TripleShare, masks: PublicDifferences) returns (r: Option<int>)
      requires Valid() && t.lifecycle.Valid() && t.party in {0, 1}
      requires t.lifecycle.owner == this && t.lifecycle.finished != {0, 1} ==> t.lifecycle in pending
      modifies this, t.lifecycle
      ensures Valid() && t.lifecycle.Valid() && created == old(created)
      ensures t.lifecycle.masked == old(t.lifecycle.masked) && t.lifecycle.isOpen == old(t.lifecycle.isOpen)
      ensures r.Some? <==>
        && t.lifecycle.owner == this && masks.lifecycle == t.lifecycle
        && t.lifecycle.isOpen && !old(t.lifecycle.consumed) && t.party !in old(t.lifecycle.finished)
      ensures r.Some? ==> r.value == FinishShare(t.party, t.a, t.b, t.c, masks.d, masks.e, q)
      ensures r.Some? ==> t.lifecycle.finished == old(t.lifecycle.finished) + {t.party}
      ensures t.lifecycle.consumed == (old(t.lifecycle.consumed) || t.lifecycle.finished == {0, 1})
      ensures pending ==
        if r.Some? && t.lifecycle.finished == {0, 1} then old(pending) - {t.lifecycle} else old(pending)
    {
      if t.lifecycle.owner != this || masks.lifecycle != t.lifecycle {
        return None;
      }
      var ok, last := t.lifecycle.ClaimFinish(t.party);
      if !ok {
        return None;
      }
      if last {
        consumed := consumed + 1;
        pending := pending - {t.lifecycle};
      }
      return Some(FinishShare(t.party, t.a, t.b, t.c, masks.d, masks.e, q));
    }
  }
}
