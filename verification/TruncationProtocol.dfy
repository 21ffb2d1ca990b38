/** The objects that carry Protocol 2: one-time masks, the messages, and the counters. */
module TruncationProtocol {
  import opened Options
  import opened SecretSharing
  import opened Beaver
  import opened Truncation

  class MaskLifecycle {
    const owner: object
    var observer: Option<int>
    var masked: set<int>
    var p2Sent: bool
    var p1Reconstructed: bool
    var finished: set<int>
    var consumed: bool
    var attested: set<int>
    var peerReady: set<int>

    /** The masking a P2 message presupposes, depending on who observes. */
    function Required(): set<int>
      reads this
    {
      match observer
      case None => {0, 1}
      case Some(p) => {p}
    }

    /** Masking, sending, reconstruction, finishing and consumption happen in that order. */
    ghost predicate Valid()
      reads this
    {
      && masked <= {0, 1} && finished <= {0, 1}
      && (observer.Some? ==> observer.value in {0, 1} && masked <= {observer.value} && finished <= {observer.value})
      && (p2Sent ==> masked == Required())
      && (p1Reconstructed ==> p2Sent)
      && (finished != {} ==> p2Sent && (observer == Some(1) || p1Reconstructed))
      && (consumed ==> finished != {})
      && (finished == {0, 1} ==> consumed)
      && (attested + peerReady != {} ==> consumed)
    }

    constructor (owner: object, observer: Option<int>)
      requires observer.Some? ==> observer.value in {0, 1}
      ensures Valid() && this.owner == owner && this.observer == observer
      ensures masked == {} && !p2Sent && !p1Reconstructed && finished == {} && !consumed
      ensures attested == {} && peerReady == {}
    {
      this.owner, this.observer := owner, observer;
      masked, p2Sent, p1Reconstructed, finished, consumed := {}, false, false, {}, false;
      attested, peerReady := {}, {};
    }

    method ObserveAs(party: int) returns (ok: bool)
      requires Valid()
      modifies this`observer
      ensures Valid()
      ensures ok <==> party in {0, 1} && masked == {} && !p2Sent && !consumed && old(observer).None?
      ensures observer == if ok then Some(party) else old(observer)
    {
      if party !in {0, 1} || masked != {} || p2Sent || consumed || observer.Some? {
        return false;
      }
      observer := Some(party);
      return true;
    }

    method ClaimMask(party: int) returns (ok: bool)
      requires Valid() && party in {0, 1}
      modifies this`masked
      ensures Valid()
      ensures ok <==> !consumed && party !in old(masked) && (observer.None? || observer.value == party)
      ensures masked == if ok then old(masked) + {party} else old(masked)
    {
      if consumed || party in masked || (observer.Some? && party != observer.value) {
        return false;
      }
      masked := masked + {party};
      return true;
    }

    method ClaimP2Send() returns (ok: bool)
      requires Valid()
      modifies this`p2Sent
      ensures Valid()
      ensures ok <==> !consumed && !old(p2Sent) && masked == Required() && observer != Some(0)
      ensures p2Sent == (old(p2Sent) || ok)
    {
      var expected: set<int> := if observer == Some(1) then {1} else {0, 1};
      if consumed || p2Sent || masked != expected {
        return false;
      }
      p2Sent := true;
      return true;
    }

    method ReceiveP2Message() returns (ok: bool)
      requires Valid()
      modifies this`p2Sent
      ensures Valid()
      ensures ok <==> observer == Some(0) && !consumed && !old(p2Sent) && masked == {0}
      ensures p2Sent == (old(p2Sent) || ok)
    {
      if observer != Some(0) || consumed || p2Sent || masked != {0} {
        return false;
      }
      p2Sent := true;
      return true;
    }

    method ClaimP1Reconstruction() returns (ok: bool)
      requires Valid()
      modifies this`p1Reconstructed
      ensures Valid()
      ensures ok <==> !consumed && p2Sent && !old(p1Reconstructed)
      ensures p1Reconstructed == (old(p1Reconstructed) || ok)
    {
      if consumed || !p2Sent || p1Reconstructed {
        return false;
      }
      p1Reconstructed := true;
      return true;
    }

    method ClaimFinish(party: int) returns (ok: bool, last: bool)
      requires Valid() && party in {0, 1}
      modifies this`finished, this`consumed
      ensures Valid()
      ensures ok <==>
        && !old(consumed) && party !in old(finished)
        && (if observer == Some(1) && party == 1 then p2Sent else p1Reconstructed)
        && (observer.None? || observer.value == party)
      ensures finished == if ok then old(finished) + {party} else old(finished)
      ensures last <==> ok && finished == {0, 1}
      ensures consumed == (old(consumed) || last)
    {
      var ready := if observer == Some(1) && party == 1 then p2Sent else p1Reconstructed;
      if consumed || !ready || party in finished || (observer.Some? && party != observer.value) {
        return false, false;
      }
      finished := finished + {party};
      last := finished == {0, 1};
      if last {
        consumed := true;
      }
      return true, last;
    }

    method AcceptPeerReady(party: int) returns (ok: bool)
      requires Valid()
      modifies this`peerReady, this`consumed
      ensures Valid()
      ensures ok <==> observer == Some(party) && !old(consumed) && finished == {party}
      ensures peerReady == if ok then old(peerReady) + {1 - party} else old(peerReady)
      ensures consumed == (old(consumed) || ok)
    {
      if observer != Some(party) || consumed || finished != {party} {
        return false;
      }
      peerReady := peerReady + {1 - party};
      consumed := true;
      return true;
    }

    method AttestPeerFinish(party: int) returns (ok: bool)
      requires Valid()
      modifies this`attested, this`consumed
      ensures Valid()
      ensures ok <==> observer == Some(party) && !old(consumed) && finished == {party}
      ensures attested == if ok then old(attested) + {1 - party} else old(attested)
      ensures consumed == (old(consumed) || ok)
    {
      if observer != Some(party) || consumed || finished != {party} {
        return false;
      }
      attested := attested + {1 - party};
      consumed := true;
      return true;
    }
  }

  datatype AuxiliaryShare = AuxiliaryShare(r: int, rPrime: int, party: int, lifecycle: MaskLifecycle)
  datatype MaskedShare = MaskedShare(value: int, party: int, lifecycle: MaskLifecycle)
  datatype P2Message = P2Message(value: int, lifecycle: MaskLifecycle)
  datatype P1Value = P1Value(value: int, lifecycle: MaskLifecycle)

  class SecureTruncation {
    const q: nat
    const ell: nat
    const lambda: nat
    var created: nat
    var consumed: nat
    ghost var pending: set<MaskLifecycle>

    ghost predicate Valid()
      reads this, pending
    {
      && q >= 3 && Parameters(q, ell, lambda)
      && (forall t :: t in pending ==> t.Valid() && t.owner == this && t.finished != {0, 1})
      && created == consumed + |pending|
    }

    constructor (modulus: nat, ell: nat, lambda: nat)
      requires Parameters(modulus, ell, lambda)
      ensures Valid() && q == modulus && this.ell == ell && this.lambda == lambda
      ensures created == consumed == 0 && pending == {}
    {
      q, this.ell, this.lambda := modulus, ell, lambda;
      created, consumed, pending := 0, 0, {};
    }

    /** The dealer's mask; r, r' and their first shares are the draws. */
    method CreateAuxiliary(r: int, rPrime: int, r0: int, p0: int) returns (a0: AuxiliaryShare, a1: AuxiliaryShare)
      requires Valid() && InBits(r, Kappa(q, lambda) - ell + lambda) && InBits(rPrime, ell)
      requires Canonical(r0, q) && Canonical(p0, q)
      modifies this
      ensures Valid() && created == old(created) + 1 && consumed == old(consumed)
      ensures fresh(a0.lifecycle) && a1.lifecycle == a0.lifecycle && a0.party == 0 && a1.party == 1
      ensures a0.lifecycle.observer.None? && a0.lifecycle.masked == {} && a0.lifecycle.finished == {}
      ensures !a0.lifecycle.p2Sent && !a0.lifecycle.p1Reconstructed && !a0.lifecycle.consumed
      ensures pending == old(pending) + {a0.lifecycle} && a0.lifecycle !in old(pending)
      ensures a0.r == r0 && a0.rPrime == p0
      ensures Shares(a0.r, a1.r, r, q) && Shares(a0.rPrime, a1.rPrime, rPrime, q)
      ensures Canonical(a1.r, q) && Canonical(a1.rPrime, q)
    {
      var lifecycle := new MaskLifecycle(this, None);
      ShareReconstructs(r, r0, q);
      ShareReconstructs(rPrime, p0, q);
      var (x0, x1) := Share(r, r0, q);
      var (y0, y1) := Share(rPrime, p0, q);
      created := created + 1;
      pending := pending + {lifecycle};
      a0 := AuxiliaryShare(x0, y0, 0, lifecycle);
      a1 := AuxiliaryShare(x1, y1, 1, lifecycle);
    }

    method MaskInput(m: int, a: AuxiliaryShare) returns (out: Option<MaskedShare>)
      requires Valid() && a.lifecycle.Valid() && a.party in {0, 1}
      modifies a.lifecycle`masked
      ensures Valid() && a.lifecycle.Valid()
      ensures out.Some? <==>
        && a.lifecycle.owner == this && !a.lifecycle.consumed && a.party !in old(a.lifecycle.masked)
        && (a.lifecycle.observer.None? || a.lifecycle.observer.value == a.party)
      ensures a.lifecycle.masked
           == if out.Some? then old(a.lifecycle.masked) + {a.party} else old(a.lifecycle.masked)
      ensures out.Some? ==>
        out.value == MaskedShare(MaskShare(a.party, m, a.r, a.rPrime, ell, q), a.party, a.lifecycle)
    {
      if a.lifecycle.owner != this {
        return None;
      }
      var ok := a.lifecycle.ClaimMask(a.party);
      if !ok {
        return None;
      }
      return Some(MaskedShare(MaskShare(a.party, m, a.r, a.rPrime, ell, q), a.party, a.lifecycle));
    }

    method P2SendMasked(s: MaskedShare) returns (out: Option<P2Message>)
      requires Valid() && s.lifecycle.Valid()
      modifies s.lifecycle`p2Sent
      ensures Valid() && s.lifecycle.Valid()
      ensures out.Some? <==>
        && s.lifecycle.owner == this && s.party == 1 && !s.lifecycle.consumed && !old(s.lifecycle.p2Sent)
        && s.lifecycle.masked == s.lifecycle.Required() && s.lifecycle.observer != Some(0)
      ensures s.lifecycle.p2Sent == (old(s.lifecycle.p2Sent) || out.Some?)
      ensures out.Some? ==> out.value == P2Message(s.value, s.lifecycle)
    {
      if s.lifecycle.owner != this || s.party != 1 {
        return None;
      }
      var ok := s.lifecycle.ClaimP2Send();
      return if ok then Some(P2Message(s.value, s.lifecycle)) else None;
    }

    method P1ReconstructMasked(s: MaskedShare, message: P2Message) returns (out: Option<P1Value>)
      requires Valid() && s.lifecycle.Valid()
      modifies s.lifecycle`p1Reconstructed
      ensures Valid() && s.lifecycle.Valid()
      ensures out.Some? <==>
        && s.lifecycle.owner == this && s.party == 0 && message.lifecycle == s.lifecycle
        && !s.lifecycle.consumed && s.lifecycle.p2Sent && !old(s.lifecycle.p1Reconstructed)
      ensures s.lifecycle.p1Reconstructed == (old(s.lifecycle.p1Reconstructed) || out.Some?)
      ensures out.Some? ==>
        out.value == P1Value(CenteredMod(Reconstruct(s.value, message.value, q), q), s.lifecycle)
    {
      if s.lifecycle.owner != this || s.party != 0 || message.lifecycle != s.lifecycle {
        return None;
      }
      var ok := s.lifecycle.ClaimP1Reconstruction();
      if !ok {
        return None;
      }
      return Some(P1Value(CenteredMod(Reconstruct(s.value, message.value, q), q), s.lifecycle));
    }

    method FinishP1(m: int, a: AuxiliaryShare, v: P1Value) returns (out: Option<int>)
      requires Valid() && a.lifecycle.Valid()
      requires a.lifecycle.owner == this && a.lifecycle.finished != {0, 1} ==> a.lifecycle in pending
      modifies this, a.lifecycle`finished, a.lifecycle`consumed
      ensures Valid() && a.lifecycle.Valid() && created == old(created)
      ensures out.Some? <==>
        && a.lifecycle.owner == this && a.party == 0 && v.lifecycle == a.lifecycle
        && !old(a.lifecycle.consumed) && 0 !in old(a.lifecycle.finished)
        && a.lifecycle.p1Reconstructed && a.lifecycle.observer != Some(1)
      ensures out.Some? ==> out.value == FinishOne(m, a.rPrime, v.value, ell, q)
      ensures a.lifecycle.finished
           == if out.Some? then old(a.lifecycle.finished) + {0} else old(a.lifecycle.finished)
      ensures a.lifecycle.consumed == (old(a.lifecycle.consumed) || a.lifecycle.finished == {0, 1})
      ensures consumed == old(consumed) + if out.Some? && a.lifecycle.finished == {0, 1} then 1 else 0
      ensures pending
           == if out.Some? && a.lifecycle.finished == {0, 1} then old(pending) - {a.lifecycle} else old(pending)
    {
      hide Parameters, FinishOne;
      if a.lifecycle.owner != this || a.party != 0 || v.lifecycle != a.lifecycle {
        return None;
      }
      var ok, last := a.lifecycle.ClaimFinish(0);
      if !ok {
        return None;
      }
      if last {
        consumed := consumed + 1;
        pending := pending - {a.lifecycle};
      }
      return Some(FinishOne(m, a.rPrime, v.value, ell, q));
    }

    method FinishP2(m: int, a: AuxiliaryShare) returns (out: Option<int>)
      requires Valid() && a.lifecycle.Valid()
      requires a.lifecycle.owner == this && a.lifecycle.finished != {0, 1} ==> a.lifecycle in pending
      modifies this, a.lifecycle`finished, a.lifecycle`consumed
      ensures Valid() && a.lifecycle.Valid() && created == old(created)
      ensures out.Some? <==>
        && a.lifecycle.owner == this && a.party == 1
        && !old(a.lifecycle.consumed) && 1 !in old(a.lifecycle.finished)
        && (if a.lifecycle.observer == Some(1) then a.lifecycle.p2Sent else a.lifecycle.p1Reconstructed)
        && a.lifecycle.observer != Some(0)
      ensures out.Some? ==> out.value == FinishTwo(m, a.rPrime, ell, q)
      ensures a.lifecycle.finished
           == if out.Some? then old(a.lifecycle.finished) + {1} else old(a.lifecycle.finished)
      ensures a.lifecycle.consumed == (old(a.lifecycle.consumed) || a.lifecycle.finished == {0, 1})
      ensures consumed == old(consumed) + if out.Some? && a.lifecycle.finished == {0, 1} then 1 else 0
      ensures pending
           == if out.Some? && a.lifecycle.finished == {0, 1} then old(pending) - {a.lifecycle} else old(pending)
    {
      hide Parameters, FinishTwo;
      if a.lifecycle.owner != this || a.party != 1 {
        return None;
      }
      var ok, last := a.lifecycle.ClaimFinish(1);
      if !ok {
        return None;
      }
      if last {
        consumed := consumed + 1;
        pending := pending - {a.lifecycle};
      }
      return Some(FinishTwo(m, a.rPrime, ell, q));
    }
  }

  /** Two halves of one mask nobody has used yet. */
  ghost predicate Unused(p: SecureTruncation, a0: AuxiliaryShare, a1: AuxiliaryShare)
    reads a0.lifecycle
  {
    var t := a0.lifecycle;
    && t.Valid() && t.owner == p && a1.lifecycle == t && a0.party == 0 && a1.party == 1
    && t.observer.None? && t.masked == {} && !t.p2Sent && !t.p1Reconstructed && t.finished == {} && !t.consumed
  }

  /** The same pair once P1 has recovered the masked value and nobody has finished. */
  ghost predicate Recovered(p: SecureTruncation, a0: AuxiliaryShare, a1: AuxiliaryShare, v: P1Value)
    reads a0.lifecycle
  {
    var t := a0.lifecycle;
    && t.Valid() && t.owner == p && a1.lifecycle == t && a0.party == 0 && a1.party == 1 && v.lifecycle == t
    && t.observer.None? && t.p1Reconstructed && t.finished == {} && !t.consumed
  }

  /** The first half of an honest run: both mask, P2 sends, P1 recovers the masked value. */
  method MaskAndOpen(p: SecureTruncation, m0: int, m1: int, a0: AuxiliaryShare, a1: AuxiliaryShare)
    returns (v: P1Value)
    requires p.Valid() && Unused(p, a0, a1)
    modifies a0.lifecycle`masked, a0.lifecycle`p2Sent, a0.lifecycle`p1Reconstructed
    ensures p.Valid() && Recovered(p, a0, a1, v)
    ensures v.value == CenteredMod(Reconstruct(MaskShare(0, m0, a0.r, a0.rPrime, p.ell, p.q),
                                               MaskShare(1, m1, a1.r, a1.rPrime, p.ell, p.q), p.q), p.q)
  {
    hide MaskShare, Reconstruct, CenteredMod, Parameters;
    var s0 := p.MaskInput(m0, a0);
    var s1 := p.MaskInput(m1, a1);
    var message := p.P2SendMasked(s1.value);
    var opening := p.P1ReconstructMasked(s0.value, message.value);
    v := opening.value;
  }

  /** The second half: both parties finish, which uses the mask up. */
  method FinishBoth(p: SecureTruncation, m0: int, m1: int, a0: AuxiliaryShare, a1: AuxiliaryShare, v: P1Value)
    returns (z0: int, z1: int)
    requires p.Valid() && Recovered(p, a0, a1, v) && a0.lifecycle in p.pending
    modifies p, a0.lifecycle`finished, a0.lifecycle`consumed
    ensures p.Valid() && a0.lifecycle.Valid() && a0.lifecycle.consumed
    ensures p.created == old(p.created) && p.consumed == old(p.consumed) + 1
    ensures p.pending == old(p.pending) - {a0.lifecycle}
    ensures z0 == FinishOne(m0, a0.rPrime, v.value, p.ell, p.q) && z1 == FinishTwo(m1, a1.rPrime, p.ell, p.q)
  {
    hide FinishOne, FinishTwo, Parameters;
    var o0 := p.FinishP1(m0, a0, v);
    assert a0.lifecycle.finished == {0};
    var o1 := p.FinishP2(m1, a1);
    z0, z1 := o0.value, o1.value;
  }

  /** One honest run of both parties over shares of m: every step is admitted, the mask is used up, and the
      output shares stand for T. */
  method RunProtocol2(p: SecureTruncation, m: int, m0: int, m1: int, r: int, rPrime: int, r0: int, p0: int)
    returns (z0: int, z1: int)
    requires p.Valid() && InBits(m, Kappa(p.q, p.lambda)) && Shares(m0, m1, m, p.q)
    requires InBits(r, Kappa(p.q, p.lambda) - p.ell + p.lambda) && InBits(rPrime, p.ell)
    requires Canonical(r0, p.q) && Canonical(p0, p.q)
    modifies p
    ensures p.Valid() && p.pending == old(p.pending)
    ensures p.created == old(p.created) + 1 && p.consumed == old(p.consumed) + 1
    ensures Shares(z0, z1, Truncated(m, rPrime, p.ell), p.q)
    ensures CenteredMod(Reconstruct(z0, z1, p.q), p.q) == Truncated(m, rPrime, p.ell)
  {
    hide MaskShare, FinishOne, FinishTwo, Shares, InBits, Truncated, CenteredMod, Reconstruct, Canonical,
      MaskedValue, Kappa, Parameters;
    ParametersOf(p);
    var a0, a1 := p.CreateAuxiliary(r, rPrime, r0, p0);
    assert Unused(p, a0, a1);
    hide Unused, Recovered;
    Protocol2Truncates(p.q, p.ell, p.lambda, m, r, rPrime, m0, m1, a0.r, a1.r, a0.rPrime, a1.rPrime);
    var v := MaskAndOpen(p, m0, m1, a0, a1);
    z0, z1 := FinishBoth(p, m0, m1, a0, a1, v);
  }

  lemma {:induction false} ParametersOf(p: SecureTruncation)
    requires p.Valid()
    ensures Parameters(p.q, p.ell, p.lambda) && p.q >= 3
  {
  }
}
