/** The party's side of a segment, and whole runs: the client and its two parties over the commit exchange. */
module SegmentRun {
  import opened Options
  import opened Segments
  import Exchange = ReadyCommit

  class PartyLedger {
    const party: int
    const capacity: nat
    const compact: bool
    const fullV3: bool
    var index: nat
    var start: nat
    var committed: nat
    var globalCommitted: nat
    var products: nat
    var truncations: nat
    var lastRound: Option<nat>
    var awaitingBegin: bool
    var closed: bool
    var failed: bool

    ghost predicate Valid()
      reads this
    {
      && committed <= capacity && globalCommitted == start + committed
      && (lastRound.None? <==> committed == 0)
    }

    constructor (party: int, capacity: nat, compact: bool, fullV3: bool)
      ensures Valid() && !failed && !closed && !awaitingBegin
      ensures this.party == party && this.capacity == capacity && this.compact == compact && this.fullV3 == fullV3
      ensures index == start == committed == globalCommitted == products == truncations == 0 && lastRound == None
    {
      this.party, this.capacity, this.compact, this.fullV3 := party, capacity, compact, fullV3;
      index, start, committed, globalCommitted, products, truncations := 0, 0, 0, 0, 0, 0;
      lastRound, awaitingBegin, closed, failed := None, false, false, false;
    }

    predicate Live()
      reads this
    {
      !failed && !closed
    }

    /** The end this party can vouch for: its own counts, its own last round. */
    function Actual(action: Ending): End
      reads this
    {
      End(index, start, committed, start + committed, lastRound, action)
    }

    function ActualBegin(): Begin
      reads this
    {
      Begin(index + 1, globalCommitted, lastRound)
    }

    method CommitRound(step: nat, id: nat, count: nat) returns (ok: bool)
      requires Valid()
      modifies this
      ensures Valid() && unchanged(`index) && unchanged(`start) && unchanged(`awaitingBegin) && unchanged(`closed)
      ensures ok <==> !old(failed) && !old(closed) && !awaitingBegin && old(committed) < capacity
                      && step == old(globalCommitted)
      ensures ok ==> Live() && committed == old(committed) + 1 && globalCommitted == step + 1 && lastRound == Some(id)
      ensures ok ==> products == old(products) + 1 && truncations == old(truncations) + count
      ensures !ok ==> failed == (old(failed) || old(Live())) && unchanged(`globalCommitted) && unchanged(`committed)
    {
      if !Live() {
        return false;
      }
      if awaitingBegin || committed >= capacity || step != globalCommitted {
        failed := true;
        return false;
      }
      committed, globalCommitted := committed + 1, globalCommitted + 1;
      products, truncations := products + 1, truncations + count;
      lastRound := Some(id);
      return true;
    }

    predicate AcceptsEnd(end: End)
      reads this
    {
      && end == Actual(end.action) && (end.action == Continue ==> committed == capacity)
      && (end.action == Switch ==> fullV3)
    }

    /** An end this party can vouch for, field by field: its own segment, its own counts, its own last round. */
    ghost predicate Vouches(end: End)
      reads this
    {
      && end.index == index && end.start == start && end.count == committed && end.endExclusive == globalCommitted
      && end.lastRound == lastRound && (end.action == Continue ==> committed == capacity)
      && (end.action == Switch ==> fullV3)
    }

    /** The begin of the segment right after this party's own end. */
    ghost predicate Follows(begin: Begin)
      reads this
    {
      begin.index == index + 1 && begin.start == globalCommitted && begin.previousRound == lastRound
    }

    /** A refusal fails a live session and leaves a dead one alone. */
    twostate predicate Refuses()
      reads this
    {
      failed == (old(failed) || !old(closed))
    }

    /** Separate end: a full segment then waits for its begin, any other ends the session. */
    method CloseSegment(end: End) returns (receipt: Option<Receipt>)
      requires Valid()
      modifies this
      ensures Valid() && unchanged(`index) && unchanged(`start) && unchanged(`committed) && unchanged(`globalCommitted)
      ensures unchanged(`products) && unchanged(`truncations) && unchanged(`lastRound)
      ensures receipt.Some? <==>
        && !old(failed) && !old(closed) && !old(awaitingBegin) && old(Vouches(end))
        && !(compact && end.action == Continue)
      ensures receipt.None? ==> Refuses() && unchanged(`awaitingBegin) && unchanged(`closed)
      ensures receipt.Some? ==> receipt.value == Receipt(party, end, globalCommitted, products, truncations)
      ensures receipt.Some? ==>
        !failed && awaitingBegin == (end.action == Continue) && closed == (end.action != Continue)
    {
      if !Live() {
        return None;
      }
      if awaitingBegin || !AcceptsEnd(end) || (compact && end.action == Continue) {
        failed := true;
        return None;
      }
      if end.action == Continue {
        awaitingBegin := true;
      } else {
        closed := true;
      }
      return Some(Receipt(party, end, start + committed, products, truncations));
    }

    method OpenSegment(begin: Begin) returns (ok: bool)
      requires Valid()
      modifies this
      ensures Valid() && unchanged(`globalCommitted) && unchanged(`products) && unchanged(`truncations)
      ensures unchanged(`closed)
      ensures ok <==> !old(failed) && !old(closed) && old(awaitingBegin) && old(Follows(begin))
      ensures !ok ==> Refuses() && unchanged(`index) && unchanged(`start) && unchanged(`committed)
      ensures ok ==> Live() && index == begin.index && start == globalCommitted && committed == 0 && !awaitingBegin
      ensures ok ==> lastRound == None
    {
      if !Live() {
        return false;
      }
      if !awaitingBegin || begin != ActualBegin() {
        failed := true;
        return false;
      }
      Reopen(begin);
      return true;
    }

    method Reopen(begin: Begin)
      requires Valid() && begin == ActualBegin()
      modifies this
      ensures Valid() && unchanged(`globalCommitted) && unchanged(`products) && unchanged(`truncations)
      ensures unchanged(`closed) && unchanged(`failed)
      ensures index == begin.index && start == globalCommitted && committed == 0 && !awaitingBegin && lastRound == None
    {
      index, start, committed := begin.index, begin.start, 0;
      lastRound, awaitingBegin := None, false;
    }

    /** End and begin in one message: both are checked before either takes effect. */
    method AdvanceSegment(end: End, begin: Begin) returns (receipt: Option<Receipt>)
      requires Valid()
      modifies this
      ensures Valid() && unchanged(`globalCommitted) && unchanged(`products) && unchanged(`truncations)
      ensures receipt.Some? <==>
        && !old(failed) && !old(closed) && !old(awaitingBegin) && old(Vouches(end)) && compact
        && end.action == Continue && old(Follows(begin))
      ensures receipt.Some? ==> receipt.value == Receipt(party, end, globalCommitted, products, truncations)
      ensures receipt.Some? ==>
        Live() && index == begin.index && start == globalCommitted && committed == 0 && !awaitingBegin
      ensures receipt.Some? ==> lastRound == None
      ensures receipt.None? ==> Refuses() && unchanged(`index) && unchanged(`start) && unchanged(`committed)
    {
      if !Live() {
        return None;
      }
      if awaitingBegin || !compact || end.action != Continue || !AcceptsEnd(end) || begin != ActualBegin() {
        failed := true;
        return None;
      }
      var answer := Receipt(party, end, start + committed, products, truncations);
      Reopen(begin);
      return Some(answer);
    }
  }

  // ----- one round over the exchange -----

  /** What may happen between the start of a round and the client's answer; the client itself can fail only once. */
  predicate Concurrent(s: Exchange.State, a: Exchange.Action) {
    !a.Begin? && !a.ConfirmApplied? && (a.ClientFails? ==> s.client.phase == Exchange.RoundInFlight)
  }

  /** The exchange after whichever of these actions were possible. */
  function Perform(s: Exchange.State, actions: seq<Exchange.Action>): (t: Exchange.State)
    requires Exchange.Shaped(s)
    ensures Exchange.Shaped(t)
  {
    if actions == [] then s
    else
      var before, a := Perform(s, actions[..|actions| - 1]), actions[|actions| - 1];
      if Concurrent(before, a) && Exchange.Enabled(before, a) then Exchange.Apply(before, a) else before
  }

  /** One round as the client's caller sees it: begun, carried on, and given up if it never came to an answer. */
  function Exchanged(s: Exchange.State, nonce: nat, actions: seq<Exchange.Action>): (t: Exchange.State)
    requires Exchange.Shaped(s) && Exchange.Enabled(s, Exchange.Begin(nonce))
    ensures Exchange.Shaped(t)
  {
    var last := Perform(Exchange.Apply(s, Exchange.Begin(nonce)), actions);
    if last.client.phase == Exchange.RoundInFlight then Exchange.Apply(last, Exchange.ClientFails) else last
  }

  /** Where a round stands: the one permit issued since s, and a client that waits, has a result or has failed. */
  ghost predicate InRound(c: Exchange.Client, d: Exchange.Client, nonce: nat) {
    && d.confirmed == c.confirmed && d.issued == c.issued + [Exchange.Permit(c.double, nonce, c.double)]
    && d.phase in {Exchange.RoundInFlight, Exchange.AwaitingPlant, Exchange.Failed, Exchange.FailedAfterCommit,
                   Exchange.Uncertain}
    && (d.phase == Exchange.Failed ==> d.double == d.confirmed)
  }

  lemma {:induction false} RoundGoesOn(c: Exchange.Client, s: Exchange.State, a: Exchange.Action, nonce: nat)
    requires Exchange.Invariant(s) && Concurrent(s, a) && Exchange.Enabled(s, a) && InRound(c, s.client, nonce)
    ensures InRound(c, Exchange.Apply(s, a).client, nonce)
  {
    hide Exchange.WireInvariant;
  }

  lemma {:induction false} PerformKeeps(c: Exchange.Client, s: Exchange.State, actions: seq<Exchange.Action>,
      nonce: nat)
    requires Exchange.Invariant(s) && Exchange.Shaped(s) && InRound(c, s.client, nonce)
    ensures Exchange.Invariant(Perform(s, actions)) && InRound(c, Perform(s, actions).client, nonce)
  {
    hide Exchange.Invariant, Exchange.Apply, InRound, Exchange.Enabled;
    if actions != [] {
      var before, a := Perform(s, actions[..|actions| - 1]), actions[|actions| - 1];
      PerformKeeps(c, s, actions[..|actions| - 1], nonce);
      if Concurrent(before, a) && Exchange.Enabled(before, a) {
        Exchange.StepKeeps(before, a);
        RoundGoesOn(c, before, a, nonce);
      }
    }
  }

  /** A round, whatever happens in it: one permit was issued, and the client has a result or has failed. */
  lemma {:induction false} ExchangeKeeps(s: Exchange.State, nonce: nat, actions: seq<Exchange.Action>)
    requires Exchange.Invariant(s) && Exchange.Shaped(s) && Exchange.Enabled(s, Exchange.Begin(nonce))
    ensures var t := Exchanged(s, nonce, actions);
      Exchange.Invariant(t) && InRound(s.client, t.client, nonce) && t.client.phase != Exchange.RoundInFlight
  {
    var c, started := s.client, Exchange.Apply(s, Exchange.Begin(nonce));
    Exchange.StepKeeps(s, Exchange.Begin(nonce));
    assert InRound(c, started.client, nonce);
    PerformKeeps(c, started, actions, nonce);
    hide Exchange.Invariant, InRound;
    var last := Perform(started, actions);
    if last.client.phase == Exchange.RoundInFlight {
      Exchange.StepKeeps(last, Exchange.ClientFails);
      RoundGoesOn(c, last, Exchange.ClientFails, nonce);
    }
  }

  /** What the client's runtime is told of a round. */
  function OutcomeOf(d: Exchange.Client, nonce: nat, count: nat): Outcome {
    if d.phase == Exchange.AwaitingPlant then Result(nonce, count)
    else if d.phase == Exchange.FailedAfterCommit then CommittedThenFailed(count)
    else if d.phase == Exchange.Uncertain then Lost
    else NotStarted
  }

  // ----- the three together -----

  /** The party's ledger says exactly what the client's runtime says. */
  ghost predicate InSync(c: SegmentedRuntime, p: PartyLedger, party: int)
    reads c, p
  {
    && p.Valid() && p.Live() && !p.awaitingBegin && p.party == party
    && p.capacity == c.capacity && p.compact == c.compact && p.fullV3 == c.fullV3
    && p.index == c.index && p.start == c.start && p.committed == |c.records| && p.globalCommitted == c.confirmed
    && p.products == c.products && p.truncations == c.truncations && p.lastRound == LastId(c.records)
  }

  ghost predicate Together(c: SegmentedRuntime, p0: PartyLedger, p1: PartyLedger)
    reads c, p0, p1
  {
    c.Valid() && c.phase == Running && p0 != p1 && InSync(c, p0, 0) && InSync(c, p1, 1)
  }

  /** The runtime's counts are those of the exchange, and its history is what was issued, as far as it is confirmed. */
  ghost predicate Mirrors(c: SegmentedRuntime, s: Exchange.State)
    reads c, c.control
  {
    && Exchange.Invariant(s) && Exchange.Shaped(s) && c.Valid() && c.control.stop == s.client.stop
    && c.confirmed == s.client.confirmed && c.committed == s.client.double
    && |c.history| <= |s.client.issued|
    && (forall k :: 0 <= k < |c.history| ==> c.history[k].id == s.client.issued[k].nonce)
    && (c.phase == Running ==> s.client.phase == Exchange.Running)
  }

  /** A party's ledger counts exactly the rounds its side of the exchange committed. */
  ghost predicate Counted(p: PartyLedger, x: Exchange.Party)
    reads p
  {
    !p.failed && p.Valid() && p.globalCommitted == |x.log|
  }

  /** However a run ends: both ledgers hold the double commits, and at most one round more than the plant; only where
      the client says that it does not know can one of them hold a round the client has not counted. */
  ghost predicate Accounted(c: SegmentedRuntime, p0: PartyLedger, p1: PartyLedger, s: Exchange.State)
    reads c, c.control, p0, p1
  {
    && Mirrors(c, s) && Counted(p0, s.parties[0]) && Counted(p1, s.parties[1])
    && c.committed <= p0.globalCommitted <= c.confirmed + 1 && c.committed <= p1.globalCommitted <= c.confirmed + 1
    && (c.phase != Uncertain ==> p0.globalCommitted == p1.globalCommitted == c.committed)
  }

  /** Books a round in a party's ledger exactly when its side of the exchange committed it. */
  method Book(c: SegmentedRuntime, p: PartyLedger, party: int, step: nat, nonce: nat, count: nat, x: Exchange.Party)
    requires c.Valid() && InSync(c, p, party) && step == c.confirmed && |c.records| < c.capacity
    requires step <= |x.log| <= step + 1
    modifies p
    ensures Counted(p, x)
    ensures |x.log| == step + 1 ==>
      && p.Live() && !p.awaitingBegin && p.index == old(p.index) && p.start == old(p.start)
      && p.committed == old(p.committed) + 1 && p.lastRound == Some(nonce)
      && p.products == old(p.products) + 1 && p.truncations == old(p.truncations) + count
  {
    hide Tiles, TotalTruncations, Numbered, SealedEnd, LastId;
    if |x.log| > step {
      var ok := p.CommitRound(step, nonce, count);
    }
  }

  function Confirmed(t: Exchange.State): (u: Exchange.State)
    requires Exchange.Shaped(t)
    ensures Exchange.Shaped(u)
  {
    if t.client.phase == Exchange.AwaitingPlant then Exchange.Apply(t, Exchange.ConfirmApplied) else t
  }

  /** What a round over the exchange leaves, before the plant confirms it. */
  ghost predicate RoundLeft(c: SegmentedRuntime, s: Exchange.State, t: Exchange.State, nonce: nat)
    requires Exchange.Shaped(s) && Exchange.Shaped(t)
    reads c
  {
    && Exchange.Invariant(t) && t.client.confirmed == c.confirmed && t.client.phase != Exchange.RoundInFlight
    && |t.client.issued| == c.confirmed + 1 && t.client.issued[c.confirmed].nonce == nonce
    && s.client.issued <= t.client.issued && |s.client.issued| == c.confirmed
    && t.client.double == c.confirmed
         + (if t.client.phase in {Exchange.AwaitingPlant, Exchange.FailedAfterCommit} then 1 else 0)
  }

  ghost predicate LogsWithin(c: SegmentedRuntime, t: Exchange.State)
    requires Exchange.Shaped(t)
    reads c
  {
    forall p :: p in {0, 1} ==>
      && t.client.double <= |t.parties[p].log| <= c.confirmed + 1 && c.confirmed <= |t.parties[p].log|
      && (t.client.phase != Exchange.Uncertain ==> |t.parties[p].log| == t.client.double)
  }

  lemma {:induction false} RoundResult(c: SegmentedRuntime, s: Exchange.State, nonce: nat,
      actions: seq<Exchange.Action>)
    requires Mirrors(c, s) && c.phase == Running && !c.control.stop
    ensures Exchange.Shaped(s) && Exchange.Enabled(s, Exchange.Begin(nonce))
    ensures RoundLeft(c, s, Exchanged(s, nonce, actions), nonce) && LogsWithin(c, Exchanged(s, nonce, actions))
  {
    hide Exchange.Invariant, Exchanged;
    ClientOf(s);
    ExchangeKeeps(s, nonce, actions);
    var t := Exchanged(s, nonce, actions);
    ClientOf(t);
    Exchange.InvariantIsSafe(t);
  }

  lemma {:induction false} ClientOf(s: Exchange.State)
    requires Exchange.Invariant(s)
    ensures Exchange.Shaped(s) && Exchange.ClientInvariant(s.client)
  {
  }

  /** The client's part of a round: it learns the outcome, and confirms a result once the plant has moved. */
  method Conclude(c: SegmentedRuntime, s: Exchange.State, t: Exchange.State, nonce: nat, count: nat)
    returns (u: Exchange.State)
    requires Mirrors(c, s) && c.phase == Running && !c.SegmentFull() && !c.control.stop
    requires Exchange.Shaped(s) && Exchange.Shaped(t) && RoundLeft(c, s, t, nonce)
    modifies c, c.control
    ensures Mirrors(c, u) && u == Confirmed(t) && c.phase in {Running, Failed, FailedAfterCommit, Uncertain}
    ensures c.sealed == old(c.sealed) && c.started == old(c.started) + 1
    ensures c.phase == Running <==> t.client.phase == Exchange.AwaitingPlant
    ensures c.phase == Uncertain <==> t.client.phase == Exchange.Uncertain
    ensures var n := |t.client.issued|; c.phase != Running ==>
      && (c.phase == FailedAfterCommit <==> t.client.double == n)
      && (c.phase == Uncertain <==> t.client.double < n && (t.client.sent[0] == n || t.client.sent[1] == n))
      && (c.phase == Failed <==> t.client.sent[0] < n && t.client.sent[1] < n)
    ensures c.phase == Running ==>
      && c.history == old(c.history) + [Round(old(c.confirmed), nonce, count)]
      && c.records == old(c.records) + [Round(old(c.confirmed), nonce, count)]
      && c.index == old(c.index) && c.start == old(c.start) && c.confirmed == old(c.confirmed) + 1
      && LastId(c.records) == Some(nonce)
      && c.products == old(c.products) + 1 && c.truncations == old(c.truncations) + count
    ensures c.phase != Running ==> c.history == old(c.history) && c.confirmed == old(c.confirmed)
  {
    hide Tiles, TotalTruncations, Numbered, SealedEnd, Exchange.Invariant;
    u := t;
    ClientOf(t);
    var answer := c.Step(OutcomeOf(t.client, nonce, count));
    if t.client.stop {
      c.control.RequestStop();
    }
    if answer.Delivered? {
      var ok := c.ConfirmApplied(answer.round);
      Exchange.StepKeeps(t, Exchange.ConfirmApplied);
      u := Exchange.Apply(t, Exchange.ConfirmApplied);
    }
  }

  /** A round: it starts exactly when the segment is not full and no stop is recorded, and its result is whatever the
      exchange made of it. If it came back, client and parties agree again; if not, the ledgers still count exactly
      what each party committed. */
  method RunRound(c: SegmentedRuntime, p0: PartyLedger, p1: PartyLedger, s: Exchange.State, nonce: nat,
                  actions: seq<Exchange.Action>, count: nat) returns (t: Exchange.State)
    requires Together(c, p0, p1) && Mirrors(c, s) && Counted(p0, s.parties[0]) && Counted(p1, s.parties[1])
    modifies c, p0, p1, c.control
    ensures Accounted(c, p0, p1, t) && c.sealed == old(c.sealed) && (c.phase == Running ==> Together(c, p0, p1))
    ensures c.phase in {Running, Failed, FailedAfterCommit, Uncertain}
    ensures var starts := !old(c.SegmentFull()) && !old(c.control.stop);
      && (!starts ==> t == s && c.phase == Running)
      && (starts ==>
            var after := Exchanged(s, nonce, actions);
            t == Confirmed(after) && (c.phase == Running <==> after.client.phase == Exchange.AwaitingPlant))
      && c.started == old(c.started) + (if starts then 1 else 0)
      && c.history == old(c.history)
           + (if starts && c.phase == Running then [Round(old(c.confirmed), nonce, count)] else [])
  {
    hide Tiles, TotalTruncations, Numbered, SealedEnd, Exchange.Invariant, Exchanged, LastId;
    if c.SegmentFull() || c.control.stop {
      return s;
    }
    RoundResult(c, s, nonce, actions);
    var after := Exchanged(s, nonce, actions);
    assert LogsWithin(c, after);
    var step := c.confirmed;
    Book(c, p0, 0, step, nonce, count, after.parties[0]);
    Book(c, p1, 1, step, nonce, count, after.parties[1]);
    t := Conclude(c, s, after, nonce, count);
  }

  // ----- closing a segment -----

  /** What reaches a party and what comes back: the end with its receipt, then the begin of the next segment. */
  datatype Delivery = Delivery(request: bool, receipt: bool, begin: bool)

  ghost predicate Closing(c: SegmentedRuntime, end: End)
    reads c
  {
    && c.Valid() && c.phase == EndingSegment && c.ending == Some(end) && end.action != Switch
  }

  ghost predicate AfterReceipt(c: SegmentedRuntime, p: PartyLedger, party: int, end: End)
    reads c, p
  {
    && p.Valid() && !p.failed && p.party == party && p.compact == c.compact && p.fullV3 == c.fullV3
    && p.capacity == c.capacity && p.globalCommitted == c.confirmed
    && p.products == c.products && p.truncations == c.truncations
    && p.closed == (end.action == Stop) && p.awaitingBegin == (end.action == Continue && !c.compact)
    && (end.action == Continue && !c.compact ==> p.ActualBegin() == Begin(c.index + 1, c.confirmed, end.lastRound))
    && (end.action == Continue && c.compact ==>
          p.index == c.index + 1 && p.start == c.confirmed && p.committed == 0 && p.lastRound == None)
  }

  /** A party in agreement that is asked vouches for the client's end, in its own words. */
  method AskOne(c: SegmentedRuntime, p: PartyLedger, party: int, end: End, d: Delivery) returns (r: Option<Receipt>)
    requires Closing(c, end) && InSync(c, p, party)
    modifies p
    ensures p.Valid() && !p.failed && p.globalCommitted == old(p.globalCommitted)
    ensures r == if d.request && d.receipt then Some(c.ExpectedReceipt(party, end)) else None
    ensures d.request ==> AfterReceipt(c, p, party, end)
  {
    hide Tiles, TotalTruncations, Numbered, SealedEnd;
    if !d.request {
      return None;
    }
    if end.action == Continue && c.compact {
      r := p.AdvanceSegment(end, Begin(c.index + 1, c.confirmed, end.lastRound));
    } else {
      r := p.CloseSegment(end);
    }
    r := if d.receipt then r else None;
  }

  /** Opens the next segment on both sides, where the begin arrives. */
  method OpenBoth(c: SegmentedRuntime, p0: PartyLedger, p1: PartyLedger, d0: Delivery, d1: Delivery)
    requires c.Valid() && c.phase == ConnectingNext && p0 != p1
    requires var end := End(c.index, c.start, 0, c.confirmed, c.lastEndRound, Continue);
      AfterReceipt(c, p0, 0, end) && AfterReceipt(c, p1, 1, end)
    modifies c, p0, p1
    ensures c.Valid() && c.history == old(c.history) && c.sealed == old(c.sealed) && c.started == old(c.started)
    ensures c.confirmed == old(c.confirmed) && c.committed == old(c.committed)
    ensures p0.Valid() && p1.Valid() && !p0.failed && !p1.failed
    ensures p0.globalCommitted == old(p0.globalCommitted) && p1.globalCommitted == old(p1.globalCommitted)
    ensures c.phase == if c.compact || (d0.begin && d1.begin) then Running else Uncertain
    ensures c.phase == Running ==> Together(c, p0, p1) && c.start == c.confirmed
  {
    hide Tiles, TotalTruncations, Numbered, SealedEnd;
    var ok := true;
    if !c.compact {
      var begin := Begin(c.index + 1, c.confirmed, c.lastEndRound);
      var ok0, ok1 := false, false;
      if d0.begin {
        ok0 := p0.OpenSegment(begin);
      }
      if d1.begin {
        ok1 := p1.OpenSegment(begin);
      }
      ok := ok0 && ok1;
    }
    ok := c.NextSegment(ok);
  }

  function SealedPhase(c: SegmentedRuntime, d0: Delivery, d1: Delivery, late: bool): Phase
    reads c, c.control
  {
    if !(d0.request && d0.receipt && d1.request && d1.receipt) || late then Uncertain
    else if c.control.stop then Stopped
    else if c.compact || (d0.begin && d1.begin) then Running
    else Uncertain
  }

  /** Closing a segment: it is sealed exactly when both receipts come back, whichever is first, because the parties
      vouch for just the end the client declares; and nothing that is lost makes a ledger wrong. */
  method SealSegment(c: SegmentedRuntime, p0: PartyLedger, p1: PartyLedger, firstParty: int, d0: Delivery, d1: Delivery,
                     late: bool)
    requires Together(c, p0, p1) && (c.SegmentFull() || c.control.stop) && firstParty in {0, 1}
    modifies c, p0, p1
    ensures c.Valid() && c.history == old(c.history) && c.started == old(c.started)
    ensures c.confirmed == old(c.confirmed) && c.committed == old(c.committed)
    ensures p0.Valid() && p1.Valid() && !p0.failed && !p1.failed
    ensures p0.globalCommitted == old(p0.globalCommitted) && p1.globalCommitted == old(p1.globalCommitted)
    ensures |c.sealed| == |old(c.sealed)| + (if d0.request && d0.receipt && d1.request && d1.receipt then 1 else 0)
    ensures c.phase == old(SealedPhase(c, d0, d1, late))
    ensures c.phase == Running ==> Together(c, p0, p1) && c.start == c.confirmed
    ensures c.phase == Stopped ==> p0.closed && p1.closed
  {
    hide Tiles, TotalTruncations, Numbered, SealedEnd, LastId;
    var prepared := c.PrepareEnd(false);
    var end := prepared.value;
    var r0 := AskOne(c, p0, 0, end, d0);
    var r1 := AskOne(c, p1, 1, end, d1);
    var ok := c.AcceptReceipts([r0, r1], firstParty, late);
    if ok && end.action == Continue {
      OpenBoth(c, p0, p1, d0, d1);
    }
  }

  // ----- whole runs -----

  datatype Command =
    | DoRound(nonce: nat, actions: seq<Exchange.Action>, truncations: nat)
    | AskStop
    | CloseSegment(firstParty: int, d0: Delivery, d1: Delivery, late: bool)

  function RoundsIn(script: seq<Command>): nat {
    if script == [] then 0
    else RoundsIn(script[..|script| - 1]) + if script[|script| - 1].DoRound? then 1 else 0
  }

  /** No round was started for a command that came after a stop. */
  ghost predicate StopsHold(script: seq<Command>, done: nat, before: nat, started: nat)
    requires done <= |script|
  {
    forall k :: 0 <= k < done && script[k].AskStop? ==> started <= before + RoundsIn(script[..k])
  }

  ghost predicate AskedToStop(script: seq<Command>, done: nat)
    requires done <= |script|
  {
    exists k :: 0 <= k < done && script[k].AskStop?
  }

  lemma {:induction false} StopsStillHold(script: seq<Command>, k: nat, before: nat, was: nat, now: nat)
    requires k < |script| && StopsHold(script, k, before, was) && was <= before + RoundsIn(script[..k])
    requires was <= now <= was + if script[k].DoRound? then 1 else 0
    requires AskedToStop(script, k) ==> now == was
    ensures StopsHold(script, k + 1, before, now) && now <= before + RoundsIn(script[..k + 1])
  {
    assert script[..k + 1][..k] == script[..k];
  }

  lemma {:induction false} NothingAsked(script: seq<Command>, before: nat)
    ensures StopsHold(script, 0, before, before) && before <= before + RoundsIn(script[..0]) && !AskedToStop(script, 0)
  {
  }

  lemma {:induction false} AskedOnce(script: seq<Command>, k: nat)
    requires k < |script|
    ensures AskedToStop(script, k + 1) <==> AskedToStop(script, k) || script[k].AskStop?
  {
  }

  /** A run that ended early starts nothing more. */
  lemma {:induction false} StopsHoldToTheEnd(script: seq<Command>, k: nat, before: nat, started: nat)
    requires k <= |script| && StopsHold(script, k, before, started) && started <= before + RoundsIn(script[..k])
    ensures StopsHold(script, |script|, before, started)
  {
    forall j | k <= j < |script|
      ensures started <= before + RoundsIn(script[..j])
    {
      RoundsGrow(script, k, j);
    }
  }

  /** Between commands: the ledgers are right, and while the run goes on all three agree. */
  ghost predicate Underway(c: SegmentedRuntime, p0: PartyLedger, p1: PartyLedger, s: Exchange.State)
    reads c, c.control, p0, p1
  {
    && Accounted(c, p0, p1, s) && (c.phase == Running ==> Together(c, p0, p1))
    && c.phase in {Running, Stopped, Failed, FailedAfterCommit, Uncertain}
  }

  method RunCommand(c: SegmentedRuntime, p0: PartyLedger, p1: PartyLedger, s: Exchange.State, command: Command)
    returns (t: Exchange.State)
    requires Underway(c, p0, p1, s) && c.phase == Running
    requires command.CloseSegment? ==> command.firstParty in {0, 1}
    modifies c, p0, p1, c.control
    ensures Underway(c, p0, p1, t) && old(c.history) <= c.history
    ensures old(c.started) <= c.started <= old(c.started) + if command.DoRound? then 1 else 0
    ensures old(c.control.stop) ==> c.control.stop && c.started == old(c.started) && c.history == old(c.history)
    ensures command.AskStop? ==> c.control.stop
    ensures |c.sealed| > |old(c.sealed)| ==>
      && command.CloseSegment? && s.parties[0].alive && s.parties[1].alive
      && command.d0.request && command.d0.receipt && command.d1.request && command.d1.receipt
  {
    hide Tiles, TotalTruncations, Numbered, SealedEnd, Exchange.Invariant, Exchanged, LastId, InSync;
    t := s;
    match command {
      case DoRound(nonce, actions, count) => {
        t := RunRound(c, p0, p1, t, nonce, actions, count);
      }
      case AskStop => {
        Exchange.StepKeeps(t, Exchange.RequestStop);
        c.control.RequestStop();
        t := Exchange.Apply(t, Exchange.RequestStop);
      }
      case CloseSegment(firstParty, d0, d1, late) => {
        if c.SegmentFull() || c.control.stop {
          var alive0, alive1 := t.parties[0].alive, t.parties[1].alive;
          SealSegment(c, p0, p1, firstParty, d0.(request := d0.request && alive0),
                      d1.(request := d1.request && alive1), late);
        }
      }
    }
  }

  /** Any script of rounds over the exchange, with any faults in them, of stops and of closings with any losses: the
      sealed records tile the run, no round starts after a stop, and wherever the run ends the ledgers are right. */
  method RunScript(c: SegmentedRuntime, p0: PartyLedger, p1: PartyLedger, s: Exchange.State, script: seq<Command>)
    returns (t: Exchange.State)
    requires Underway(c, p0, p1, s)
    requires forall k :: 0 <= k < |script| ==> script[k].CloseSegment? ==> script[k].firstParty in {0, 1}
    modifies c, p0, p1, c.control
    ensures Underway(c, p0, p1, t) && Tiles(c.sealed, c.history, c.capacity) && Numbered(c.history)
    ensures old(c.history) <= c.history && (c.phase == Stopped ==> SealedEnd(c.sealed) == |c.history|)
    ensures StopsHold(script, |script|, old(c.started), c.started)
    ensures old(c.control.stop) ==> c.started == old(c.started) && c.history == old(c.history)
  {
    hide Underway, StopsHold, RoundsIn, AskedToStop, Tiles, Numbered, SealedEnd;
    t := s;
    var k := 0;
    ghost var before := c.started;
    NothingAsked(script, before);
    while k < |script| && c.phase == Running
      invariant 0 <= k <= |script| && Underway(c, p0, p1, t)
      invariant old(c.history) <= c.history && (old(c.control.stop) ==> c.control.stop)
      invariant old(c.control.stop) ==> c.started == old(c.started) && c.history == old(c.history)
      invariant c.started <= before + RoundsIn(script[..k]) && StopsHold(script, k, before, c.started)
      invariant AskedToStop(script, k) ==> c.control.stop
      decreases |script| - k
    {
      ghost var was := c.started;
      t := RunCommand(c, p0, p1, t, script[k]);
      StopsStillHold(script, k, before, was, c.started);
      AskedOnce(script, k);
      k := k + 1;
    }
    WhatRunsKeep(c, p0, p1, t);
    StopsHoldToTheEnd(script, k, before, c.started);
  }

  lemma {:induction false} WhatRunsKeep(c: SegmentedRuntime, p0: PartyLedger, p1: PartyLedger, t: Exchange.State)
    requires Underway(c, p0, p1, t)
    ensures Tiles(c.sealed, c.history, c.capacity) && Numbered(c.history)
    ensures c.phase == Stopped ==> SealedEnd(c.sealed) == |c.history|
  {
    hide Tiles, Numbered, SealedEnd, Exchange.Invariant, InSync, TotalTruncations;
  }

  lemma {:induction false} RoundsGrow(script: seq<Command>, k: nat, j: nat)
    requires k <= j <= |script|
    ensures RoundsIn(script[..k]) <= RoundsIn(script[..j])
  {
    if k < j {
      RoundsGrow(script, k, j - 1);
      assert script[..j][..j - 1] == script[..j - 1];
    }
  }

  /** A fresh run: nothing sealed, nothing committed, nothing on any link. */
  method NewRun(capacity: nat, compact: bool, fullV3: bool)
    returns (c: SegmentedRuntime, p0: PartyLedger, p1: PartyLedger)
    requires capacity >= 1
    ensures Underway(c, p0, p1, Exchange.Initial()) && c.phase == Running && c.capacity == capacity
    ensures c.started == 0 && c.history == [] && c.sealed == []
    ensures fresh(c) && fresh(p0) && fresh(p1) && fresh(c.control)
  {
    hide Tiles, TotalTruncations, SealedEnd, Numbered, Exchange.Initial, Underway, SegmentedRuntime.Valid;
    var control := new RunControl();
    c := new SegmentedRuntime(capacity, compact, fullV3, control);
    p0 := new PartyLedger(0, capacity, compact, fullV3);
    p1 := new PartyLedger(1, capacity, compact, fullV3);
    FreshRun(c, p0, p1);
  }

  ghost predicate FreshLedger(p: PartyLedger, party: int, capacity: nat, compact: bool, fullV3: bool)
    reads p
  {
    && p.Valid() && !p.failed && !p.closed && !p.awaitingBegin
    && p.party == party && p.capacity == capacity && p.compact == compact && p.fullV3 == fullV3
    && p.index == p.start == p.committed == p.globalCommitted == p.products == p.truncations == 0
    && p.lastRound == None
  }

  lemma {:induction false} FreshRun(c: SegmentedRuntime, p0: PartyLedger, p1: PartyLedger)
    requires c.Valid() && c.phase == Running && c.history == [] && c.sealed == [] && c.records == []
    requires c.index == c.start == c.confirmed == 0 && c.products == c.truncations == 0 && !c.control.stop
    requires p0 != p1 && FreshLedger(p0, 0, c.capacity, c.compact, c.fullV3)
    requires FreshLedger(p1, 1, c.capacity, c.compact, c.fullV3)
    ensures Underway(c, p0, p1, Exchange.Initial())
  {
    hide Tiles, TotalTruncations, Exchange.Invariant, SealedEnd, Numbered;
    NothingExchanged();
    hide Exchange.Initial;
  }

  lemma {:induction false} NothingExchanged()
    ensures var s := Exchange.Initial();
      && Exchange.Invariant(s) && Exchange.Shaped(s) && s.parties[0].log == s.parties[1].log == []
      && s.client.confirmed == s.client.double == 0 && !s.client.stop && s.client.phase == Exchange.Running
  {
    Exchange.InitiallyInvariant();
    hide Exchange.Invariant;
  }

  /** The same from the very start. */
  method RunFromStart(capacity: nat, compact: bool, fullV3: bool, script: seq<Command>)
    returns (c: SegmentedRuntime, p0: PartyLedger, p1: PartyLedger, t: Exchange.State)
    requires capacity >= 1
    requires forall k :: 0 <= k < |script| ==> script[k].CloseSegment? ==> script[k].firstParty in {0, 1}
    ensures Underway(c, p0, p1, t) && Tiles(c.sealed, c.history, capacity) && Numbered(c.history)
    ensures c.phase == Stopped ==> SealedEnd(c.sealed) == |c.history|
    ensures StopsHold(script, |script|, 0, c.started)
  {
    hide Tiles, Underway, SealedEnd, Numbered, StopsHold;
    c, p0, p1 := NewRun(capacity, compact, fullV3);
    t := RunScript(c, p0, p1, Exchange.Initial(), script);
  }
}
