/** Segments of a continuing run: the client's runtime, the ledger each party keeps, and the sealed records. */
module Segments {
  import opened Options

  datatype Round = Round(step: nat, id: nat, truncations: nat)
  datatype Ending = Continue | Stop | Switch
  datatype End = End(index: nat, start: nat, count: nat, endExclusive: nat, lastRound: Option<nat>, action: Ending)
  datatype Begin = Begin(index: nat, start: nat, previousRound: Option<nat>)
  datatype Receipt = Receipt(party: int, end: End, cumulative: nat, products: nat, truncations: nat)
  datatype Sealed = Sealed(steps: seq<Round>, end: End, receipts: seq<Receipt>)

  datatype Phase = Running | AwaitingPlant | EndingSegment | ConnectingNext | Stopped | Switched
    | Failed | FailedAfterCommit | Uncertain

  /** How one protocol round ends: nothing was sent, something was, both committed and then failed, or a result. */
  datatype Outcome = NotStarted | Lost | CommittedThenFailed(truncations: nat) | Result(id: nat, truncations: nat)

  datatype StepAnswer = Refused | NoMore | Broken | Delivered(round: Round)

  function TotalTruncations(rounds: seq<Round>): nat {
    if rounds == [] then 0 else TotalTruncations(rounds[..|rounds| - 1]) + rounds[|rounds| - 1].truncations
  }

  function LastId(rounds: seq<Round>): Option<nat> {
    if rounds == [] then None else Some(rounds[|rounds| - 1].id)
  }

  ghost predicate Numbered(rounds: seq<Round>) {
    forall k :: 0 <= k < |rounds| ==> rounds[k].step == k
  }

  function SealedEnd(sealed: seq<Sealed>): nat {
    if sealed == [] then 0 else sealed[|sealed| - 1].end.endExclusive
  }

  /** Record k of a run with this history: it starts where the previous one ended, holds exactly the confirmed rounds
      of its interval, is full when the run continued, and carries both parties' receipts for the same end. */
  ghost predicate Tile(sealed: seq<Sealed>, k: nat, history: seq<Round>, capacity: nat)
    requires k < |sealed|
  {
    var r, from := sealed[k], SealedEnd(sealed[..k]);
    var to := from + |r.steps|;
    && to <= |history| && r.steps == history[from..to] && |r.steps| <= capacity
    && r.end == End(k, from, |r.steps|, to, LastId(r.steps), r.end.action)
    && (r.end.action == Continue ==> |r.steps| == capacity)
    && (k + 1 < |sealed| ==> r.end.action == Continue)
    && r.receipts == [Receipt(0, r.end, to, to, TotalTruncations(history[..to])),
                      Receipt(1, r.end, to, to, TotalTruncations(history[..to]))]
  }

  ghost predicate Tiles(sealed: seq<Sealed>, history: seq<Round>, capacity: nat) {
    forall k :: 0 <= k < |sealed| ==> Tile(sealed, k, history, capacity)
  }

  lemma {:induction false} TilesSurvive(sealed: seq<Sealed>, history: seq<Round>, more: seq<Round>, capacity: nat)
    requires Tiles(sealed, history, capacity) && history <= more
    ensures Tiles(sealed, more, capacity)
  {
    hide TotalTruncations;
    forall k | 0 <= k < |sealed|
      ensures Tile(sealed, k, more, capacity)
    {
      assert Tile(sealed, k, history, capacity);
      var from := SealedEnd(sealed[..k]);
      var to := from + |sealed[k].steps|;
      assert more[from..to] == history[from..to] && more[..to] == history[..to];
    }
  }

  lemma {:induction false} TilesExtend(sealed: seq<Sealed>, r: Sealed, history: seq<Round>, capacity: nat)
    requires Tiles(sealed, history, capacity)
    requires forall k :: 0 <= k < |sealed| ==> sealed[k].end.action == Continue
    requires Tile(sealed + [r], |sealed|, history, capacity)
    ensures Tiles(sealed + [r], history, capacity)
  {
    hide TotalTruncations, SealedEnd;
    var all := sealed + [r];
    forall k | 0 <= k < |sealed|
      ensures Tile(all, k, history, capacity)
    {
      assert Tile(sealed, k, history, capacity);
      assert all[..k] == sealed[..k];
    }
  }

  /** Full tiles are the multiples of the capacity: segment k covers exactly [k*capacity, (k+1)*capacity). */
  lemma {:induction false} SegmentsAreMultiples(sealed: seq<Sealed>, k: nat, history: seq<Round>, capacity: nat)
    requires Tiles(sealed, history, capacity) && k < |sealed|
    ensures sealed[k].end.start == k * capacity
    ensures sealed[k].end.action == Continue ==> sealed[k].end.endExclusive == (k + 1) * capacity
  {
    hide TotalTruncations;
    assert Tile(sealed, k, history, capacity);
    if k > 0 {
      SegmentsAreMultiples(sealed, k - 1, history, capacity);
      assert Tile(sealed, k - 1, history, capacity);
      var before := sealed[..k];
      assert before[|before| - 1] == sealed[k - 1];
    }
  }

  function PhaseAfter(action: Ending): Phase {
    match action
    case Continue => ConnectingNext
    case Stop => Stopped
    case Switch => Switched
  }

  class RunControl {
    var stop: bool

    constructor ()
      ensures !stop
    {
      stop := false;
    }

    /** Idempotent; nothing clears it. */
    method RequestStop()
      modifies this
      ensures stop
    {
      stop := true;
    }
  }

  class SegmentedRuntime {
    const capacity: nat
    const compact: bool
    const fullV3: bool
    const control: RunControl
    var phase: Phase
    var index: nat
    var start: nat
    var confirmed: nat
    var committed: nat
    var pending: Option<Round>
    var records: seq<Round>
    var products: nat
    var truncations: nat
    var lastEndRound: Option<nat>
    var advanceBegin: Option<Begin>
    var lastReceipts: seq<Receipt>
    var ending: Option<End>
    ghost var history: seq<Round>
    ghost var sealed: seq<Sealed>
    ghost var started: nat

    /** The counts: everything confirmed is in the history, and at most one double commit awaits the plant. */
    ghost predicate Counts()
      reads this
    {
      && capacity >= 1 && Numbered(history) && |history| == confirmed <= committed <= confirmed + 1
      && products == committed && start <= confirmed
      && (pending.Some? ==> pending.value.step == confirmed && committed == confirmed + 1)
      && (committed == confirmed ==> truncations == TotalTruncations(history))
      && (pending.Some? ==> truncations == TotalTruncations(history) + pending.value.truncations)
      && (phase == AwaitingPlant ==> pending.Some?)
      && (phase in {Running, EndingSegment, ConnectingNext, Stopped, Switched} ==>
            committed == confirmed && pending.None?)
      && (phase == FailedAfterCommit ==> committed == confirmed + 1)
    }

    function ClosingEnd(action: Ending): End
      reads this
    {
      End(index, start, |records|, confirmed, LastId(records), action)
    }

    /** What party p must answer when this segment is closed. */
    function ExpectedReceipt(p: int, end: End): Receipt
      reads this
    {
      Receipt(p, end, confirmed, products, truncations)
    }

    /** The open segment: its records are the history since its start. */
    ghost predicate Open()
      reads this
    {
      && index == |sealed| && start == SealedEnd(sealed) && |records| <= capacity
      && start <= |history| && records == history[start..]
      && (forall k :: 0 <= k < |sealed| ==> sealed[k].end.action == Continue)
    }

    ghost predicate Valid()
      reads this
    {
      && Counts() && Tiles(sealed, history, capacity)
      && (phase in {Running, AwaitingPlant, EndingSegment} ==> Open() && advanceBegin.None?)
      && (phase in {Stopped, Switched} ==> advanceBegin.None?)
      && (phase == AwaitingPlant ==> |records| < capacity)
      && (phase == EndingSegment ==>
            && ending.Some? && ending.value == ClosingEnd(ending.value.action)
            && (ending.value.action == Continue ==> |records| == capacity))
      && (phase == ConnectingNext ==>
            && sealed != [] && index + 1 == |sealed| && SealedEnd(sealed) == confirmed && records == []
            && lastEndRound == sealed[|sealed| - 1].end.lastRound
            && (forall k :: 0 <= k < |sealed| ==> sealed[k].end.action == Continue)
            && advanceBegin == (if compact then Some(Begin(index + 1, confirmed, lastEndRound)) else None))
      && (phase in {Stopped, Switched} ==>
            && SealedEnd(sealed) == confirmed && sealed != []
            && sealed[|sealed| - 1].end.action == (if phase == Stopped then Stop else Switch))
    }

    constructor (capacity: nat, compact: bool, fullV3: bool, control: RunControl)
      requires capacity >= 1
      ensures Valid() && phase == Running && this.capacity == capacity && this.control == control
      ensures this.compact == compact && this.fullV3 == fullV3
      ensures history == [] && sealed == [] && started == 0 && index == start == confirmed == 0 && records == []
      ensures products == truncations == 0 && lastEndRound == None
    {
      this.capacity, this.compact, this.fullV3, this.control := capacity, compact, fullV3, control;
      phase, index, start, confirmed, committed := Running, 0, 0, 0, 0;
      pending, records, products, truncations := None, [], 0, 0;
      lastEndRound, advanceBegin, lastReceipts, ending := None, None, [], None;
      history, sealed, started := [], [], 0;
    }

    predicate SegmentFull()
      reads this
    {
      confirmed - start == capacity
    }

    /** Starts a round only when running, not full, and not stopped. */
    method Step(outcome: Outcome) returns (answer: StepAnswer)
      requires Valid()
      modifies this
      ensures Valid() && unchanged(`sealed) && unchanged(`history) && unchanged(`confirmed) && unchanged(`records)
      ensures unchanged(`index) && unchanged(`start) && unchanged(`lastEndRound)
      ensures var allowed := old(phase == Running && pending.None? && !SegmentFull());
        && (!allowed ==> answer == Refused)
        && (allowed && control.stop ==> answer == NoMore)
        && (allowed && !control.stop ==>
              && started == old(started) + 1
              && committed == old(committed) + (if outcome.Result? || outcome.CommittedThenFailed? then 1 else 0)
              && (match outcome
                  case Result(id, count) => answer == Delivered(Round(confirmed, id, count)) && phase == AwaitingPlant
                  case CommittedThenFailed(_) => answer == Broken && phase == FailedAfterCommit
                  case Lost => answer == Broken && phase == Uncertain
                  case NotStarted => answer == Broken && phase == Failed))
        && (!allowed || control.stop ==> unchanged(this))
      ensures answer.Delivered? ==>
        && pending == Some(answer.round) && products == old(products) + 1
        && truncations == old(truncations) + answer.round.truncations
    {
      hide Tiles, TotalTruncations, SealedEnd, LastId, Numbered;
      if phase != Running || pending.Some? || SegmentFull() {
        return Refused;
      }
      if control.stop {
        return NoMore;
      }
      started := started + 1;
      match outcome
      case Result(id, count) =>
        var round := Round(confirmed, id, count);
        pending := Some(round);
        products, truncations, committed := products + 1, truncations + count, committed + 1;
        phase := AwaitingPlant;
        return Delivered(round);
      case CommittedThenFailed(count) =>
        committed, products, truncations := committed + 1, products + 1, truncations + count;
        phase := FailedAfterCommit;
        return Broken;
      case Lost =>
        phase := Uncertain;
        return Broken;
      case NotStarted =>
        phase := Failed;
        return Broken;
    }

    /** Only the one pending round can be confirmed, once; anything else fails the run, as uncertain when the parties
        may already be in the next segment. */
    method ConfirmApplied(round: Round) returns (ok: bool)
      requires Valid()
      modifies this
      ensures Valid() && unchanged(`sealed) && unchanged(`started) && unchanged(`index) && unchanged(`start)
      ensures unchanged(`products) && unchanged(`truncations) && unchanged(`lastEndRound)
      ensures ok <==> old(phase) == AwaitingPlant && old(pending) == Some(round)
      ensures ok ==> phase == Running && history == old(history) + [round] && records == old(records) + [round]
      ensures ok ==> confirmed == old(confirmed) + 1 == committed
      ensures !ok ==> phase == (if advanceBegin.Some? then Uncertain else Failed)
      ensures !ok ==> unchanged(`history) && unchanged(`records) && unchanged(`confirmed) && unchanged(`committed)
      ensures unchanged(`advanceBegin)
    {
      if phase != AwaitingPlant || pending != Some(round) {
        phase := if advanceBegin.Some? then Uncertain else Failed;
        return false;
      }
      TilesSurvive(sealed, history, history + [round], capacity);
      assert (history + [round])[..|history|] == history;
      records := records + [round];
      history := history + [round];
      confirmed := confirmed + 1;
      pending := None;
      phase := Running;
      return true;
    }

    /** Fixes the action under the stop lock; a segment continues only when it is full. */
    method PrepareEnd(switchEpoch: bool) returns (end: Option<End>)
      requires Valid()
      modifies this
      ensures Valid() && unchanged(`sealed) && unchanged(`history) && unchanged(`started) && unchanged(`records)
      ensures unchanged(`index) && unchanged(`start) && unchanged(`confirmed) && unchanged(`committed)
      ensures unchanged(`products) && unchanged(`truncations) && unchanged(`pending) && unchanged(`lastEndRound)
      ensures var action := if switchEpoch then Switch else if control.stop then Stop else Continue;
        && (end.Some? <==>
             && old(phase) == Running && (switchEpoch ==> fullV3) && (action == Continue ==> SegmentFull()))
        && (end.Some? ==> phase == EndingSegment && end == ending == Some(ClosingEnd(action)))
      ensures end.None? ==> unchanged(this)
    {
      if phase != Running || pending.Some? {
        return None;
      }
      if switchEpoch && !fullV3 {
        return None;
      }
      var action := if switchEpoch then Switch else if control.stop then Stop else Continue;
      if action == Continue && !SegmentFull() {
        return None;
      }
      phase := EndingSegment;
      ending := Some(ClosingEnd(action));
      return ending;
    }

    ghost predicate Agreed(replies: seq<Option<Receipt>>, end: End)
      requires |replies| == 2
      reads this
    {
      replies[0] == Some(ExpectedReceipt(0, end)) && replies[1] == Some(ExpectedReceipt(1, end))
    }

    /** Checks the receipts in the order they arrive; a validated one is kept even when the other never comes. */
    method CheckReceipts(replies: seq<Option<Receipt>>, firstParty: int, end: End) returns (ok: bool)
      requires |replies| == 2 && firstParty in {0, 1}
      modifies `lastReceipts
      ensures ok <==> Agreed(replies, end)
      ensures forall r :: r in lastReceipts ==> r.party in {0, 1} && r == ExpectedReceipt(r.party, end)
      ensures ok ==> |lastReceipts| == 2
    {
      lastReceipts := [];
      var p := firstParty;
      for k := 0 to 2
        invariant p == (if k == 1 then 1 - firstParty else firstParty) && |lastReceipts| == k
        invariant k >= 1 ==> replies[firstParty] == Some(ExpectedReceipt(firstParty, end))
        invariant k >= 2 ==> replies[1 - firstParty] == Some(ExpectedReceipt(1 - firstParty, end))
        invariant forall r :: r in lastReceipts ==> r.party in {0, 1} && r == ExpectedReceipt(r.party, end)
      {
        if replies[p] != Some(ExpectedReceipt(p, end)) {
          return false;
        }
        lastReceipts := lastReceipts + [replies[p].value];
        p := 1 - p;
      }
      return true;
    }

    method Seal(receipts: seq<Receipt>, end: End)
      requires Valid() && phase == EndingSegment && ending == Some(end)
      requires receipts == [ExpectedReceipt(0, end), ExpectedReceipt(1, end)]
      modifies `sealed, `records, `lastEndRound, `advanceBegin, `phase
      ensures Valid() && sealed == old(sealed) + [Sealed(old(records), end, receipts)] && records == []
      ensures phase == PhaseAfter(end.action) && lastEndRound == end.lastRound
    {
      hide Tiles, LastId, TotalTruncations, Numbered, SealedEnd;
      var r := Sealed(records, end, receipts);
      SealingKeepsTiles(sealed, r, history, capacity);
      LastSealed(sealed, r);
      sealed := sealed + [r];
      records := [];
      lastEndRound := end.lastRound;
      var begin := Begin(index + 1, confirmed, end.lastRound);
      advanceBegin := if compact && end.action == Continue then Some(begin) else None;
      phase := PhaseAfter(end.action);
    }

    /** Seals the segment only on two equal receipts; a late seal is kept but ends the run as uncertain. */
    method AcceptReceipts(replies: seq<Option<Receipt>>, firstParty: int, late: bool) returns (ok: bool)
      requires Valid() && phase == EndingSegment && |replies| == 2 && firstParty in {0, 1}
      modifies this
      ensures Valid() && unchanged(`history) && unchanged(`started) && unchanged(`confirmed) && unchanged(`committed)
      ensures unchanged(`index) && unchanged(`start) && unchanged(`products) && unchanged(`truncations)
      ensures var end, agreed := old(ending).value, old(Agreed(replies, ending.value));
        && (ok <==> agreed && !late)
        && (agreed ==>
              && sealed == old(sealed) + [Sealed(old(records), end, [replies[0].value, replies[1].value])]
              && records == [] && lastEndRound == end.lastRound)
        && (!agreed ==> unchanged(`sealed) && unchanged(`records))
        && phase == (if ok then PhaseAfter(end.action) else Uncertain)
    {
      hide Tiles, LastId, TotalTruncations, Numbered, SealedEnd;
      var end := ending.value;
      ok := CheckReceipts(replies, firstParty, end);
      if !ok {
        phase := Uncertain;
        return false;
      }
      Seal([replies[0].value, replies[1].value], end);
      if late {
        phase := Uncertain;
        return false;
      }
    }

    /** Opens the next segment only after both parties sealed the previous one with "continue". */
    method NextSegment(beginConfirmed: bool) returns (ok: bool)
      requires Valid()
      modifies this
      ensures Valid() && unchanged(`sealed) && unchanged(`history) && unchanged(`started) && unchanged(`confirmed)
      ensures unchanged(`products) && unchanged(`truncations) && unchanged(`records) && unchanged(`committed)
      ensures ok <==> old(phase) == ConnectingNext && (compact || beginConfirmed)
      ensures ok ==> phase == Running && index == old(index) + 1 && start == confirmed
      ensures !ok && old(phase) == ConnectingNext ==> phase == Uncertain
      ensures old(phase) != ConnectingNext ==> unchanged(this)
    {
      if phase != ConnectingNext {
        return false;
      }
      var begin := Begin(index + 1, confirmed, lastEndRound);
      if (compact && advanceBegin != Some(begin)) || (!compact && !beginConfirmed) {
        phase := Uncertain;
        return false;
      }
      start, index := begin.start, begin.index;
      advanceBegin := None;
      phase := Running;
      return true;
    }
  }

  lemma {:induction false} LastSealed(sealed: seq<Sealed>, r: Sealed)
    ensures SealedEnd(sealed + [r]) == r.end.endExclusive
  {
  }

  lemma {:induction false} SealingKeepsTiles(sealed: seq<Sealed>, r: Sealed, history: seq<Round>, capacity: nat)
    requires Tiles(sealed, history, capacity)
    requires forall k :: 0 <= k < |sealed| ==> sealed[k].end.action == Continue
    requires SealedEnd(sealed) <= |history| && r.steps == history[SealedEnd(sealed)..] && |r.steps| <= capacity
    requires r.end == End(|sealed|, SealedEnd(sealed), |r.steps|, |history|, LastId(r.steps), r.end.action)
    requires r.end.action == Continue ==> |r.steps| == capacity
    requires var n, t := |history|, TotalTruncations(history);
      r.receipts == [Receipt(0, r.end, n, n, t), Receipt(1, r.end, n, n, t)]
    ensures Tiles(sealed + [r], history, capacity)
  {
    hide TotalTruncations;
    assert (sealed + [r])[..|sealed|] == sealed && history[..|history|] == history;
    TilesExtend(sealed, r, history, capacity);
  }
}
