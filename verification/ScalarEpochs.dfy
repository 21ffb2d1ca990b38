/** One epoch of the scalar runtime: the client drives both parties through material, compute and commit, then end.
    Links may break and any of the three may fail at any point. */
module ScalarEpochs {
  import opened Links

  datatype Round = Round(step: nat, nonce: nat, ids: seq<nat>)
  datatype Request = Material(round: Round) | Compute(step: nat, nonce: nat) | Commit(step: nat, nonce: nat)
    | EndRequest(step: nat)
  datatype Answer = Ready(step: nat, nonce: nat) | Result(step: nat, nonce: nat, products: nat)
    | Committed(step: nat, nonce: nat, count: nat) | Ended(step: nat, count: nat)

  datatype Phase = Idle | InRound | Ending | Finished | Failed

  // The client's place in a round: stage pc / 4 (material, compute, commit), in it send to 0, send to 1,
  // receive from 0, receive from 1. In the end phase the same four steps once.
  datatype Client = Client(phase: Phase, pc: nat, localStep: nat, issued: seq<Round>, spent: set<nat>,
                           sent: seq<nat>, got: seq<nat>, endSent: seq<bool>, endGot: seq<bool>, receipts: seq<nat>)

  // 0 take a request, 1 send ready, 2 take compute, 3 evaluate and send the result, 4 take commit, 5 commit,
  // 6 send committed; 7 send ended, 8 done.
  datatype Party = Party(pc: nat, round: nat, current: Round, log: seq<Round>, spent: set<nat>, alive: bool)

  datatype State = State(client: Client, parties: seq<Party>, down: seq<Link<Request>>, up: seq<Link<Answer>>)

  datatype Action =
    | BeginStep(nonce: nat, ids: seq<nat>)
    | ClientActs
    | BeginEnd
    | ClientFails
    | PartyActs(p: int)
    | PartyFails(p: int)
    | DownBreaks(p: int, kept: nat)
    | UpBreaks(p: int, kept: nat)

  predicate Distinct(ids: seq<nat>) {
    forall i, j :: 0 <= i < j < |ids| ==> ids[i] != ids[j]
  }

  function IdSet(ids: seq<nat>): set<nat> {
    set i | i in ids
  }

  predicate Shaped(s: State) {
    && |s.parties| == |s.down| == |s.up| == 2
    && |s.client.sent| == |s.client.got| == |s.client.endSent| == |s.client.endGot| == 2
  }

  function Initial(): State {
    var x := Party(0, 0, Round(0, 0, []), [], {}, true);
    State(Client(Idle, 0, 0, [], {}, [0, 0], [0, 0], [false, false], [false, false], []), [x, x],
          [Link([], false), Link([], false)], [Link([], false), Link([], false)])
  }

  // ----- the message of each place in the schedule -----

  function RoundAt(issued: seq<Round>, k: nat): Round {
    if k < |issued| then issued[k] else Round(k, 0, [])
  }

  function RequestAt(k: nat, issued: seq<Round>): Request {
    var r := RoundAt(issued, k / 3);
    if k % 3 == 0 then Material(r) else if k % 3 == 1 then Compute(r.step, r.nonce) else Commit(r.step, r.nonce)
  }

  function AnswerAt(k: nat, issued: seq<Round>): Answer {
    var r := RoundAt(issued, k / 3);
    if k % 3 == 0 then Ready(r.step, r.nonce)
    else if k % 3 == 1 then Result(r.step, r.nonce, |r.ids|)
    else Committed(r.step, r.nonce, k / 3 + 1)
  }

  // ----- steps -----

  /** The party the client is about to talk to. */
  function Partner(pc: nat): int {
    pc % 2
  }

  predicate Sending(pc: nat) {
    pc % 4 < 2
  }

  predicate Enabled(s: State, a: Action)
    requires Shaped(s)
  {
    var c := s.client;
    match a
    case BeginStep(_, _) => c.phase == Idle
    case ClientActs =>
      && ((c.phase == InRound && c.pc < 12) || (c.phase == Ending && c.pc < 4))
      && (Sending(c.pc) || s.up[Partner(c.pc)].queue != [])
    case BeginEnd => c.phase == Idle
    case ClientFails => c.phase in {Idle, InRound, Ending}
    case PartyActs(p) =>
      && p in {0, 1} && s.parties[p].alive && s.parties[p].pc <= 7
      && (s.parties[p].pc in {0, 2, 4} ==> s.down[p].queue != [])
    case PartyFails(p) => p in {0, 1}
    case DownBreaks(p, kept) => p in {0, 1} && kept <= |s.down[p].queue|
    case UpBreaks(p, kept) => p in {0, 1} && kept <= |s.up[p].queue|
  }

  /** The ids are burned before anything is sent; a reused or repeated id fails the session. */
  function Start(c: Client, nonce: nat, ids: seq<nat>): Client {
    if !Distinct(ids) || !(IdSet(ids) !! c.spent) then c.(phase := Failed)
    else c.(phase := InRound, pc := 0, issued := c.issued + [Round(c.localStep, nonce, ids)],
            spent := c.spent + IdSet(ids))
  }

  function NextInRound(c: Client): Client {
    if c.pc + 1 == 12 then c.(phase := Idle, pc := 0, localStep := c.localStep + 1) else c.(pc := c.pc + 1)
  }

  function ClientStep(s: State): (t: State)
    requires Shaped(s) && Enabled(s, ClientActs)
    ensures Shaped(t)
  {
    var c := s.client;
    var p := Partner(c.pc);
    if c.phase == InRound && Sending(c.pc) then
      s.(down := s.down[p := s.down[p].Push(RequestAt(3 * c.localStep + c.pc / 4, c.issued))],
         client := NextInRound(c.(sent := c.sent[p := c.sent[p] + 1])))
    else if c.phase == InRound then
      var good := s.up[p].queue[0] == AnswerAt(3 * c.localStep + c.pc / 4, c.issued);
      s.(up := s.up[p := s.up[p].Pop()],
         client := if good then NextInRound(c.(got := c.got[p := c.got[p] + 1])) else c.(phase := Failed))
    else if Sending(c.pc) then
      s.(down := s.down[p := s.down[p].Push(EndRequest(c.localStep))],
         client := c.(pc := c.pc + 1, endSent := c.endSent[p := true]))
    else
      var good := s.up[p].queue[0] == Ended(c.localStep, c.localStep);
      s.(up := s.up[p := s.up[p].Pop()],
         client := if !good then c.(phase := Failed)
                   else c.(pc := c.pc + 1, endGot := c.endGot[p := true], receipts := c.receipts + [c.localStep],
                           phase := if c.pc == 3 then Finished else Ending))
  }

  /** What a waiting party does with the request at the head of its link; anything unexpected fails it. */
  function Take(x: Party, r: Request): Party {
    if x.pc == 0 then
      match r
      case EndRequest(step) => if step == |x.log| then x.(pc := 7) else x.(alive := false)
      case Material(round) =>
        if round.step == |x.log| && Distinct(round.ids) && IdSet(round.ids) !! x.spent then
          x.(pc := 1, current := round, spent := x.spent + IdSet(round.ids))
        else x.(alive := false)
      case _ => x.(alive := false)
    else if x.pc == 2 then
      if r == Compute(x.current.step, x.current.nonce) then x.(pc := 3) else x.(alive := false)
    else
      if r == Commit(x.current.step, x.current.nonce) then x.(pc := 5) else x.(alive := false)
  }

  function Say(x: Party): Answer {
    var r := x.current;
    if x.pc == 1 then Ready(r.step, r.nonce)
    else if x.pc == 3 then Result(r.step, r.nonce, |r.ids|)
    else if x.pc == 6 then Committed(r.step, r.nonce, |x.log|)
    else Ended(|x.log|, |x.log|)
  }

  function AfterSaying(x: Party): Party {
    if x.pc == 6 then x.(pc := 0, round := x.round + 1) else x.(pc := x.pc + 1)
  }

  function PartyStep(s: State, p: int): State
    requires Shaped(s) && p in {0, 1} && Enabled(s, PartyActs(p))
  {
    var x := s.parties[p];
    if x.pc in {0, 2, 4} then
      s.(down := s.down[p := s.down[p].Pop()], parties := s.parties[p := Take(x, s.down[p].queue[0])])
    else if x.pc == 5 then
      s.(parties := s.parties[p := x.(pc := 6, log := x.log + [x.current])])
    else
      s.(up := s.up[p := s.up[p].Push(Say(x))],
         parties := s.parties[p := AfterSaying(x)])
  }

  function Apply(s: State, a: Action): (t: State)
    requires Shaped(s) && Enabled(s, a)
    ensures Shaped(t)
  {
    var c := s.client;
    match a
    case BeginStep(nonce, ids) => s.(client := Start(c, nonce, ids))
    case ClientActs => ClientStep(s)
    case BeginEnd => s.(client := c.(phase := Ending, pc := 0))
    case ClientFails => s.(client := c.(phase := Failed))
    case PartyActs(p) => PartyStep(s, p)
    case PartyFails(p) => s.(parties := s.parties[p := s.parties[p].(alive := false)])
    case DownBreaks(p, kept) => s.(down := s.down[p := s.down[p].Cut(kept)])
    case UpBreaks(p, kept) => s.(up := s.up[p := s.up[p].Cut(kept)])
  }

  // ----- resources -----

  function SpentBy(issued: seq<Round>, n: nat): set<nat>
    requires n <= |issued|
  {
    if n == 0 then {} else SpentBy(issued, n - 1) + IdSet(issued[n - 1].ids)
  }

  /** Rounds are numbered in order and no two of them share a resource. */
  ghost predicate Fresh(issued: seq<Round>) {
    && (forall k :: 0 <= k < |issued| ==> issued[k].step == k && Distinct(issued[k].ids))
    && (forall i, j :: 0 <= i < j < |issued| ==> IdSet(issued[i].ids) !! IdSet(issued[j].ids))
  }

  lemma {:induction false} SpentBefore(issued: seq<Round>, n: nat, k: nat)
    requires Fresh(issued) && n <= k < |issued|
    ensures SpentBy(issued, n) !! IdSet(issued[k].ids)
  {
    hide IdSet, Distinct;
    if n > 0 {
      SpentBefore(issued, n - 1, k);
    }
  }

  lemma {:induction false} SpentOf(issued: seq<Round>, k: nat, n: nat)
    requires k < n <= |issued|
    ensures IdSet(issued[k].ids) <= SpentBy(issued, n)
  {
    hide IdSet;
    if k + 1 < n {
      SpentOf(issued, k, n - 1);
    }
  }

  lemma {:induction false} SpentStable(issued: seq<Round>, more: seq<Round>, n: nat)
    requires n <= |issued| && issued <= more
    ensures SpentBy(issued, n) == SpentBy(more, n)
  {
    if n > 0 {
      SpentStable(issued, more, n - 1);
    }
  }

  lemma {:induction false} FreshRound(issued: seq<Round>, r: Round)
    requires Fresh(issued) && r.step == |issued| && Distinct(r.ids) && IdSet(r.ids) !! SpentBy(issued, |issued|)
    ensures Fresh(issued + [r]) && SpentBy(issued + [r], |issued| + 1) == SpentBy(issued, |issued|) + IdSet(r.ids)
  {
    hide IdSet, Distinct;
    var more := issued + [r];
    SpentStable(issued, more, |issued|);
    forall i, j | 0 <= i < j < |more|
      ensures IdSet(more[i].ids) !! IdSet(more[j].ids)
    {
      if j == |issued| {
        SpentOf(issued, i, |issued|);
      }
    }
  }

  // ----- the invariant -----

  function Received(x: Party): nat {
    3 * x.round + (if x.pc in {1, 2} then 1 else if x.pc in {3, 4} then 2 else if x.pc in {5, 6} then 3 else 0)
  }

  function Replied(x: Party): nat {
    3 * x.round + (if x.pc in {2, 3} then 1 else if x.pc in {4, 5, 6} then 2 else 0)
  }

  function Taken(x: Party): nat {
    if 1 <= x.pc <= 6 then x.round + 1 else x.round
  }

  /** Rounds whose result this party has sent. */
  function Staged(x: Party): nat {
    if 4 <= x.pc <= 6 then x.round + 1 else x.round
  }

  ghost predicate Counters(c: Client, p: int)
    requires p in {0, 1} && |c.sent| == |c.got| == |c.endSent| == |c.endGot| == 2
  {
    && 3 * c.localStep <= c.got[p] <= c.sent[p] <= 3 * |c.issued|
    && (c.sent[p] >= 3 * c.localStep + 2 ==> c.got[0] >= 3 * c.localStep + 1 && c.got[1] >= 3 * c.localStep + 1)
    && (c.sent[p] >= 3 * c.localStep + 3 ==> c.got[0] >= 3 * c.localStep + 2 && c.got[1] >= 3 * c.localStep + 2)
    && (c.phase == InRound ==>
          && c.sent[p] == 3 * c.localStep + c.pc / 4 + (if c.pc % 4 > p then 1 else 0)
          && c.got[p] == 3 * c.localStep + c.pc / 4 + (if c.pc % 4 > 2 + p then 1 else 0))
    && (c.phase in {Idle, Ending, Finished} ==> c.sent[p] == c.got[p] == 3 * c.localStep)
    && (c.endSent[p] ==> |c.issued| == c.localStep && c.sent[p] == c.got[p] == 3 * c.localStep)
    && (c.endGot[p] ==> c.endSent[p])
    && (c.phase in {Idle, InRound} ==> !c.endSent[p])
    && (c.phase == Ending ==> c.endSent[p] == (c.pc > p) && c.endGot[p] == (c.pc > 2 + p))
    && (c.phase == Finished ==> c.endGot[p])
  }

  ghost predicate ClientInvariant(c: Client) {
    && |c.sent| == |c.got| == |c.endSent| == |c.endGot| == 2
    && c.localStep <= |c.issued| <= c.localStep + 1
    && Fresh(c.issued) && c.spent == SpentBy(c.issued, |c.issued|)
    && (c.phase in {Idle, Ending, Finished} ==> |c.issued| == c.localStep)
    && (c.phase == InRound ==> |c.issued| == c.localStep + 1 && c.pc < 12)
    && (c.phase == Idle ==> c.receipts == [])
    && (c.phase == InRound ==> c.receipts == [])
    && (c.phase == Ending ==> c.pc < 4 && c.receipts == if c.pc == 3 then [c.localStep] else [])
    && (c.phase == Finished ==> c.receipts == [c.localStep, c.localStep])
    && Counters(c, 0) && Counters(c, 1)
  }

  ghost predicate PartyInvariant(c: Client, p: int, x: Party)
    requires p in {0, 1} && |c.sent| == |c.got| == |c.endSent| == |c.endGot| == 2
  {
    && x.pc <= 8 && |x.log| == (if x.pc == 6 then x.round + 1 else x.round)
    && Received(x) <= c.sent[p] && Taken(x) <= |c.issued| && x.log <= c.issued
    && (1 <= x.pc <= 6 ==> x.current == c.issued[x.round])
    && x.spent == SpentBy(c.issued, Taken(x))
    && c.got[p] <= Replied(x)
    && (x.pc >= 7 ==> c.endSent[p])
    && (c.endGot[p] ==> x.pc == 8)
  }

  function RequestsFrom(from: nat, to: nat, issued: seq<Round>): (r: seq<Request>)
    requires from <= to
    ensures |r| == to - from
  {
    seq(to - from, k requires 0 <= k < to - from => RequestAt(from + k, issued))
  }

  function AnswersFrom(from: nat, to: nat, issued: seq<Round>): (r: seq<Answer>)
    requires from <= to
    ensures |r| == to - from
  {
    seq(to - from, k requires 0 <= k < to - from => AnswerAt(from + k, issued))
  }

  function EndInFlight(c: Client, p: int, x: Party): seq<Request>
    requires p in {0, 1} && |c.endSent| == 2
  {
    if c.endSent[p] && x.pc < 7 then [EndRequest(c.localStep)] else []
  }

  function EndedInFlight(c: Client, p: int, x: Party): seq<Answer>
    requires p in {0, 1} && |c.endGot| == 2
  {
    if x.pc == 8 && !c.endGot[p] then [Ended(c.localStep, c.localStep)] else []
  }

  ghost predicate Side(c: Client, p: int, x: Party, down: Link<Request>, up: Link<Answer>)
    requires p in {0, 1} && |c.sent| == |c.got| == |c.endSent| == |c.endGot| == 2
  {
    && PartyInvariant(c, p, x)
    && Carries(down, RequestsFrom(Received(x), c.sent[p], c.issued) + EndInFlight(c, p, x))
    && Carries(up, AnswersFrom(c.got[p], Replied(x), c.issued) + EndedInFlight(c, p, x))
  }

  ghost predicate Invariant(s: State) {
    && Shaped(s) && ClientInvariant(s.client)
    && Side(s.client, 0, s.parties[0], s.down[0], s.up[0])
    && Side(s.client, 1, s.parties[1], s.down[1], s.up[1])
  }

  lemma {:induction false} BothSides(s: State, p: int)
    requires p in {0, 1}
    ensures Invariant(s) <==>
      && Shaped(s) && ClientInvariant(s.client)
      && Side(s.client, p, s.parties[p], s.down[p], s.up[p])
      && Side(s.client, 1 - p, s.parties[1 - p], s.down[1 - p], s.up[1 - p])
  {
    hide Side, ClientInvariant;
  }

  lemma {:induction false} NothingSent(c: Client, p: int, x: Party)
    requires p in {0, 1} && c.issued == [] && c.sent == c.got == [0, 0] && c.endSent == c.endGot == [false, false]
    requires x == Party(0, 0, x.current, [], {}, true)
    ensures Side(c, p, x, Link([], false), Link([], false))
  {
    hide RequestAt, AnswerAt;
  }

  lemma {:induction false} InitiallyInvariant()
    ensures Invariant(Initial())
  {
    hide Side;
    var s := Initial();
    NothingSent(s.client, 0, s.parties[0]);
    NothingSent(s.client, 1, s.parties[1]);
  }

  // ----- slices of the schedule -----

  lemma {:induction false} RequestsExtend(from: nat, to: nat, issued: seq<Round>)
    requires from <= to
    ensures RequestsFrom(from, to + 1, issued) == RequestsFrom(from, to, issued) + [RequestAt(to, issued)]
  {
    hide RequestAt;
  }

  lemma {:induction false} RequestsAdvance(from: nat, to: nat, issued: seq<Round>)
    requires from < to
    ensures RequestsFrom(from, to, issued)[0] == RequestAt(from, issued)
    ensures RequestsFrom(from, to, issued)[1..] == RequestsFrom(from + 1, to, issued)
  {
    hide RequestAt;
  }

  lemma {:induction false} AnswersExtend(from: nat, to: nat, issued: seq<Round>)
    requires from <= to
    ensures AnswersFrom(from, to + 1, issued) == AnswersFrom(from, to, issued) + [AnswerAt(to, issued)]
  {
    hide AnswerAt;
  }

  lemma {:induction false} AnswersAdvance(from: nat, to: nat, issued: seq<Round>)
    requires from < to
    ensures AnswersFrom(from, to, issued)[0] == AnswerAt(from, issued)
    ensures AnswersFrom(from, to, issued)[1..] == AnswersFrom(from + 1, to, issued)
  {
    hide AnswerAt;
  }

  lemma {:induction false} SlicesStable(from: nat, to: nat, issued: seq<Round>, more: seq<Round>)
    requires from <= to <= 3 * |issued| && issued <= more
    ensures RequestsFrom(from, to, issued) == RequestsFrom(from, to, more)
    ensures AnswersFrom(from, to, issued) == AnswersFrom(from, to, more)
  {
    forall k | from <= k < to
      ensures RequestAt(k, issued) == RequestAt(k, more) && AnswerAt(k, issued) == AnswerAt(k, more)
    {
      assert k / 3 < |issued|;
    }
  }

  // ----- the client's steps -----

  lemma {:induction false} RepliesBehind(c: Client, p: int, x: Party)
    requires p in {0, 1} && ClientInvariant(c) && PartyInvariant(c, p, x)
    ensures c.got[p] <= Replied(x) <= Received(x) <= c.sent[p] <= 3 * |c.issued|
    ensures x.pc == 8 ==> c.endSent[p]
  {
  }

  /** A side whose counters are untouched; the step number matters to it only once the end was sent. */
  lemma {:induction false} OtherSide(c: Client, d: Client, p: int, x: Party, down: Link<Request>, up: Link<Answer>)
    requires p in {0, 1} && ClientInvariant(c) && Side(c, p, x, down, up)
    requires |d.sent| == |d.got| == |d.endSent| == |d.endGot| == 2
    requires d.sent[p] == c.sent[p] && d.got[p] == c.got[p]
    requires d.endSent[p] == c.endSent[p] && d.endGot[p] == c.endGot[p]
    requires c.issued <= d.issued && (d.localStep == c.localStep || !c.endSent[p])
    ensures Side(d, p, x, down, up)
  {
    RepliesBehind(c, p, x);
    SlicesStable(Received(x), c.sent[p], c.issued, d.issued);
    SlicesStable(c.got[p], Replied(x), c.issued, d.issued);
    SpentStable(c.issued, d.issued, Taken(x));
    hide RequestsFrom, AnswersFrom, SpentBy, Carries, Counters;
  }

  lemma {:induction false} SentRequest(c: Client, d: Client, p: int, x: Party, down: Link<Request>, up: Link<Answer>)
    requires p in {0, 1} && ClientInvariant(c) && Side(c, p, x, down, up) && !c.endSent[p]
    requires |d.sent| == |d.got| == |d.endSent| == |d.endGot| == 2
    requires d.sent[p] == c.sent[p] + 1 && d.got[p] == c.got[p] && d.issued == c.issued
    requires d.endSent[p] == c.endSent[p] && d.endGot[p] == c.endGot[p]
    ensures Side(d, p, x, down.Push(RequestAt(c.sent[p], c.issued)), up)
  {
    RepliesBehind(c, p, x);
    RequestsExtend(Received(x), c.sent[p], c.issued);
    hide RequestsFrom, AnswersFrom, SpentBy, Carries, Counters, RequestAt;
    var expected := RequestsFrom(Received(x), c.sent[p], c.issued);
    assert expected + [] == expected;
    Pushed(down, expected, RequestAt(c.sent[p], c.issued));
    assert RequestsFrom(Received(x), d.sent[p], d.issued) + [] == expected + [RequestAt(c.sent[p], c.issued)];
  }

  lemma {:induction false} GotAnswer(c: Client, d: Client, p: int, x: Party, down: Link<Request>, up: Link<Answer>)
    requires p in {0, 1} && ClientInvariant(c) && Side(c, p, x, down, up) && !c.endSent[p] && up.queue != []
    requires |d.sent| == |d.got| == |d.endSent| == |d.endGot| == 2
    requires d.got[p] == c.got[p] + 1 && d.sent[p] == c.sent[p] && d.issued == c.issued
    requires d.endSent[p] == c.endSent[p] && d.endGot[p] == c.endGot[p]
    ensures up.queue[0] == AnswerAt(c.got[p], c.issued) && Side(d, p, x, down, up.Pop())
    ensures c.got[p] + 1 <= Replied(x)
  {
    RepliesBehind(c, p, x);
    hide RequestsFrom, SpentBy, Carries, Counters, AnswerAt;
    var expected := AnswersFrom(c.got[p], Replied(x), c.issued);
    assert expected + [] == expected;
    Popped(up, expected);
    AnswersAdvance(c.got[p], Replied(x), c.issued);
    hide AnswersFrom;
    assert expected[1..] + [] == expected[1..];
  }

  lemma {:induction false} SentEnd(c: Client, d: Client, p: int, x: Party, down: Link<Request>, up: Link<Answer>)
    requires p in {0, 1} && ClientInvariant(c) && Side(c, p, x, down, up) && !c.endSent[p]
    requires |d.sent| == |d.got| == |d.endSent| == |d.endGot| == 2
    requires d.got[p] == c.got[p] && d.sent[p] == c.sent[p] && d.issued == c.issued && d.localStep == c.localStep
    requires d.endSent[p] && d.endGot[p] == c.endGot[p]
    ensures Side(d, p, x, down.Push(EndRequest(c.localStep)), up)
  {
    hide RequestsFrom, AnswersFrom, SpentBy, Carries, Counters;
    var expected := RequestsFrom(Received(x), c.sent[p], c.issued);
    assert expected + [] == expected;
    Pushed(down, expected, EndRequest(c.localStep));
  }

  lemma {:induction false} GotEnded(c: Client, d: Client, p: int, x: Party, down: Link<Request>, up: Link<Answer>)
    requires p in {0, 1} && ClientInvariant(c) && Side(c, p, x, down, up) && up.queue != []
    requires c.endSent[p] && !c.endGot[p]
    requires |d.sent| == |d.got| == |d.endSent| == |d.endGot| == 2
    requires d.got[p] == c.got[p] && d.sent[p] == c.sent[p] && d.issued == c.issued && d.localStep == c.localStep
    requires d.endSent[p] && d.endGot[p]
    ensures up.queue[0] == Ended(c.localStep, c.localStep) && Side(d, p, x, down, up.Pop())
  {
    RepliesBehind(c, p, x);
    assert Replied(x) == c.got[p];
    var expected := AnswersFrom(c.got[p], Replied(x), c.issued) + EndedInFlight(c, p, x);
    hide RequestsFrom, SpentBy, Carries, Counters, AnswerAt;
    Popped(up, expected);
    assert expected[1..] == [] && AnswersFrom(c.got[p], Replied(x), c.issued) + [] == [];
  }

  lemma {:induction false} StartKeeps(s: State, nonce: nat, ids: seq<nat>)
    requires Invariant(s) && s.client.phase == Idle
    ensures Invariant(s.(client := Start(s.client, nonce, ids)))
  {
    hide Side;
    var c := s.client;
    var d := Start(c, nonce, ids);
    if d.phase == InRound {
      FreshRound(c.issued, Round(c.localStep, nonce, ids));
    }
    hide Fresh, SpentBy, Distinct, IdSet;
    OtherSide(c, d, 0, s.parties[0], s.down[0], s.up[0]);
    OtherSide(c, d, 1, s.parties[1], s.down[1], s.up[1]);
  }

  lemma {:induction false} PhaseKeeps(s: State, d: Client)
    requires Invariant(s) && d == s.client.(phase := d.phase, pc := d.pc)
    requires d.phase == Failed || (s.client.phase == Idle && d.phase == Ending && d.pc == 0)
    ensures Invariant(s.(client := d))
  {
    hide Side, Fresh, SpentBy;
    OtherSide(s.client, d, 0, s.parties[0], s.down[0], s.up[0]);
    OtherSide(s.client, d, 1, s.parties[1], s.down[1], s.up[1]);
  }

  /** The client's counters after a step of a round, wherever in the round it is. */
  lemma {:induction false} SendCounts(c: Client)
    requires ClientInvariant(c) && c.phase == InRound && Sending(c.pc)
    ensures var p := Partner(c.pc);
      && c.sent[p] == 3 * c.localStep + c.pc / 4
      && ClientInvariant(NextInRound(c.(sent := c.sent[p := c.sent[p] + 1])))
  {
    hide Fresh, SpentBy;
  }

  lemma {:induction false} ReceiveCounts(c: Client)
    requires ClientInvariant(c) && c.phase == InRound && !Sending(c.pc)
    ensures var p := Partner(c.pc);
      && c.got[p] == 3 * c.localStep + c.pc / 4
      && ClientInvariant(NextInRound(c.(got := c.got[p := c.got[p] + 1])))
  {
    hide Fresh, SpentBy;
  }

  lemma {:induction false} EndCounts(c: Client)
    requires ClientInvariant(c) && c.phase == Ending
    ensures var p := Partner(c.pc);
      && c.endSent[p] == !Sending(c.pc) && !c.endGot[p]
      && (Sending(c.pc) ==> ClientInvariant(c.(pc := c.pc + 1, endSent := c.endSent[p := true])))
      && (!Sending(c.pc) ==>
            ClientInvariant(c.(pc := c.pc + 1, endGot := c.endGot[p := true], receipts := c.receipts + [c.localStep],
                               phase := if c.pc == 3 then Finished else Ending)))
  {
    hide Fresh, SpentBy;
  }

  lemma {:induction false} SendKeeps(s: State)
    requires Invariant(s) && s.client.phase == InRound && Sending(s.client.pc) && s.client.pc < 12
    ensures Invariant(ClientStep(s)) && ClientStep(s).client.phase != Failed
  {
    hide Invariant, Side, ClientInvariant, RequestAt;
    var p := Partner(s.client.pc);
    BothSides(s, p);
    var c, t := s.client, ClientStep(s);
    BothSides(t, p);
    NoEndYet(c);
    SendCounts(c);
    SentRequest(c, t.client, p, s.parties[p], s.down[p], s.up[p]);
    OtherSide(c, t.client, 1 - p, s.parties[1 - p], s.down[1 - p], s.up[1 - p]);
  }

  lemma {:induction false} ReceiveKeeps(s: State)
    requires Invariant(s) && Enabled(s, ClientActs) && s.client.phase == InRound && !Sending(s.client.pc)
    ensures Invariant(ClientStep(s)) && ClientStep(s).client.phase != Failed
  {
    hide Invariant, Side, ClientInvariant, AnswerAt;
    var p := Partner(s.client.pc);
    BothSides(s, p);
    var c, t := s.client, ClientStep(s);
    BothSides(t, p);
    NoEndYet(c);
    ReceiveCounts(c);
    GotAnswer(c, NextInRound(c.(got := c.got[p := c.got[p] + 1])), p, s.parties[p], s.down[p], s.up[p]);
    OtherSide(c, t.client, 1 - p, s.parties[1 - p], s.down[1 - p], s.up[1 - p]);
  }

  lemma {:induction false} NoEndYet(c: Client)
    requires ClientInvariant(c) && c.phase == InRound
    ensures !c.endSent[0] && !c.endSent[1]
  {
  }

  lemma {:induction false} EndStepKeeps(s: State)
    requires Invariant(s) && Enabled(s, ClientActs) && s.client.phase == Ending
    ensures Invariant(ClientStep(s)) && ClientStep(s).client.phase != Failed
  {
    hide Invariant, Side, ClientInvariant;
    var p := Partner(s.client.pc);
    BothSides(s, p);
    var c, t := s.client, ClientStep(s);
    BothSides(t, p);
    EndCounts(c);
    if Sending(c.pc) {
      SentEnd(c, t.client, p, s.parties[p], s.down[p], s.up[p]);
    } else {
      var d := c.(pc := c.pc + 1, endGot := c.endGot[p := true], receipts := c.receipts + [c.localStep],
                  phase := if c.pc == 3 then Finished else Ending);
      GotEnded(c, d, p, s.parties[p], s.down[p], s.up[p]);
    }
    OtherSide(c, t.client, 1 - p, s.parties[1 - p], s.down[1 - p], s.up[1 - p]);
  }

  // ----- the parties' steps -----

  lemma {:induction false} TakenScheduled(c: Client, p: int, x: Party, down: Link<Request>, up: Link<Answer>)
    requires p in {0, 1} && ClientInvariant(c) && Side(c, p, x, down, up) && down.queue != [] && x.pc in {0, 2, 4}
    requires Received(x) < c.sent[p]
    ensures down.queue[0] == RequestAt(Received(x), c.issued)
    ensures Side(c, p, Take(x, down.queue[0]), down.Pop(), up) && Take(x, down.queue[0]).alive == x.alive
  {
    hide ClientInvariant, RequestsFrom, AnswersFrom, Carries, RequestAt, Take;
    PartyOfSide(c, p, x, down, up);
    var from, to := Received(x), c.sent[p];
    var rest := EndInFlight(c, p, x);
    Popped(down, RequestsFrom(from, to, c.issued) + rest);
    RequestsAdvance(from, to, c.issued);
    TakesScheduled(c, p, x);
    hide PartyInvariant;
    assert (RequestsFrom(from, to, c.issued) + rest)[1..] == RequestsFrom(from + 1, to, c.issued) + rest;
  }

  lemma {:induction false} TakenEnd(c: Client, p: int, x: Party, down: Link<Request>, up: Link<Answer>)
    requires p in {0, 1} && ClientInvariant(c) && Side(c, p, x, down, up) && down.queue != [] && x.pc in {0, 2, 4}
    requires Received(x) == c.sent[p]
    ensures down.queue[0] == EndRequest(c.localStep) && x.pc == 0 && |x.log| == c.localStep
    ensures Side(c, p, x.(pc := 7), down.Pop(), up)
  {
    hide ClientInvariant, RequestsFrom, AnswersFrom, Carries, RequestAt;
    PartyOfSide(c, p, x, down, up);
    var expected := RequestsFrom(Received(x), c.sent[p], c.issued) + EndInFlight(c, p, x);
    Popped(down, expected);
    EndIsDue(c, p, x);
    hide PartyInvariant;
    assert expected == [EndRequest(c.localStep)];
    assert RequestsFrom(Received(x), c.sent[p], c.issued) + [] == expected[1..];
  }

  /** The request at the head of the link is always the one the party is ready for. */
  lemma {:induction false} TakenRequest(c: Client, p: int, x: Party, down: Link<Request>, up: Link<Answer>)
    requires p in {0, 1} && ClientInvariant(c) && Side(c, p, x, down, up) && down.queue != [] && x.pc in {0, 2, 4}
    ensures Side(c, p, Take(x, down.queue[0]), down.Pop(), up) && Take(x, down.queue[0]).alive == x.alive
  {
    PartyOfSide(c, p, x, down, up);
    hide ClientInvariant, Side;
    if Received(x) < c.sent[p] {
      TakenScheduled(c, p, x, down, up);
    } else {
      TakenEnd(c, p, x, down, up);
    }
  }

  lemma {:induction false} PartyOfSide(c: Client, p: int, x: Party, down: Link<Request>, up: Link<Answer>)
    requires p in {0, 1} && ClientInvariant(c) && Side(c, p, x, down, up)
    ensures |c.sent| == |c.got| == |c.endSent| == |c.endGot| == 2
    ensures PartyInvariant(c, p, x) && Received(x) <= c.sent[p]
  {
  }

  lemma {:induction false} TakesScheduled(c: Client, p: int, x: Party)
    requires p in {0, 1} && ClientInvariant(c) && PartyInvariant(c, p, x) && x.pc in {0, 2, 4}
    requires Received(x) < c.sent[p]
    ensures var y := Take(x, RequestAt(Received(x), c.issued));
      && PartyInvariant(c, p, y) && Received(y) == Received(x) + 1 && Replied(y) == Replied(x)
      && y.alive == x.alive && y.pc < 7
  {
    if x.pc == 0 {
      SpentBefore(c.issued, x.round, x.round);
    }
    hide Counters, Distinct, IdSet;
  }

  lemma {:induction false} EndIsDue(c: Client, p: int, x: Party)
    requires p in {0, 1} && ClientInvariant(c) && PartyInvariant(c, p, x) && x.pc in {0, 2, 4}
    requires Received(x) == c.sent[p] && c.endSent[p]
    ensures x.pc == 0 && |x.log| == c.localStep && PartyInvariant(c, p, x.(pc := 7))
  {
    hide SpentBy, Fresh;
  }

  lemma {:induction false} SaysScheduled(c: Client, p: int, x: Party)
    requires p in {0, 1} && ClientInvariant(c) && PartyInvariant(c, p, x) && x.pc in {1, 3, 6}
    ensures Say(x) == AnswerAt(Replied(x), c.issued)
    ensures PartyInvariant(c, p, AfterSaying(x)) && Replied(AfterSaying(x)) == Replied(x) + 1
    ensures Received(AfterSaying(x)) == Received(x)
    ensures EndInFlight(c, p, AfterSaying(x)) == EndInFlight(c, p, x)
  {
    hide Counters, Fresh, Distinct, IdSet;
    assert c.issued[x.round].step == x.round by {
      StepsInOrder(c.issued, x.round);
    }
  }

  lemma {:induction false} StepsInOrder(issued: seq<Round>, k: nat)
    requires Fresh(issued) && k < |issued|
    ensures issued[k].step == k
  {
  }

  lemma {:induction false} Said(c: Client, p: int, x: Party, down: Link<Request>, up: Link<Answer>)
    requires p in {0, 1} && ClientInvariant(c) && Side(c, p, x, down, up) && x.pc in {1, 3, 6}
    ensures Side(c, p, AfterSaying(x), down, up.Push(Say(x)))
  {
    PartyOfSide(c, p, x, down, up);
    RepliesBehind(c, p, x);
    hide ClientInvariant, PartyInvariant, RequestsFrom, AnswersFrom, AnswerAt, Say, Carries;
    var from, to := c.got[p], Replied(x);
    SaysScheduled(c, p, x);
    AnswersExtend(from, to, c.issued);
    var expected := AnswersFrom(from, to, c.issued);
    assert expected + [] == expected && (expected + [Say(x)]) + [] == expected + [Say(x)];
    Pushed(up, expected, Say(x));
  }

  lemma {:induction false} SaidEnded(c: Client, p: int, x: Party, down: Link<Request>, up: Link<Answer>)
    requires p in {0, 1} && ClientInvariant(c) && Side(c, p, x, down, up) && x.pc == 7
    ensures Side(c, p, x.(pc := 8), down, up.Push(Say(x)))
  {
    RepliesBehind(c, p, x);
    hide RequestsFrom, AnswersFrom, Carries, Fresh, SpentBy;
    assert |x.log| == c.localStep;
    hide Counters;
    var expected := AnswersFrom(c.got[p], Replied(x), c.issued);
    assert expected + [] == expected;
    Pushed(up, expected, Say(x));
  }

  lemma {:induction false} CommitKeeps(c: Client, p: int, x: Party, down: Link<Request>, up: Link<Answer>)
    requires p in {0, 1} && ClientInvariant(c) && Side(c, p, x, down, up) && x.pc == 5
    ensures Side(c, p, x.(pc := 6, log := x.log + [x.current]), down, up)
  {
    hide RequestsFrom, AnswersFrom, Carries, Fresh, SpentBy, Counters;
  }

  /** No check of a party ever rejects what an honest client sent. */
  lemma {:induction false} PartyStepKeeps(s: State, p: int)
    requires Invariant(s) && p in {0, 1} && Enabled(s, PartyActs(p))
    ensures Invariant(PartyStep(s, p)) && PartyStep(s, p).parties[p].alive
  {
    hide Invariant, Side, ClientInvariant, Take, Say;
    BothSides(s, p);
    var c, x, t := s.client, s.parties[p], PartyStep(s, p);
    BothSides(t, p);
    if x.pc in {0, 2, 4} {
      TakenRequest(c, p, x, s.down[p], s.up[p]);
    } else if x.pc == 5 {
      CommitKeeps(c, p, x, s.down[p], s.up[p]);
    } else if x.pc == 7 {
      SaidEnded(c, p, x, s.down[p], s.up[p]);
    } else {
      Said(c, p, x, s.down[p], s.up[p]);
    }
  }

  lemma {:induction false} FaultKeepsSide(c: Client, p: int, x: Party, down: Link<Request>, up: Link<Answer>,
      x': Party, down': Link<Request>, up': Link<Answer>)
    requires p in {0, 1} && ClientInvariant(c) && Side(c, p, x, down, up)
    requires x' == x.(alive := x'.alive)
    requires down'.queue <= down.queue && (!down'.broken ==> down' == down)
    requires up'.queue <= up.queue && (!up'.broken ==> up' == up)
    ensures Side(c, p, x', down', up')
  {
    hide RequestsFrom, AnswersFrom, Fresh, SpentBy, Counters;
  }

  lemma {:induction false} FaultKeeps(s: State, a: Action)
    requires Invariant(s) && Enabled(s, a) && (a.PartyFails? || a.DownBreaks? || a.UpBreaks?)
    ensures Invariant(Apply(s, a))
  {
    hide Invariant, Side, ClientInvariant;
    var p := a.p;
    BothSides(s, p);
    var t := Apply(s, a);
    BothSides(t, p);
    FaultKeepsSide(s.client, p, s.parties[p], s.down[p], s.up[p], t.parties[p], t.down[p], t.up[p]);
  }

  lemma {:induction false} StepKeeps(s: State, a: Action)
    requires Invariant(s) && Enabled(s, a)
    ensures Invariant(Apply(s, a))
  {
    hide Invariant, ClientStep, PartyStep, Start;
    ShapeOfInvariant(s);
    if a.PartyActs? {
      PartyStepKeeps(s, a.p);
    } else if a.PartyFails? || a.DownBreaks? || a.UpBreaks? {
      FaultKeeps(s, a);
    } else if a.BeginStep? {
      StartKeeps(s, a.nonce, a.ids);
    } else if a.ClientActs? {
      if s.client.phase == Ending {
        EndStepKeeps(s);
      } else if Sending(s.client.pc) {
        SendKeeps(s);
      } else {
        ReceiveKeeps(s);
      }
    } else {
      PhaseKeeps(s, Apply(s, a).client);
    }
  }

  /** The client goes on only on the one answer that fits its place: READY and RESULT of its round, the result for as
      many products as it sent resources, a commit count one ahead of its own, an end at its own count. */
  lemma {:induction false} AnswersAreChecked(s: State)
    requires Shaped(s) && ClientInvariant(s.client) && Enabled(s, ClientActs) && !Sending(s.client.pc)
    ensures var c, t := s.client, ClientStep(s).client;
      var answer := s.up[Partner(c.pc)].queue[0];
      && (c.phase == Ending ==> (t.phase != Failed <==> answer == Ended(c.localStep, c.localStep)))
      && (c.phase == InRound ==>
            var r := c.issued[c.localStep];
            t.phase != Failed <==>
              answer == if c.pc < 4 then Ready(c.localStep, r.nonce)
                        else if c.pc < 8 then Result(c.localStep, r.nonce, |r.ids|)
                        else Committed(c.localStep, r.nonce, c.localStep + 1))
  {
    var c := s.client;
    if c.phase == InRound {
      StepsInOrder(c.issued, c.localStep);
      hide Fresh, SpentBy, Counters;
      assert (3 * c.localStep + c.pc / 4) / 3 == c.localStep && (3 * c.localStep + c.pc / 4) % 3 == c.pc / 4;
    }
  }

  /** Between rounds the client may begin a round with new resources, or the end. */
  lemma {:induction false} IdleGoesOn(s: State, nonce: nat, ids: seq<nat>)
    requires Invariant(s) && Shaped(s) && s.client.phase == Idle
    ensures Enabled(s, BeginStep(nonce, ids)) && Enabled(s, BeginEnd)
    ensures Apply(s, BeginEnd).client.phase == Ending
    ensures var t := Apply(s, BeginStep(nonce, ids)).client;
      && (t.phase == InRound <==>
           (forall i, j :: 0 <= i < j < |ids| ==> ids[i] != ids[j]) && (forall i :: i in ids ==> i !in s.client.spent))
      && (t.phase == InRound ==> t.issued == s.client.issued + [Round(s.client.localStep, nonce, ids)])
      && t.phase in {InRound, Failed}
  {
    hide Invariant;
    assert forall i :: i in ids <==> i in IdSet(ids);
  }

  // ----- what every run keeps -----

  ghost predicate IsRun(run: seq<State>, actions: seq<Action>) {
    && |run| == |actions| + 1 && run[0] == Initial()
    && forall k :: 0 <= k < |actions| ==>
         Shaped(run[k]) && Enabled(run[k], actions[k]) && run[k + 1] == Apply(run[k], actions[k])
  }

  /** Prefixes and resources: client <= party <= client + 1, equal logs as far as both go, no commit that the other
      party has not staged, no resource shared by two rounds on any side, and a finished epoch with one count. */
  ghost predicate Safe(s: State)
    requires Shaped(s)
  {
    var c, x, y := s.client, s.parties[0], s.parties[1];
    && c.localStep <= |x.log| <= c.localStep + 1 && c.localStep <= |y.log| <= c.localStep + 1
    && (x.log <= y.log || y.log <= x.log)
    && |x.log| <= Staged(y) && |y.log| <= Staged(x)
    && Fresh(c.issued) && x.log <= c.issued && y.log <= c.issued
    && x.spent <= c.spent && y.spent <= c.spent
    && (c.phase == Finished ==>
          && c.receipts == [c.localStep, c.localStep]
          && x.pc == 8 && y.pc == 8 && |x.log| == |y.log| == c.localStep)
  }

  /** Staged counts the rounds whose result was sent. */
  lemma {:induction false} StagedMeans(x: Party, k: nat)
    requires x.pc <= 8
    ensures k < Staged(x) <==> Replied(x) >= 3 * k + 2
  {
  }

  /** A party may fail at any time, and a link break at any time with any part of what it holds. */
  lemma {:induction false} FaultsAnywhere(s: State, p: int, kept: nat)
    requires Shaped(s) && p in {0, 1}
    ensures Enabled(s, PartyFails(p)) && !Apply(s, PartyFails(p)).parties[p].alive
    ensures kept <= |s.down[p].queue| ==>
      Enabled(s, DownBreaks(p, kept)) && Apply(s, DownBreaks(p, kept)).down[p] == Link(s.down[p].queue[..kept], true)
    ensures kept <= |s.up[p].queue| ==>
      Enabled(s, UpBreaks(p, kept)) && Apply(s, UpBreaks(p, kept)).up[p] == Link(s.up[p].queue[..kept], true)
    ensures s.client.phase in {Idle, InRound, Ending} ==>
      Enabled(s, ClientFails) && Apply(s, ClientFails).client == s.client.(phase := Failed)
  {
  }

  lemma {:induction false} CountsAreSafe(c: Client, p: int, x: Party, y: Party)
    requires p in {0, 1} && ClientInvariant(c) && PartyInvariant(c, p, x) && PartyInvariant(c, 1 - p, y)
    ensures c.localStep <= |x.log| <= c.localStep + 1 && |x.log| <= Staged(y)
  {
    hide Fresh, SpentBy;
  }

  lemma {:induction false} FinishedTogether(c: Client, p: int, x: Party)
    requires p in {0, 1} && ClientInvariant(c) && PartyInvariant(c, p, x) && c.phase == Finished
    ensures x.pc == 8 && |x.log| == c.localStep
  {
    hide Fresh, SpentBy;
  }

  lemma {:induction false} SpentIsBurned(c: Client, p: int, x: Party)
    requires p in {0, 1} && ClientInvariant(c) && PartyInvariant(c, p, x)
    ensures x.spent <= c.spent && x.log <= c.issued
  {
    hide Fresh, Counters;
    SpentGrows(c.issued, Taken(x), |c.issued|);
  }

  lemma {:induction false} SideIsSafe(s: State, p: int)
    requires Invariant(s) && p in {0, 1}
    ensures var c, x, y := s.client, s.parties[p], s.parties[1 - p];
      && c.localStep <= |x.log| <= c.localStep + 1 && |x.log| <= Staged(y) && x.log <= c.issued
      && x.spent <= c.spent
      && (c.phase == Finished ==> x.pc == 8 && |x.log| == c.localStep)
  {
    hide Invariant, Side, ClientInvariant, PartyInvariant;
    BothSides(s, p);
    var c, x, y := s.client, s.parties[p], s.parties[1 - p];
    PartyOfSide(c, p, x, s.down[p], s.up[p]);
    PartyOfSide(c, 1 - p, y, s.down[1 - p], s.up[1 - p]);
    CountsAreSafe(c, p, x, y);
    SpentIsBurned(c, p, x);
    if c.phase == Finished {
      FinishedTogether(c, p, x);
    }
  }

  lemma {:induction false} SpentGrows(issued: seq<Round>, m: nat, n: nat)
    requires m <= n <= |issued|
    ensures SpentBy(issued, m) <= SpentBy(issued, n)
  {
    if m < n {
      SpentGrows(issued, m, n - 1);
    }
  }

  lemma {:induction false} ShapeOfInvariant(s: State)
    requires Invariant(s)
    ensures Shaped(s) && ClientInvariant(s.client)
  {
  }

  lemma {:induction false} InvariantIsSafe(s: State)
    requires Invariant(s)
    ensures Safe(s)
  {
    hide Invariant, Staged, Fresh, SpentBy, Counters;
    ShapeOfInvariant(s);
    SideIsSafe(s, 0);
    SideIsSafe(s, 1);
    PrefixesCompare(s.parties[0].log, s.parties[1].log, s.client.issued);
  }

  lemma {:induction false} RunsAreSafe(run: seq<State>, actions: seq<Action>, k: nat)
    requires IsRun(run, actions) && k < |run|
    ensures Invariant(run[k]) && Safe(run[k])
  {
    hide Invariant, Safe, Apply, Enabled;
    if k == 0 {
      InitiallyInvariant();
    } else {
      RunsAreSafe(run, actions, k - 1);
      assert run[k] == Apply(run[k - 1], actions[k - 1]);
      StepKeeps(run[k - 1], actions[k - 1]);
    }
    InvariantIsSafe(run[k]);
  }

  // ----- progress -----

  /** The steps of a round or of the end, once begun, other than faults. */
  predicate Normal(a: Action) {
    a.ClientActs? || a.PartyActs?
  }

  predicate Healthy(s: State)
    requires Shaped(s)
  {
    forall p :: p in {0, 1} ==> s.parties[p].alive && !s.down[p].broken && !s.up[p].broken
  }

  /** With no answer on its way, a party that the client waits for can act. */
  lemma {:induction false} AwaitedActs(c: Client, p: int, x: Party, down: Link<Request>, up: Link<Answer>)
    requires p in {0, 1} && ClientInvariant(c) && Side(c, p, x, down, up) && !down.broken && !up.broken
    requires c.phase in {InRound, Ending} && !Sending(c.pc) && p == Partner(c.pc) && up.queue == []
    ensures x.pc <= 7 && (x.pc in {0, 2, 4} ==> down.queue != [])
  {
    hide Fresh, SpentBy, RequestAt, AnswerAt;
  }

  /** While a round or the end is under way and nothing has failed, some step of it is always possible. */
  lemma {:induction false} Progress(s: State) returns (a: Action)
    requires Invariant(s) && Shaped(s) && Healthy(s) && s.client.phase in {InRound, Ending}
    ensures Normal(a) && Enabled(s, a)
  {
    hide Invariant, Side, ClientInvariant;
    var c, p := s.client, Partner(s.client.pc);
    BothSides(s, p);
    PlaceInPhase(c);
    if Sending(c.pc) || s.up[p].queue != [] {
      return ClientActs;
    }
    AwaitedActs(c, p, s.parties[p], s.down[p], s.up[p]);
    return PartyActs(p);
  }

  lemma {:induction false} PlaceInPhase(c: Client)
    requires ClientInvariant(c)
    ensures (c.phase == InRound ==> c.pc < 12) && (c.phase == Ending ==> c.pc < 4)
  {
  }

  /** A party's place in the epoch: seven steps a round, then two for the end. */
  function Place(x: Party): nat {
    7 * x.round + if x.pc >= 7 then x.pc - 6 else x.pc
  }

  function PartyRemaining(c: Client, x: Party): int {
    7 * |c.issued| + (if c.phase in {Ending, Finished} then 2 else 0) - Place(x)
  }

  function ClientRemaining(c: Client): int {
    if c.phase == InRound then 12 - c.pc else if c.phase == Ending then 4 - c.pc else 0
  }

  /** Steps still to be taken before the round, or the end, is over on all sides. */
  function Remaining(s: State): int
    requires Shaped(s)
  {
    ClientRemaining(s.client) + PartyRemaining(s.client, s.parties[0]) + PartyRemaining(s.client, s.parties[1])
  }

  lemma {:induction false} PartyRoom(c: Client, p: int, x: Party)
    requires p in {0, 1} && ClientInvariant(c) && PartyInvariant(c, p, x) && c.phase != Failed
    ensures 0 <= PartyRemaining(c, x) <= if c.phase == InRound then 7 else if c.phase == Idle then 0 else 2
    ensures c.phase == Idle ==> x.pc == 0 && x.log == c.issued
    ensures c.phase == Finished ==> x.log == c.issued
  {
    hide Fresh, SpentBy;
  }

  lemma {:induction false} RemainingIsBounded(s: State)
    requires Invariant(s) && s.client.phase in {Idle, InRound, Ending, Finished}
    ensures Shaped(s) && 0 <= Remaining(s)
    ensures s.client.phase == InRound ==> Remaining(s) <= 26
    ensures s.client.phase == Ending ==> Remaining(s) <= 8
    ensures forall p :: p in {0, 1} && s.client.phase in {Idle, Finished} ==> s.parties[p].log == s.client.issued
  {
    hide Side, ClientInvariant, PartyInvariant, PartyRemaining;
    var c := s.client;
    PlaceInPhase(c);
    forall p | p in {0, 1}
      ensures 0 <= PartyRemaining(c, s.parties[p]) <= if c.phase == InRound then 7 else 2
      ensures c.phase in {Idle, Finished} ==> s.parties[p].log == c.issued
    {
      PartyOfSide(c, p, s.parties[p], s.down[p], s.up[p]);
      PartyRoom(c, p, s.parties[p]);
    }
  }

  lemma {:induction false} TakingAdvances(x: Party, r: Request)
    requires x.pc in {0, 2, 4} && x.alive && Take(x, r).alive
    ensures Place(Take(x, r)) == Place(x) + 1
  {
    hide Distinct, IdSet;
  }

  lemma {:induction false} SayingAdvances(x: Party)
    requires x.pc in {1, 3, 6, 7} && x.alive
    ensures Place(AfterSaying(x)) == Place(x) + 1 && AfterSaying(x).alive
  {
  }

  /** What one step of a party does to its place and to the rest of a healthy system. */
  lemma {:induction false} PartyMoves(s: State, p: int)
    requires Shaped(s) && Healthy(s) && p in {0, 1} && Enabled(s, PartyActs(p)) && PartyStep(s, p).parties[p].alive
    ensures var t := PartyStep(s, p);
      && t.client == s.client && t.parties[1 - p] == s.parties[1 - p] && Healthy(t)
      && Place(t.parties[p]) == Place(s.parties[p]) + 1
  {
    var x := s.parties[p];
    if x.pc in {0, 2, 4} {
      TakingAdvances(x, s.down[p].queue[0]);
      hide Take, Place;
    } else if x.pc == 5 {
      hide Take, Say;
    } else {
      SayingAdvances(x);
      hide Say, AfterSaying, Place;
    }
  }

  lemma {:induction false} PartyStepCountsDown(s: State, p: int)
    requires Invariant(s) && Shaped(s) && Healthy(s) && p in {0, 1} && Enabled(s, PartyActs(p))
    ensures var t := PartyStep(s, p); Remaining(t) == Remaining(s) - 1 && Healthy(t) && t.client == s.client
  {
    hide Invariant, PartyStep, Place, Healthy;
    PartyStepKeeps(s, p);
    PartyMoves(s, p);
  }

  /** The same for the client: its place in the phase it is in, and nothing else but its links. */
  lemma {:induction false} ClientMoves(s: State)
    requires Shaped(s) && Healthy(s) && Enabled(s, ClientActs) && ClientStep(s).client.phase != Failed
    ensures var c, t := s.client, ClientStep(s);
      && t.parties == s.parties && Healthy(t) && t.client.issued == c.issued
      && ClientRemaining(t.client) == ClientRemaining(c) - 1 && UnderWay(c, t.client)
  {
    hide AnswerAt, RequestAt;
  }

  lemma {:induction false} ClientStepSucceeds(s: State)
    requires Invariant(s) && Shaped(s) && Enabled(s, ClientActs)
    ensures ClientStep(s).client.phase != Failed
  {
    hide ClientStep, Invariant;
    ClientEnabled(s);
    if s.client.phase == Ending {
      EndStepKeeps(s);
    } else if Sending(s.client.pc) {
      SendKeeps(s);
    } else {
      ReceiveKeeps(s);
    }
  }

  lemma {:induction false} ClientStepCountsDown(s: State)
    requires Invariant(s) && Shaped(s) && Healthy(s) && Enabled(s, ClientActs)
    ensures var t := ClientStep(s); Remaining(t) == Remaining(s) - 1 && Healthy(t) && UnderWay(s.client, t.client)
  {
    hide Invariant, ClientStep, Healthy, PartyRemaining, ClientRemaining, UnderWay, Enabled;
    var c, d := s.client, ClientStep(s).client;
    ClientStepSucceeds(s);
    ClientMoves(s);
    ClientEnabled(s);
    PartyStillOwes(c, d, s.parties[0]);
    PartyStillOwes(c, d, s.parties[1]);
  }

  lemma {:induction false} PartyStillOwes(c: Client, d: Client, x: Party)
    requires c.phase in {InRound, Ending} && UnderWay(c, d) && d.issued == c.issued
    ensures PartyRemaining(d, x) == PartyRemaining(c, x)
  {
  }

  /** Where a round or an end that began in c may have got to. */
  ghost predicate UnderWay(c: Client, d: Client) {
    if c.phase == InRound then
      (d.phase == InRound && d.localStep == c.localStep) || (d.phase == Idle && d.localStep == c.localStep + 1)
    else d.phase in {Ending, Finished} && d.localStep == c.localStep
  }

  ghost predicate Steps(run: seq<State>, actions: seq<Action>) {
    && |run| == |actions| + 1
    && forall k :: 0 <= k < |actions| ==>
         && Shaped(run[k]) && Enabled(run[k], actions[k]) && run[k + 1] == Apply(run[k], actions[k])
         && Normal(actions[k])
  }

  lemma {:induction false} HealthyRun(run: seq<State>, actions: seq<Action>, k: nat)
    requires Steps(run, actions) && Invariant(run[0]) && Shaped(run[0]) && Healthy(run[0]) && k < |run|
    requires run[0].client.phase in {InRound, Ending}
    ensures Invariant(run[k]) && Shaped(run[k]) && Healthy(run[k]) && Remaining(run[k]) == Remaining(run[0]) - k
    ensures UnderWay(run[0].client, run[k].client)
  {
    hide Invariant, Healthy, Enabled, Remaining, ClientStep, PartyStep;
    if k > 0 {
      HealthyRun(run, actions, k - 1);
      var s, a := run[k - 1], actions[k - 1];
      assert run[k] == Apply(s, a);
      StepKeeps(s, a);
      if a.PartyActs? {
        PartyEnabled(s, a);
        PartyStepCountsDown(s, a.p);
      } else {
        ClientStepCountsDown(s);
        ClientEnabled(s);
      }
    }
  }

  lemma {:induction false} PartyEnabled(s: State, a: Action)
    requires Shaped(s) && Enabled(s, a) && a.PartyActs?
    ensures a.p in {0, 1}
  {
  }

  lemma {:induction false} ClientEnabled(s: State)
    requires Shaped(s) && Enabled(s, ClientActs)
    ensures s.client.phase in {InRound, Ending}
  {
  }

  /** Every way of running a round, or the end, without faults is over within a fixed number of steps: the round in
      one more step that all three hold, the end in two receipts for the same prefix. */
  lemma {:induction false} RoundsAndEndsComplete(run: seq<State>, actions: seq<Action>)
    requires Steps(run, actions) && Invariant(run[0]) && Shaped(run[0]) && Healthy(run[0])
    requires run[0].client.phase in {InRound, Ending}
    ensures |actions| <= if run[0].client.phase == InRound then 26 else 8
    ensures var c, t := run[0].client, run[|actions|];
      Shaped(t) && ((forall a :: Normal(a) ==> !Enabled(t, a)) ==>
        && t.client.phase == (if c.phase == InRound then Idle else Finished)
        && t.client.localStep == c.localStep + (if c.phase == InRound then 1 else 0)
        && t.parties[0].log == t.parties[1].log == t.client.issued && |t.client.issued| == t.client.localStep
        && (c.phase == Ending ==> t.client.receipts == [c.localStep, c.localStep]))
  {
    var t := run[|actions|];
    HealthyRun(run, actions, |actions|);
    RemainingIsBounded(t);
    RemainingIsBounded(run[0]);
    ShapeOfInvariant(t);
    hide Invariant, Healthy, Remaining;
    if t.client.phase in {InRound, Ending} {
      var a := Progress(t);
      assert Normal(a) && Enabled(t, a);
    }
  }

  // ----- what the checks alone guarantee -----

  /** The rounds a party has taken material for: those it committed, and the one in progress. */
  function TakenRounds(x: Party): seq<Round> {
    if 1 <= x.pc <= 5 then x.log + [x.current] else x.log
  }

  /** A party's own record: its rounds are numbered 0, 1, 2, ... and no resource was ever spent twice. */
  ghost predicate OwnRecord(x: Party) {
    Fresh(TakenRounds(x)) && x.spent == SpentBy(TakenRounds(x), |TakenRounds(x)|)
  }

  lemma {:induction false} TakeIsChecked(x: Party, r: Request)
    requires OwnRecord(x) && x.pc in {0, 2, 4}
    ensures OwnRecord(Take(x, r))
  {
    if x.pc == 0 && r.Material? && Take(x, r).pc == 1 {
      FreshRound(x.log, r.round);
    }
    hide Fresh, SpentBy, Distinct, IdSet;
  }

  lemma {:induction false} ResourcesAreChecked(s: State, p: int)
    requires Shaped(s) && p in {0, 1} && Enabled(s, PartyActs(p)) && OwnRecord(s.parties[p])
    ensures OwnRecord(PartyStep(s, p).parties[p]) && PartyStep(s, p).parties[1 - p] == s.parties[1 - p]
    ensures PartyStep(s, p).client == s.client
  {
    var x := s.parties[p];
    if x.pc in {0, 2, 4} {
      TakeIsChecked(x, s.down[p].queue[0]);
      hide OwnRecord, Take;
    } else {
      hide Fresh, SpentBy, Say;
    }
  }

  lemma {:induction false} IssuedStaysFresh(s: State, a: Action)
    requires Shaped(s) && Enabled(s, a) && ClientInvariant(s.client)
    ensures ClientInvariant(Apply(s, a).client)
  {
    var c := s.client;
    if a.BeginStep? {
      if Distinct(a.ids) && IdSet(a.ids) !! c.spent {
        FreshRound(c.issued, Round(c.localStep, a.nonce, a.ids));
      }
      hide Fresh, SpentBy, Distinct, IdSet, ClientStep, PartyStep;
    } else if a.ClientActs? {
      ClientStepCounts(s);
      hide ClientInvariant, ClientStep;
    } else if a.PartyActs? {
      hide ClientInvariant, Take, Say;
    } else {
      hide Fresh, SpentBy, ClientStep, PartyStep;
    }
  }

  lemma {:induction false} ClientStepCounts(s: State)
    requires Shaped(s) && Enabled(s, ClientActs) && ClientInvariant(s.client)
    ensures ClientInvariant(ClientStep(s).client)
  {
    hide ClientInvariant, AnswerAt, RequestAt, NextInRound;
    var c := s.client;
    FailingKeepsCounts(c);
    if c.phase == Ending {
      EndCounts(c);
    } else if Sending(c.pc) {
      SendCounts(c);
    } else {
      ReceiveCounts(c);
    }
  }

  lemma {:induction false} FailingKeepsCounts(c: Client)
    requires ClientInvariant(c)
    ensures ClientInvariant(c.(phase := Failed))
  {
    hide Fresh, SpentBy;
  }

  /** A step of the system, or any change whatsoever to what the links carry. */
  ghost predicate TamperedStep(s: State, a: Action, t: State) {
    && Shaped(s) && Shaped(t)
    && ((Enabled(s, a) && t == Apply(s, a)) || (t.client == s.client && t.parties == s.parties))
  }

  ghost predicate IsTamperedRun(run: seq<State>, actions: seq<Action>) {
    && |run| == |actions| + 1 && run[0] == Initial()
    && forall k :: 0 <= k < |actions| ==> TamperedStep(run[k], actions[k], run[k + 1])
  }

  /** Whatever the links carry, no side ever spends a resource twice or takes a step out of order. */
  lemma {:induction false} ResourcesNeverReused(run: seq<State>, actions: seq<Action>, k: nat)
    requires IsTamperedRun(run, actions) && k < |run|
    ensures Shaped(run[k]) && OwnRecord(run[k].parties[0]) && OwnRecord(run[k].parties[1])
    ensures Fresh(run[k].client.issued) && ClientInvariant(run[k].client)
  {
    hide ClientInvariant, OwnRecord, Fresh, Apply, Enabled, Initial;
    if k == 0 {
      InitialRecords();
    } else {
      ResourcesNeverReused(run, actions, k - 1);
      var s, a := run[k - 1], actions[k - 1];
      assert TamperedStep(s, a, run[k]);
      if Enabled(s, a) && run[k] == Apply(s, a) {
        IssuedStaysFresh(s, a);
        PartiesAreChecked(s, a);
      }
    }
    FreshOf(run[k].client);
  }

  lemma {:induction false} InitialRecords()
    ensures var s := Initial();
      && Shaped(s) && ClientInvariant(s.client) && OwnRecord(s.parties[0]) && OwnRecord(s.parties[1])
  {
    InitiallyInvariant();
    ShapeOfInvariant(Initial());
    hide Invariant, ClientInvariant;
  }

  lemma {:induction false} FreshOf(c: Client)
    requires ClientInvariant(c)
    ensures Fresh(c.issued)
  {
  }

  lemma {:induction false} PartiesAreChecked(s: State, a: Action)
    requires Shaped(s) && Enabled(s, a) && OwnRecord(s.parties[0]) && OwnRecord(s.parties[1])
    ensures OwnRecord(Apply(s, a).parties[0]) && OwnRecord(Apply(s, a).parties[1])
  {
    if a.PartyActs? {
      ResourcesAreChecked(s, a.p);
      hide OwnRecord, PartyStep;
    } else if a.PartyFails? {
      FailingChangesNothing(s.parties[a.p]);
      hide OwnRecord;
    } else {
      hide OwnRecord, ClientStep;
      ClientLeavesParties(s, a);
    }
  }

  lemma {:induction false} ClientLeavesParties(s: State, a: Action)
    requires Shaped(s) && Enabled(s, a) && !a.PartyActs? && !a.PartyFails?
    ensures Apply(s, a).parties == s.parties
  {
    hide Start, NextInRound, RequestAt, AnswerAt;
  }

  lemma {:induction false} FailingChangesNothing(x: Party)
    requires OwnRecord(x)
    ensures OwnRecord(x.(alive := false))
  {
  }
}
