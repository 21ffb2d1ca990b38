/** The three-party ready-exchange commit: one client and two parties over FIFO links that may break, nodes that may
    fail at any point. A message that is in flight is delayed until some later step takes it. */
module ReadyCommit {
  import opened Links

  datatype Permit = Permit(step: nat, nonce: nat, confirmedBefore: nat)

  datatype Body = Prefix(step: nat) | Suffix(permit: Permit) | Truncations(permit: Permit) | Ready(permit: Permit)
  datatype Message = Message(sequence: nat, body: Body)
  datatype Reply = Reply(party: int, permit: Permit, committed: nat)

  // One party's round: 0 send prefix, 1 receive prefix, 2 receive permit, 3 send suffix, 4 receive suffix,
  // 5 truncations (party 1 sends, party 0 receives), 6 send READY, 7 receive READY, 8 commit, 9 reply.
  // The log holds the committed permits, readies the READY bodies taken from the peer.
  datatype Party = Party(round: nat, pc: nat, current: Permit, log: seq<Permit>, readies: seq<Body>,
                         sendSequence: nat, receiveSequence: nat, alive: bool)

  datatype Phase = Running | RoundInFlight | AwaitingPlant | Failed | FailedAfterCommit | Uncertain

  datatype Client = Client(phase: Phase, stop: bool, roundStarted: bool, issued: seq<Permit>, sent: seq<nat>,
                           got: seq<nat>, acks: seq<seq<Reply>>, double: nat, confirmed: nat)

  datatype State = State(client: Client, parties: seq<Party>, requests: seq<Link<Permit>>,
                         replies: seq<Link<Reply>>, peer: seq<Link<Message>>)

  datatype Wire = Requests | Replies | Peers

  datatype Action =
    | Begin(nonce: nat)
    | SendPermit(p: int)
    | AcceptReply(p: int)
    | OutputReconstructed
    | ConfirmApplied
    | RequestStop
    | ClientFails
    | PartyActs(p: int)
    | PartyFails(p: int)
    | LinkBreaks(wire: Wire, p: int, kept: nat)

  predicate Shaped(s: State) {
    && |s.parties| == |s.requests| == |s.replies| == |s.peer| == 2
    && |s.client.sent| == |s.client.got| == |s.client.acks| == 2
  }

  function Initial(): State {
    var x := Party(0, 0, Permit(0, 0, 0), [], [], 1, 1, true);
    State(Client(Running, false, false, [], [0, 0], [0, 0], [[], []], 0, 0), [x, x],
          [Link([], false), Link([], false)], [Link([], false), Link([], false)], [Link([], false), Link([], false)])
  }

  predicate Sends(p: int, pc: nat) {
    pc == 0 || pc == 3 || pc == 6 || (pc == 5 && p == 1)
  }

  predicate Receives(p: int, pc: nat) {
    pc == 1 || pc == 4 || pc == 7 || (pc == 5 && p == 0)
  }

  /** What the party sends, or what it is waiting for, at its place in the round. */
  function Due(x: Party): Body {
    if x.pc <= 1 then Prefix(x.round)
    else if x.pc <= 4 then Suffix(x.current)
    else if x.pc == 5 then Truncations(x.current)
    else Ready(x.current)
  }

  predicate Enabled(s: State, a: Action)
    requires Shaped(s)
  {
    var c := s.client;
    match a
    case Begin(_) => c.phase == Running && !c.stop
    case SendPermit(p) => p in {0, 1} && c.phase == RoundInFlight && c.sent[p] < |c.issued|
    case AcceptReply(p) =>
      && p in {0, 1} && c.phase == RoundInFlight && c.sent[0] == c.sent[1] == |c.issued|
      && c.got[p] < |c.issued| && s.replies[p].queue != []
    case OutputReconstructed => c.phase == RoundInFlight && c.double == |c.issued|
    case ConfirmApplied => c.phase == AwaitingPlant
    case RequestStop => true
    case ClientFails => c.phase in {Running, RoundInFlight, AwaitingPlant}
    case PartyActs(p) =>
      && p in {0, 1} && s.parties[p].alive
      && (s.parties[p].pc == 2 ==> s.requests[p].queue != [])
      && (Receives(p, s.parties[p].pc) ==> s.peer[1 - p].queue != [])
    case PartyFails(p) => p in {0, 1}
    case LinkBreaks(wire, p, kept) =>
      && p in {0, 1}
      && kept <= (match wire
                  case Requests => |s.requests[p].queue|
                  case Replies => |s.replies[p].queue|
                  case Peers => |s.peer[p].queue|)
  }

  function FailedPhase(c: Client): Phase {
    if c.phase != RoundInFlight then Failed
    else if c.double > c.confirmed then FailedAfterCommit
    else if c.roundStarted then Uncertain
    else Failed
  }

  function Took(x: Party, body: Body): Party {
    x.(pc := x.pc + 1, receiveSequence := x.receiveSequence + 1,
       readies := if x.pc == 7 then x.readies + [body] else x.readies)
  }

  /** A party answers a bad permit or a bad peer message by failing; a good one moves it on. */
  function PartyStep(s: State, p: int): State
    requires Shaped(s) && p in {0, 1} && Enabled(s, PartyActs(p))
  {
    var x := s.parties[p];
    if x.pc == 2 then
      var permit := s.requests[p].queue[0];
      var ok := permit.step == |x.log| && permit.confirmedBefore == |x.log|;
      s.(requests := s.requests[p := s.requests[p].Pop()],
         parties := s.parties[p := if ok then x.(current := permit, pc := 3) else x.(alive := false)])
    else if Receives(p, x.pc) then
      var ok := s.peer[1 - p].queue[0] == Message(x.receiveSequence, Due(x));
      s.(peer := s.peer[1 - p := s.peer[1 - p].Pop()],
         parties := s.parties[p := if ok then Took(x, s.peer[1 - p].queue[0].body) else x.(alive := false)])
    else if Sends(p, x.pc) then
      s.(peer := s.peer[p := s.peer[p].Push(Message(x.sendSequence, Due(x)))],
         parties := s.parties[p := x.(pc := x.pc + 1, sendSequence := x.sendSequence + 1)])
    else if x.pc == 8 then
      s.(parties := s.parties[p := x.(pc := 9, log := x.log + [x.current])])
    else
      s.(replies := s.replies[p := s.replies[p].Push(Reply(p, x.current, |x.log|))],
         parties := s.parties[p := x.(pc := 0, round := x.round + 1)])
  }

  function Acknowledged(c: Client, p: int, reply: Reply): Client
    requires p in {0, 1} && |c.got| == |c.acks| == 2
  {
    var got := c.got[p := |c.issued|];
    c.(got := got, acks := c.acks[p := c.acks[p] + [reply]],
       double := if got[0] == got[1] == |c.issued| then c.double + 1 else c.double)
  }

  /** The second validated reply records the double commit before anything else is looked at. */
  function TakeReply(s: State, p: int): State
    requires Shaped(s) && p in {0, 1} && Enabled(s, AcceptReply(p))
  {
    var c := s.client;
    var good := s.replies[p].queue[0] == Reply(p, c.issued[|c.issued| - 1], |c.issued|);
    s.(replies := s.replies[p := s.replies[p].Pop()],
       client := if good then Acknowledged(c, p, s.replies[p].queue[0]) else c.(phase := FailedPhase(c)))
  }

  function Apply(s: State, a: Action): (t: State)
    requires Shaped(s) && Enabled(s, a)
    ensures Shaped(t)
  {
    var c := s.client;
    match a
    case Begin(nonce) =>
      s.(client := c.(phase := RoundInFlight, roundStarted := false,
                      issued := c.issued + [Permit(c.double, nonce, c.double)]))
    case SendPermit(p) =>
      s.(client := c.(sent := c.sent[p := |c.issued|], roundStarted := true),
         requests := s.requests[p := s.requests[p].Push(c.issued[|c.issued| - 1])])
    case AcceptReply(p) => TakeReply(s, p)
    case OutputReconstructed => s.(client := c.(phase := AwaitingPlant))
    case ConfirmApplied => s.(client := c.(phase := Running, confirmed := c.confirmed + 1))
    case RequestStop => s.(client := c.(stop := true))
    case ClientFails => s.(client := c.(phase := FailedPhase(c)))
    case PartyActs(p) => PartyStep(s, p)
    case PartyFails(p) => s.(parties := s.parties[p := s.parties[p].(alive := false)])
    case LinkBreaks(Requests, p, kept) => s.(requests := s.requests[p := s.requests[p].Cut(kept)])
    case LinkBreaks(Replies, p, kept) => s.(replies := s.replies[p := s.replies[p].Cut(kept)])
    case LinkBreaks(Peers, p, kept) => s.(peer := s.peer[p := s.peer[p].Cut(kept)])
  }

  // ----- what each link carries -----

  function Sent(p: int, x: Party): nat {
    if p == 0 then 3 * x.round + (if x.pc > 6 then 3 else if x.pc > 3 then 2 else if x.pc > 0 then 1 else 0)
    else
      4 * x.round + (if x.pc > 6 then 4 else if x.pc > 5 then 3 else if x.pc > 3 then 2 else if x.pc > 0 then 1 else 0)
  }

  function Received(p: int, x: Party): nat {
    if p == 0 then
      4 * x.round + (if x.pc > 7 then 4 else if x.pc > 5 then 3 else if x.pc > 4 then 2 else if x.pc > 1 then 1 else 0)
    else 3 * x.round + (if x.pc > 7 then 3 else if x.pc > 4 then 2 else if x.pc > 1 then 1 else 0)
  }

  function PermitAt(issued: seq<Permit>, k: nat): Permit {
    if k < |issued| then issued[k] else Permit(k, 0, k)
  }

  /** The k-th message of party p in any run: its sequence number, its kind and its permit are all determined. */
  function Scheduled(p: int, k: nat, issued: seq<Permit>): Message {
    var step, kind := if p == 0 then k / 3 else k / 4, if p == 0 then k % 3 else k % 4;
    var permit := PermitAt(issued, step);
    Message(k + 1,
      if kind == 0 then Prefix(step)
      else if kind == 1 then Suffix(permit)
      else if p == 1 && kind == 2 then Truncations(permit)
      else Ready(permit))
  }

  function Schedule(p: int, from: nat, to: nat, issued: seq<Permit>): (r: seq<Message>)
    requires from <= to
    ensures |r| == to - from
  {
    seq(to - from, k requires 0 <= k < to - from => Scheduled(p, from + k, issued))
  }

  function RepliesFrom(p: int, from: nat, to: nat, issued: seq<Permit>): (r: seq<Reply>)
    requires from <= to <= |issued|
    ensures |r| == to - from
  {
    seq(to - from, k requires 0 <= k < to - from => Reply(p, issued[from + k], from + k + 1))
  }

  // ----- the invariant -----

  function PermitsTaken(x: Party): nat {
    if x.pc > 2 then x.round + 1 else x.round
  }

  /** The number of steps this party has staged, that is, sent READY for. */
  function Staged(x: Party): nat {
    if x.pc > 6 then x.round + 1 else x.round
  }

  ghost predicate ClientInvariant(c: Client) {
    && |c.sent| == |c.got| == 2
    && c.confirmed <= c.double <= |c.issued| <= c.confirmed + 1
    && (forall k :: 0 <= k < |c.issued| ==> c.issued[k].step == k && c.issued[k].confirmedBefore == k)
    && (forall p :: p in {0, 1} ==> c.double <= c.got[p] <= c.sent[p] <= |c.issued| <= c.sent[p] + 1)
    && (c.got[0] == c.got[1] == |c.issued| ==> c.double == |c.issued|)
    && (c.phase == Running ==> |c.issued| == c.confirmed)
    && (c.phase == RoundInFlight ==> |c.issued| == c.confirmed + 1)
    && (c.phase == AwaitingPlant ==> c.double == c.confirmed + 1)
    && (c.phase == FailedAfterCommit ==> c.double == c.confirmed + 1)
    && (c.phase == Uncertain ==> c.double == c.confirmed && |c.issued| == c.confirmed + 1 && SomePermitSent(c))
    && (c.phase == RoundInFlight ==> (c.roundStarted <==> SomePermitSent(c)))
    && (c.phase == Failed && |c.issued| > c.double ==> !SomePermitSent(c))
  }

  /** A permit of the last round issued was handed to the link of at least one party. */
  predicate SomePermitSent(c: Client)
    requires |c.sent| == 2
  {
    c.sent[0] == |c.issued| || c.sent[1] == |c.issued|
  }

  /** A party has committed exactly the permits the client issued, in order, as far as it got. */
  ghost predicate PartyInvariant(c: Client, p: int, x: Party)
    requires p in {0, 1} && |c.sent| == |c.got| == 2
  {
    && x.pc <= 9 && |x.log| == (if x.pc == 9 then x.round + 1 else x.round)
    && PermitsTaken(x) <= c.sent[p] <= |c.issued| && x.log <= c.issued
    && (x.pc > 2 ==> x.current == c.issued[x.round])
    && c.got[p] <= x.round
    && x.sendSequence == Sent(p, x) + 1 && x.receiveSequence == Received(p, x) + 1
  }

  /** Party p, the permits on their way to it, the replies it has sent and the messages on their way to its peer y. */
  ghost predicate WireInvariant(c: Client, p: int, x: Party, y: Party,
      requests: Link<Permit>, replies: Link<Reply>, peer: Link<Message>)
    requires p in {0, 1} && |c.sent| == |c.got| == 2
  {
    && PartyInvariant(c, p, x)
    && Carries(requests, c.issued[PermitsTaken(x)..c.sent[p]])
    && Carries(replies, RepliesFrom(p, c.got[p], x.round, c.issued))
    && Received(1 - p, y) <= Sent(p, x)
    && Carries(peer, Schedule(p, Received(1 - p, y), Sent(p, x), c.issued))
  }

  ghost predicate Invariant(s: State) {
    && Shaped(s) && ClientInvariant(s.client)
    && WireInvariant(s.client, 0, s.parties[0], s.parties[1], s.requests[0], s.replies[0], s.peer[0])
    && WireInvariant(s.client, 1, s.parties[1], s.parties[0], s.requests[1], s.replies[1], s.peer[1])
  }

  lemma {:induction false} InitiallyInvariant()
    ensures Invariant(Initial())
  {
    hide WireInvariant;
    var s := Initial();
    NothingSent(s.client, 0, s.parties[0]);
    NothingSent(s.client, 1, s.parties[1]);
  }

  lemma {:induction false} NothingSent(c: Client, p: int, x: Party)
    requires p in {0, 1} && c.issued == [] && c.sent == c.got == [0, 0]
    requires x == Party(0, 0, x.current, [], [], 1, 1, true)
    ensures WireInvariant(c, p, x, x, Link([], false), Link([], false), Link([], false))
  {
    hide RepliesFrom, Schedule;
  }

  // ----- links -----

  lemma {:induction false} ScheduleExtends(p: int, from: nat, to: nat, issued: seq<Permit>)
    requires from <= to
    ensures Schedule(p, from, to + 1, issued) == Schedule(p, from, to, issued) + [Scheduled(p, to, issued)]
  {
  }

  lemma {:induction false} ScheduleAdvances(p: int, from: nat, to: nat, issued: seq<Permit>)
    requires from < to
    ensures Schedule(p, from, to, issued)[0] == Scheduled(p, from, issued)
    ensures Schedule(p, from, to, issued)[1..] == Schedule(p, from + 1, to, issued)
  {
  }

  /** What is already under way does not depend on permits issued later. */
  lemma {:induction false} ScheduleStable(p: int, from: nat, x: Party, issued: seq<Permit>, more: seq<Permit>)
    requires p in {0, 1} && x.pc <= 9 && PermitsTaken(x) <= |issued| && issued <= more && from <= Sent(p, x)
    ensures Schedule(p, from, Sent(p, x), issued) == Schedule(p, from, Sent(p, x), more)
  {
    forall k | from <= k < Sent(p, x)
      ensures Scheduled(p, k, issued) == Scheduled(p, k, more)
    {
    }
  }

  /** At its place in the round a party sends exactly the scheduled message. */
  lemma {:induction false} DueIsScheduled(p: int, x: Party, issued: seq<Permit>)
    requires p in {0, 1} && x.pc <= 9 && (x.pc > 2 ==> x.round < |issued| && x.current == issued[x.round])
    ensures Sends(p, x.pc) ==> Message(Sent(p, x) + 1, Due(x)) == Scheduled(p, Sent(p, x), issued)
    ensures Receives(p, x.pc) ==> Message(Received(p, x) + 1, Due(x)) == Scheduled(1 - p, Received(p, x), issued)
  {
  }

  // ----- each step keeps the invariant -----

  lemma {:induction false} BeginKeepsWire(c: Client, d: Client, p: int, x: Party, y: Party,
      requests: Link<Permit>, replies: Link<Reply>, peer: Link<Message>)
    requires p in {0, 1} && ClientInvariant(c) && WireInvariant(c, p, x, y, requests, replies, peer)
    requires d.sent == c.sent && d.got == c.got && c.issued <= d.issued
    ensures WireInvariant(d, p, x, y, requests, replies, peer)
  {
    ScheduleStable(p, Received(1 - p, y), x, c.issued, d.issued);
    hide Schedule, Scheduled, Carries;
    assert c.issued[PermitsTaken(x)..c.sent[p]] == d.issued[PermitsTaken(x)..c.sent[p]];
    assert RepliesFrom(p, c.got[p], x.round, c.issued) == RepliesFrom(p, c.got[p], x.round, d.issued);
  }

  lemma {:induction false} PermitSent(c: Client, p: int, x: Party, y: Party,
      requests: Link<Permit>, replies: Link<Reply>, peer: Link<Message>)
    requires p in {0, 1} && ClientInvariant(c) && WireInvariant(c, p, x, y, requests, replies, peer)
    requires c.sent[p] < |c.issued|
    ensures WireInvariant(c.(sent := c.sent[p := |c.issued|], roundStarted := true), p, x, y,
                          requests.Push(c.issued[|c.issued| - 1]), replies, peer)
  {
    hide Schedule, RepliesFrom, Carries;
    var expected := c.issued[PermitsTaken(x)..c.sent[p]];
    assert c.issued[PermitsTaken(x)..|c.issued|] == expected + [c.issued[|c.issued| - 1]];
    Pushed(requests, expected, c.issued[|c.issued| - 1]);
  }

  /** The reply at the head of the link is always the one the client expects. */
  lemma {:induction false} ReplyIsExpected(c: Client, p: int, x: Party, y: Party,
      requests: Link<Permit>, replies: Link<Reply>, peer: Link<Message>)
    requires p in {0, 1} && ClientInvariant(c) && WireInvariant(c, p, x, y, requests, replies, peer)
    requires c.got[p] < |c.issued| && replies.queue != []
    requires c.got[p] + 1 == |c.issued|
    ensures replies.queue[0] == Reply(p, c.issued[|c.issued| - 1], |c.issued|)
    ensures forall d: Client :: d == c.(got := c.got[p := |c.issued|], acks := d.acks, double := d.double) ==>
      WireInvariant(d, p, x, y, requests, replies.Pop(), peer)
  {
    hide Schedule, Carries;
    var expected := RepliesFrom(p, c.got[p], x.round, c.issued);
    Popped(replies, expected);
    assert expected[1..] == RepliesFrom(p, c.got[p] + 1, x.round, c.issued);
  }

  /** The client's own account of a round is unaffected by everything a party or a link does. */
  lemma {:induction false} OtherWire(c: Client, d: Client, p: int, x: Party, y: Party,
      requests: Link<Permit>, replies: Link<Reply>, peer: Link<Message>)
    requires p in {0, 1} && ClientInvariant(c) && WireInvariant(c, p, x, y, requests, replies, peer)
    requires |d.sent| == |d.got| == 2 && d.sent[p] == c.sent[p] && d.got[p] == c.got[p] && d.issued == c.issued
    ensures WireInvariant(d, p, x, y, requests, replies, peer)
  {
  }

  lemma {:induction false} SendPermitKeeps(s: State, p: int)
    requires Invariant(s) && p in {0, 1} && Enabled(s, SendPermit(p))
    ensures Invariant(Apply(s, SendPermit(p)))
  {
    hide Invariant, WireInvariant, ClientInvariant;
    BothWires(s, p);
    var c, x, y, t := s.client, s.parties[p], s.parties[1 - p], Apply(s, SendPermit(p));
    BothWires(t, p);
    SentIsWithin(c, p);
    PermitSent(c, p, x, y, s.requests[p], s.replies[p], s.peer[p]);
    OtherWire(c, t.client, 1 - p, y, x, s.requests[1 - p], s.replies[1 - p], s.peer[1 - p]);
  }

  lemma {:induction false} SentIsWithin(c: Client, p: int)
    requires ClientInvariant(c) && p in {0, 1} && c.phase == RoundInFlight
    ensures ClientInvariant(c.(sent := c.sent[p := |c.issued|], roundStarted := true))
  {
  }

  lemma {:induction false} TakeReplyKeeps(s: State, p: int)
    requires Invariant(s) && p in {0, 1} && Enabled(s, AcceptReply(p))
    ensures Invariant(TakeReply(s, p))
    ensures s.replies[p].queue[0] == Reply(p, s.client.issued[|s.client.issued| - 1], |s.client.issued|)
    ensures s.client.got[p] + 1 == |s.client.issued|
  {
    hide Invariant, WireInvariant, ClientInvariant;
    BothWires(s, p);
    var c, x, y, t := s.client, s.parties[p], s.parties[1 - p], TakeReply(s, p);
    BothWires(t, p);
    GotByOne(c, p);
    ReplyIsExpected(c, p, x, y, s.requests[p], s.replies[p], s.peer[p]);
    assert t.client == c.(got := c.got[p := |c.issued|], acks := t.client.acks, double := t.client.double);
    ReplyRecorded(c, p);
    OtherWire(c, t.client, 1 - p, y, x, s.requests[1 - p], s.replies[1 - p], s.peer[1 - p]);
  }

  lemma {:induction false} ReplyRecorded(c: Client, p: int)
    requires ClientInvariant(c) && p in {0, 1} && c.phase == RoundInFlight && |c.acks| == 2
    requires c.sent[0] == c.sent[1] == |c.issued| && c.got[p] < |c.issued|
    ensures forall reply: Reply :: ClientInvariant(Acknowledged(c, p, reply))
  {
    GotByOne(c, p);
    GotByOne(c, 1 - p);
  }

  lemma {:induction false} GotByOne(c: Client, p: int)
    requires ClientInvariant(c) && p in {0, 1}
    ensures c.got[p] == |c.issued| || c.got[p] + 1 == |c.issued|
  {
  }

  lemma {:induction false} BeginKeeps(s: State, nonce: nat)
    requires Invariant(s) && Enabled(s, Begin(nonce))
    ensures Invariant(Apply(s, Begin(nonce)))
  {
    hide WireInvariant;
    var c, d, x, y := s.client, Apply(s, Begin(nonce)).client, s.parties[0], s.parties[1];
    BeginKeepsWire(c, d, 0, x, y, s.requests[0], s.replies[0], s.peer[0]);
    BeginKeepsWire(c, d, 1, y, x, s.requests[1], s.replies[1], s.peer[1]);
  }

  /** The client's other steps change only its own phase, its stop flag and its count of confirmations. */
  lemma {:induction false} PhaseStepKeeps(s: State, a: Action)
    requires Invariant(s) && Enabled(s, a)
    requires a.OutputReconstructed? || a.ConfirmApplied? || a.RequestStop? || a.ClientFails?
    ensures Invariant(Apply(s, a))
  {
    hide WireInvariant;
    var c, d, x, y := s.client, Apply(s, a).client, s.parties[0], s.parties[1];
    OtherWire(c, d, 0, x, y, s.requests[0], s.replies[0], s.peer[0]);
    OtherWire(c, d, 1, y, x, s.requests[1], s.replies[1], s.peer[1]);
  }

  /** The permit at the head of the link is always the one the party's own count asks for. */
  lemma {:induction false} PermitTaken(c: Client, p: int, x: Party, y: Party,
      requests: Link<Permit>, replies: Link<Reply>, peer: Link<Message>)
    requires p in {0, 1} && ClientInvariant(c) && WireInvariant(c, p, x, y, requests, replies, peer)
    requires x.pc == 2 && requests.queue != []
    ensures var permit := requests.queue[0];
      && permit.step == permit.confirmedBefore == |x.log|
      && WireInvariant(c, p, x.(current := permit, pc := 3), y, requests.Pop(), replies, peer)
  {
    hide Schedule, RepliesFrom, Carries;
    var expected := c.issued[x.round..c.sent[p]];
    Popped(requests, expected);
    assert expected[1..] == c.issued[x.round + 1..c.sent[p]];
  }

  lemma {:induction false} MessageSent(c: Client, p: int, x: Party, y: Party,
      requests: Link<Permit>, replies: Link<Reply>, peer: Link<Message>)
    requires p in {0, 1} && ClientInvariant(c) && WireInvariant(c, p, x, y, requests, replies, peer)
    requires Sends(p, x.pc)
    ensures WireInvariant(c, p, x.(pc := x.pc + 1, sendSequence := x.sendSequence + 1), y, requests, replies,
                          peer.Push(Message(x.sendSequence, Due(x))))
  {
    hide Schedule, RepliesFrom, Carries, Due, Scheduled;
    DueIsScheduled(p, x, c.issued);
    var from, to := Received(1 - p, y), Sent(p, x);
    var m := Message(x.sendSequence, Due(x));
    ScheduleExtends(p, from, to, c.issued);
    Pushed(peer, Schedule(p, from, to, c.issued), m);
  }

  lemma {:induction false} MessageTaken(c: Client, p: int, x: Party, y: Party,
      requests: Link<Permit>, replies: Link<Reply>, peer: Link<Message>)
    requires p in {0, 1} && ClientInvariant(c) && WireInvariant(c, p, x, y, requests, replies, peer)
    requires Receives(p, x.pc)
    ensures forall body: Body :: WireInvariant(c, p, Took(x, body), y, requests, replies, peer)
  {
    hide Schedule, Scheduled, RepliesFrom, Carries;
  }

  /** The message at the head of the peer link is always the one that is due: its sequence number, kind and permit. */
  lemma {:induction false} MessageIsExpected(c: Client, p: int, x: Party, y: Party,
      peer: Link<Message>, requests: Link<Permit>, replies: Link<Reply>)
    requires p in {0, 1} && ClientInvariant(c) && PartyInvariant(c, p, x)
    requires WireInvariant(c, 1 - p, y, x, requests, replies, peer)
    requires Receives(p, x.pc) && peer.queue != []
    ensures peer.queue[0] == Message(x.receiveSequence, Due(x))
    ensures WireInvariant(c, 1 - p, y, Took(x, peer.queue[0].body), requests, replies, peer.Pop())
  {
    hide Schedule, RepliesFrom, Carries, Due, Scheduled;
    DueIsScheduled(p, x, c.issued);
    var from, to := Received(p, x), Sent(1 - p, y);
    Popped(peer, Schedule(1 - p, from, to, c.issued));
    ScheduleAdvances(1 - p, from, to, c.issued);
  }

  lemma {:induction false} PeerUnmoved(c: Client, p: int, x: Party, y: Party, y': Party,
      requests: Link<Permit>, replies: Link<Reply>, peer: Link<Message>)
    requires p in {0, 1} && ClientInvariant(c) && WireInvariant(c, p, x, y, requests, replies, peer)
    requires Received(1 - p, y') == Received(1 - p, y)
    ensures WireInvariant(c, p, x, y', requests, replies, peer)
  {
  }

  lemma {:induction false} CommitKeepsWire(c: Client, p: int, x: Party, y: Party,
      requests: Link<Permit>, replies: Link<Reply>, peer: Link<Message>)
    requires p in {0, 1} && ClientInvariant(c) && WireInvariant(c, p, x, y, requests, replies, peer)
    requires x.pc == 8
    ensures WireInvariant(c, p, x.(pc := 9, log := x.log + [x.current]), y, requests, replies, peer)
  {
    hide Schedule, Scheduled, RepliesFrom, Carries;
  }

  lemma {:induction false} ReplySent(c: Client, p: int, x: Party, y: Party,
      requests: Link<Permit>, replies: Link<Reply>, peer: Link<Message>)
    requires p in {0, 1} && ClientInvariant(c) && WireInvariant(c, p, x, y, requests, replies, peer)
    requires x.pc == 9
    ensures WireInvariant(c, p, x.(pc := 0, round := x.round + 1), y, requests,
                          replies.Push(Reply(p, x.current, |x.log|)), peer)
  {
    hide Schedule, Scheduled, Carries;
    var expected, m := RepliesFrom(p, c.got[p], x.round, c.issued), Reply(p, x.current, |x.log|);
    assert RepliesFrom(p, c.got[p], x.round + 1, c.issued) == expected + [m];
    hide RepliesFrom;
    Pushed(replies, expected, m);
  }

  ghost predicate WireAt(s: State, p: int)
    requires Shaped(s) && p in {0, 1}
  {
    WireInvariant(s.client, p, s.parties[p], s.parties[1 - p], s.requests[p], s.replies[p], s.peer[p])
  }

  lemma {:induction false} BothWires(s: State, p: int)
    requires p in {0, 1}
    ensures Invariant(s) <==> Shaped(s) && ClientInvariant(s.client) && WireAt(s, p) && WireAt(s, 1 - p)
  {
    hide WireInvariant, ClientInvariant;
  }

  lemma {:induction false} PartyOfWire(s: State, p: int)
    requires Shaped(s) && p in {0, 1} && WireAt(s, p)
    ensures PartyInvariant(s.client, p, s.parties[p])
  {
  }

  lemma {:induction false} PermitStep(s: State, p: int)
    requires Invariant(s) && p in {0, 1} && Enabled(s, PartyActs(p)) && s.parties[p].pc == 2
    ensures Invariant(PartyStep(s, p)) && PartyStep(s, p).parties[p].alive
  {
    hide Invariant, WireInvariant, ClientInvariant;
    BothWires(s, p);
    var c, x, y, t := s.client, s.parties[p], s.parties[1 - p], PartyStep(s, p);
    BothWires(t, p);
    PermitTaken(c, p, x, y, s.requests[p], s.replies[p], s.peer[p]);
    PeerUnmoved(c, 1 - p, y, x, t.parties[p], s.requests[1 - p], s.replies[1 - p], s.peer[1 - p]);
  }

  lemma {:induction false} ReceiveStep(s: State, p: int)
    requires Invariant(s) && p in {0, 1} && Enabled(s, PartyActs(p)) && Receives(p, s.parties[p].pc)
    ensures Invariant(PartyStep(s, p)) && PartyStep(s, p).parties[p].alive
  {
    hide Invariant, WireInvariant, ClientInvariant, PartyInvariant, Due;
    BothWires(s, p);
    var c, x, y, t := s.client, s.parties[p], s.parties[1 - p], PartyStep(s, p);
    BothWires(t, p);
    PartyOfWire(s, p);
    MessageTaken(c, p, x, y, s.requests[p], s.replies[p], s.peer[p]);
    MessageIsExpected(c, p, x, y, s.peer[1 - p], s.requests[1 - p], s.replies[1 - p]);
  }

  lemma {:induction false} SendStep(s: State, p: int)
    requires Invariant(s) && p in {0, 1} && Enabled(s, PartyActs(p)) && Sends(p, s.parties[p].pc)
    ensures Invariant(PartyStep(s, p)) && PartyStep(s, p).parties[p].alive
  {
    hide Invariant, WireInvariant, ClientInvariant, Due;
    BothWires(s, p);
    var c, x, y, t := s.client, s.parties[p], s.parties[1 - p], PartyStep(s, p);
    BothWires(t, p);
    MessageSent(c, p, x, y, s.requests[p], s.replies[p], s.peer[p]);
    PeerUnmoved(c, 1 - p, y, x, t.parties[p], s.requests[1 - p], s.replies[1 - p], s.peer[1 - p]);
  }

  lemma {:induction false} LocalStep(s: State, p: int)
    requires Invariant(s) && p in {0, 1} && Enabled(s, PartyActs(p)) && s.parties[p].pc in {8, 9}
    ensures Invariant(PartyStep(s, p)) && PartyStep(s, p).parties[p].alive
  {
    hide Invariant, WireInvariant, ClientInvariant;
    BothWires(s, p);
    var c, x, y, t := s.client, s.parties[p], s.parties[1 - p], PartyStep(s, p);
    BothWires(t, p);
    PeerUnmoved(c, 1 - p, y, x, t.parties[p], s.requests[1 - p], s.replies[1 - p], s.peer[1 - p]);
    if x.pc == 8 {
      CommitKeepsWire(c, p, x, y, s.requests[p], s.replies[p], s.peer[p]);
    } else {
      ReplySent(c, p, x, y, s.requests[p], s.replies[p], s.peer[p]);
    }
  }

  /** No check of a party ever rejects what an honest peer or client sent. */
  lemma {:induction false} PartyStepKeeps(s: State, p: int)
    requires Invariant(s) && p in {0, 1} && Enabled(s, PartyActs(p))
    ensures Invariant(PartyStep(s, p)) && PartyStep(s, p).parties[p].alive
  {
    var c, x := s.client, s.parties[p];
    BothWires(s, p);
    assert PartyInvariant(c, p, x);
    hide Invariant, PartyStep, WireInvariant, PartyInvariant;
    if x.pc == 2 {
      PermitStep(s, p);
    } else if Receives(p, x.pc) {
      ReceiveStep(s, p);
    } else if Sends(p, x.pc) {
      SendStep(s, p);
    } else {
      LastSteps(c, p, x);
      LocalStep(s, p);
    }
  }

  lemma {:induction false} LastSteps(c: Client, p: int, x: Party)
    requires p in {0, 1} && |c.sent| == |c.got| == 2 && PartyInvariant(c, p, x)
    requires x.pc != 2 && !Receives(p, x.pc) && !Sends(p, x.pc)
    ensures x.pc in {8, 9}
  {
  }

  lemma {:induction false} FaultKeeps(s: State, a: Action)
    requires Invariant(s) && Enabled(s, a) && (a.PartyFails? || a.LinkBreaks?)
    ensures Invariant(Apply(s, a))
  {
    hide Invariant, WireInvariant, ClientInvariant;
    var p := a.p;
    BothWires(s, p);
    var c, x, y, t := s.client, s.parties[p], s.parties[1 - p], Apply(s, a);
    BothWires(t, p);
    PartyOrLinkFails(c, p, x, y, s.requests[p], s.replies[p], s.peer[p],
                     t.parties[p], t.requests[p], t.replies[p], t.peer[p]);
    PeerUnmoved(c, 1 - p, y, x, t.parties[p], s.requests[1 - p], s.replies[1 - p], s.peer[1 - p]);
  }

  lemma {:induction false} PartyOrLinkFails(c: Client, p: int, x: Party, y: Party,
      requests: Link<Permit>, replies: Link<Reply>, peer: Link<Message>,
      x': Party, requests': Link<Permit>, replies': Link<Reply>, peer': Link<Message>)
    requires p in {0, 1} && ClientInvariant(c) && WireInvariant(c, p, x, y, requests, replies, peer)
    requires x' == x.(alive := x'.alive)
    requires requests'.queue <= requests.queue && (!requests'.broken ==> requests' == requests)
    requires replies'.queue <= replies.queue && (!replies'.broken ==> replies' == replies)
    requires peer'.queue <= peer.queue && (!peer'.broken ==> peer' == peer)
    ensures WireInvariant(c, p, x', y, requests', replies', peer')
  {
    hide Schedule, Scheduled, RepliesFrom;
  }

  lemma {:induction false} StepKeeps(s: State, a: Action)
    requires Invariant(s) && Enabled(s, a)
    ensures Invariant(Apply(s, a))
  {
    hide Invariant, PartyStep, TakeReply;
    if a.PartyActs? {
      PartyStepKeeps(s, a.p);
    } else if a.PartyFails? || a.LinkBreaks? {
      FaultKeeps(s, a);
    } else if a.Begin? {
      BeginKeeps(s, a.nonce);
    } else if a.SendPermit? {
      SendPermitKeeps(s, a.p);
    } else if a.AcceptReply? {
      TakeReplyKeeps(s, a.p);
    } else {
      PhaseStepKeeps(s, a);
    }
  }

  // ----- safety over whole runs -----

  /** A run from the initial state; the actions include every fault. */
  ghost predicate IsRun(run: seq<State>, actions: seq<Action>) {
    && |run| == |actions| + 1 && run[0] == Initial()
    && forall k :: 0 <= k < |actions| ==>
         Shaped(run[k]) && Enabled(run[k], actions[k]) && run[k + 1] == Apply(run[k], actions[k])
  }

  /** Double commits are committed by both, commits are at most one ahead of the plant, the two logs agree on every
      step both have, and nobody commits a step the other has not staged. Only while a round is in flight, or after
      one ended uncertain, can a party hold a step that the client has not counted. */
  ghost predicate Safe(s: State)
    requires Shaped(s)
  {
    var c, x, y := s.client, s.parties[0], s.parties[1];
    && c.double <= |x.log| <= c.confirmed + 1 && c.double <= |y.log| <= c.confirmed + 1
    && -1 <= |x.log| - |y.log| <= 1 && (x.log <= y.log || y.log <= x.log)
    && |x.log| <= Staged(y) && |y.log| <= Staged(x)
    && x.log <= c.issued && y.log <= c.issued
    && (forall k :: 0 <= k < |c.issued| ==> c.issued[k].step == k)
    && (c.phase !in {RoundInFlight, Uncertain} ==> |x.log| == |y.log| == c.double)
  }

  /** Staged counts the steps whose READY was sent: the last message of each round. */
  lemma {:induction false} StagedMeans(p: int, x: Party, k: nat)
    requires p in {0, 1} && x.pc <= 9
    ensures k < Staged(x) <==> Sent(p, x) >= (if p == 0 then 3 else 4) * (k + 1)
  {
  }

  /** A party may fail at any time, and a link break at any time with any part of what it holds. */
  lemma {:induction false} FaultsAnywhere(s: State, p: int, kept: nat)
    requires Shaped(s) && p in {0, 1}
    ensures Enabled(s, PartyFails(p)) && !Apply(s, PartyFails(p)).parties[p].alive
    ensures kept <= |s.requests[p].queue| ==>
      && Enabled(s, LinkBreaks(Requests, p, kept))
      && Apply(s, LinkBreaks(Requests, p, kept)).requests[p] == Link(s.requests[p].queue[..kept], true)
    ensures kept <= |s.replies[p].queue| ==>
      && Enabled(s, LinkBreaks(Replies, p, kept))
      && Apply(s, LinkBreaks(Replies, p, kept)).replies[p] == Link(s.replies[p].queue[..kept], true)
    ensures kept <= |s.peer[p].queue| ==>
      && Enabled(s, LinkBreaks(Peers, p, kept))
      && Apply(s, LinkBreaks(Peers, p, kept)).peer[p] == Link(s.peer[p].queue[..kept], true)
    ensures s.client.phase in {Running, RoundInFlight, AwaitingPlant} ==> Enabled(s, ClientFails)
  {
  }

  lemma {:induction false} CommitsAreStaged(s: State, p: int)
    requires Invariant(s) && p in {0, 1}
    ensures var c, x, y := s.client, s.parties[p], s.parties[1 - p];
      && c.double <= |x.log| <= c.confirmed + 1 && |x.log| <= Staged(y) && Staged(x) <= |x.log| + 1
      && x.log <= c.issued
  {
    BothWires(s, p);
    hide Carries, Schedule, Scheduled, RepliesFrom, Invariant;
  }

  lemma {:induction false} InvariantIsSafe(s: State)
    requires Invariant(s)
    ensures Safe(s)
  {
    CommitsAreStaged(s, 0);
    CommitsAreStaged(s, 1);
    hide WireInvariant, Staged;
    PrefixesCompare(s.parties[0].log, s.parties[1].log, s.client.issued);
  }

  lemma {:induction false} RunsAreSafe(run: seq<State>, actions: seq<Action>, k: nat)
    requires IsRun(run, actions) && k < |run|
    ensures Invariant(run[k]) && Safe(run[k])
  {
    hide Invariant, Safe, Apply, Enabled;
    if k == 0 {
      InitiallyInvariant();
    } else {
      RunsAreSafe(run, actions, k - 1);
      assert run[k] == Apply(run[k - 1], actions[k - 1]);
      StepKeeps(run[k - 1], actions[k - 1]);
    }
    InvariantIsSafe(run[k]);
  }

  /** What a later state may change: counts only grow, logs are only extended, and a failed client is frozen. */
  ghost predicate Extends(s: State, t: State)
    requires Shaped(s) && Shaped(t)
  {
    && s.client.double <= t.client.double && s.client.confirmed <= t.client.confirmed
    && s.client.issued <= t.client.issued
    && s.parties[0].log <= t.parties[0].log && s.parties[1].log <= t.parties[1].log
    && (s.client.phase in {Failed, FailedAfterCommit, Uncertain} ==> t.client == s.client.(stop := t.client.stop))
    && (s.client.stop ==> t.client.stop && t.client.issued == s.client.issued)
  }

  lemma {:induction false} StepExtends(s: State, a: Action)
    requires Invariant(s) && Enabled(s, a)
    ensures Extends(s, Apply(s, a))
  {
    if a.PartyActs? {
      PartyExtends(s, a.p);
      hide Invariant, PartyStep;
    } else {
      hide WireInvariant, PartyStep;
      ClientExtends(s, a);
    }
  }

  lemma {:induction false} PartyExtends(s: State, p: int)
    requires Shaped(s) && p in {0, 1} && Enabled(s, PartyActs(p))
    ensures var t := PartyStep(s, p);
      && t.client == s.client && s.parties[p].log <= t.parties[p].log && t.parties[1 - p] == s.parties[1 - p]
  {
    hide Due, Receives, Sends;
  }

  lemma {:induction false} ClientExtends(s: State, a: Action)
    requires Shaped(s) && ClientInvariant(s.client) && Enabled(s, a) && !a.PartyActs?
    ensures Extends(s, Apply(s, a))
  {
  }

  /** A recorded double commit is never undone, whatever fails afterwards; once a stop is recorded no round starts. */
  lemma {:induction false} RunsOnlyExtend(run: seq<State>, actions: seq<Action>, i: nat, j: nat)
    requires IsRun(run, actions) && i <= j < |run|
    ensures Shaped(run[i]) && Shaped(run[j]) && Extends(run[i], run[j])
    decreases j - i
  {
    hide Invariant, Safe, Apply, Enabled;
    RunsAreSafe(run, actions, i);
    RunsAreSafe(run, actions, j);
    ShapeOfInvariant(run[i]);
    ShapeOfInvariant(run[j]);
    if i < j {
      RunsOnlyExtend(run, actions, i, j - 1);
      RunsAreSafe(run, actions, j - 1);
      assert run[j] == Apply(run[j - 1], actions[j - 1]);
      StepExtends(run[j - 1], actions[j - 1]);
      ExtendsTransitive(run[i], run[j - 1], run[j]);
    }
  }

  lemma {:induction false} ShapeOfInvariant(s: State)
    requires Invariant(s)
    ensures Shaped(s)
  {
  }

  lemma {:induction false} ExtendsTransitive(s: State, t: State, u: State)
    requires Shaped(s) && Shaped(t) && Shaped(u) && Extends(s, t) && Extends(t, u)
    ensures Extends(s, u)
  {
  }

  /** The failure phase tells the truth about counts and links: FAILED_AFTER_COMMIT exactly when the round in flight
      was double committed, else UNCERTAIN exactly when a permit of it was handed to a link, FAILED exactly when none
      was. */
  lemma {:induction false} FailurePhaseIsExact(s: State, a: Action)
    requires Invariant(s) && Enabled(s, a) && s.client.phase == RoundInFlight && !a.OutputReconstructed?
    ensures var c, d, n := s.client, Apply(s, a).client, |s.client.issued|;
      d.phase != RoundInFlight ==>
        && d.issued == c.issued && d.sent == c.sent && d.double == c.double
        && (d.phase == FailedAfterCommit <==> d.double == n)
        && (d.phase == Uncertain <==> d.double < n && (d.sent[0] == n || d.sent[1] == n))
        && (d.phase == Failed <==> d.sent[0] < n && d.sent[1] < n)
  {
    assert ClientInvariant(s.client);
    hide WireInvariant, Invariant;
  }

  // ----- progress -----

  /** The steps of one round other than its start, the physical confirmation and the faults. */
  predicate Normal(a: Action) {
    a.SendPermit? || a.AcceptReply? || a.OutputReconstructed? || a.PartyActs?
  }

  predicate Healthy(s: State)
    requires Shaped(s)
  {
    forall p :: p in {0, 1} ==>
      s.parties[p].alive && !s.requests[p].broken && !s.replies[p].broken && !s.peer[p].broken
  }

  predicate Stuck(s: State, p: int)
    requires Shaped(s) && p in {0, 1}
  {
    var x := s.parties[p];
    || (x.pc == 2 && s.requests[p].queue == [])
    || (Receives(p, x.pc) && s.peer[1 - p].queue == [])
  }

  lemma {:induction false} StuckFacts(s: State, p: int)
    requires Invariant(s) && Healthy(s) && p in {0, 1} && Stuck(s, p)
    ensures var c, x, y := s.client, s.parties[p], s.parties[1 - p];
      && PartyInvariant(c, p, x)
      && (x.pc == 2 ==> x.round == c.sent[p])
      && (x.pc != 2 ==> Receives(p, x.pc) && Received(p, x) == Sent(1 - p, y))
      && |s.replies[p].queue| == x.round - c.got[p]
  {
    BothWires(s, p);
    hide Invariant, Schedule, Scheduled, RepliesFrom, Due;
  }

  /** Two stuck parties are both waiting for a permit: the exchange between them cannot block itself. */
  lemma {:induction false} BothWaitForPermits(x: Party, y: Party, c: Client)
    requires |c.sent| == |c.got| == 2 && PartyInvariant(c, 0, x) && PartyInvariant(c, 1, y)
    requires c.sent[0] == c.sent[1]
    requires x.pc == 2 ==> x.round == c.sent[0]
    requires y.pc == 2 ==> y.round == c.sent[1]
    requires x.pc != 2 ==> Receives(0, x.pc) && Received(0, x) == Sent(1, y)
    requires y.pc != 2 ==> Receives(1, y.pc) && Received(1, y) == Sent(0, x)
    ensures x.pc == y.pc == 2 && x.round == y.round == c.sent[0]
  {
  }

  /** While a round is in flight and nothing has failed, some step of the round is always possible. */
  lemma {:induction false} Progress(s: State) returns (a: Action)
    requires Invariant(s) && Shaped(s) && Healthy(s) && s.client.phase == RoundInFlight
    ensures Normal(a) && Enabled(s, a)
  {
    var c := s.client;
    assert ClientInvariant(c);
    hide Invariant, PartyInvariant, Received, Sent, ClientInvariant;
    if c.sent[0] < |c.issued| {
      return SendPermit(0);
    } else if c.sent[1] < |c.issued| {
      return SendPermit(1);
    } else if !Stuck(s, 0) {
      return PartyActs(0);
    } else if !Stuck(s, 1) {
      return PartyActs(1);
    }
    StuckFacts(s, 0);
    StuckFacts(s, 1);
    SentIsIssued(c);
    BothWaitForPermits(s.parties[0], s.parties[1], c);
    if c.double == |c.issued| {
      return OutputReconstructed;
    } else if c.got[0] < |c.issued| {
      return AcceptReply(0);
    } else {
      return AcceptReply(1);
    }
  }

  lemma {:induction false} SentIsIssued(c: Client)
    requires ClientInvariant(c) && c.sent[0] >= |c.issued| && c.sent[1] >= |c.issued|
    ensures c.sent[0] == c.sent[1] == |c.issued|
    ensures c.got[0] <= |c.issued| && c.got[1] <= |c.issued|
    ensures c.got[0] == c.got[1] == |c.issued| ==> c.double == |c.issued|
  {
  }

  function PartyRemaining(x: Party, n: nat): int {
    10 * n + 2 - 10 * x.round - x.pc
  }

  function ClientRemaining(c: Client): int
    requires |c.sent| == |c.got| == 2
  {
    var n := |c.issued|;
    (n - c.sent[0]) + (n - c.sent[1]) + (n - c.got[0]) + (n - c.got[1]) + if c.phase == RoundInFlight then 1 else 0
  }

  /** Steps still to be taken before everything issued is committed, replied to and read. */
  function Remaining(s: State): int
    requires Shaped(s)
  {
    var n := |s.client.issued|;
    PartyRemaining(s.parties[0], n) + PartyRemaining(s.parties[1], n) + ClientRemaining(s.client)
  }

  lemma {:induction false} RemainingIsNatural(s: State)
    requires Invariant(s)
    ensures Shaped(s) && Remaining(s) >= 0
  {
    hide Carries, Schedule, Scheduled, RepliesFrom;
    RoomLeft(s.client, 0, s.parties[0]);
    RoomLeft(s.client, 1, s.parties[1]);
  }

  lemma {:induction false} RoomLeft(c: Client, p: int, x: Party)
    requires p in {0, 1} && ClientInvariant(c) && PartyInvariant(c, p, x)
    ensures 10 * |c.issued| + 2 - 10 * x.round - x.pc >= 0
    ensures c.sent[p] <= |c.issued| && c.got[p] <= |c.issued|
  {
  }

  lemma {:induction false} PartyStepCountsDown(s: State, p: int)
    requires Invariant(s) && Healthy(s) && p in {0, 1} && Enabled(s, PartyActs(p))
    ensures Remaining(PartyStep(s, p)) == Remaining(s) - 1 && Healthy(PartyStep(s, p))
    ensures PartyStep(s, p).client == s.client
  {
    PartyStepKeeps(s, p);
    PartyCountsDown(s, p);
    hide Invariant;
    BothParties(s, p);
    BothParties(PartyStep(s, p), p);
    LinksStaySound(s, p);
  }

  lemma {:induction false} BothParties(s: State, p: int)
    requires Shaped(s) && p in {0, 1}
    ensures Remaining(s) == PartyRemaining(s.parties[p], |s.client.issued|)
      + PartyRemaining(s.parties[1 - p], |s.client.issued|) + ClientRemaining(s.client)
  {
  }

  lemma {:induction false} LinksStaySound(s: State, p: int)
    requires Shaped(s) && Healthy(s) && p in {0, 1} && Enabled(s, PartyActs(p)) && PartyStep(s, p).parties[p].alive
    ensures Healthy(PartyStep(s, p)) && PartyStep(s, p).parties[1 - p] == s.parties[1 - p]
    ensures PartyStep(s, p).client == s.client
  {
    var t := PartyStep(s, p);
    hide Due;
    forall i | i in {0, 1}
      ensures t.parties[i].alive && !t.requests[i].broken && !t.replies[i].broken && !t.peer[i].broken
    {
    }
  }

  lemma {:induction false} ReplyCountsDown(s: State, p: int)
    requires Invariant(s) && Healthy(s) && p in {0, 1} && Enabled(s, AcceptReply(p))
    ensures var t := TakeReply(s, p);
      Remaining(t) == Remaining(s) - 1 && Healthy(t) && t.client.phase == s.client.phase
  {
    hide Invariant, ClientInvariant, WireInvariant, PartyRemaining;
    ShapeOfInvariant(s);
    TakeReplyKeeps(s, p);
    ReplyCounted(s.client, p);
    var t := TakeReply(s, p);
    forall i | i in {0, 1}
      ensures t.parties[i].alive && !t.requests[i].broken && !t.replies[i].broken && !t.peer[i].broken
    {
      assert s.parties[i].alive && !s.requests[i].broken && !s.replies[i].broken && !s.peer[i].broken;
    }
    hide Healthy;
  }

  lemma {:induction false} ReplyCounted(c: Client, p: int)
    requires |c.sent| == |c.got| == 2 && p in {0, 1} && c.got[p] + 1 == |c.issued|
    ensures forall d: Client :: d == c.(got := c.got[p := |c.issued|], acks := d.acks, double := d.double) ==>
      ClientRemaining(d) == ClientRemaining(c) - 1
  {
  }

  lemma {:induction false} ClientCountsDown(s: State, a: Action)
    requires Invariant(s) && Healthy(s) && Enabled(s, a) && (a.SendPermit? || a.OutputReconstructed?)
    ensures Remaining(Apply(s, a)) == Remaining(s) - 1 && Healthy(Apply(s, a))
    ensures Apply(s, a).client.phase in {RoundInFlight, AwaitingPlant}
  {
    SentByOne(s.client);
    hide Invariant, ClientInvariant;
  }

  /** Every step of a round brings its end exactly one step closer. */
  lemma {:induction false} NormalStepsCountDown(s: State, a: Action)
    requires Invariant(s) && Healthy(s) && Enabled(s, a) && Normal(a)
    ensures Remaining(Apply(s, a)) == Remaining(s) - 1 && Healthy(Apply(s, a))
    ensures s.client.phase == RoundInFlight ==> Apply(s, a).client.phase in {RoundInFlight, AwaitingPlant}
    ensures s.client.phase == AwaitingPlant ==> Apply(s, a).client == s.client
  {
    hide Invariant, Healthy, Remaining, PartyStep, TakeReply;
    if a.PartyActs? {
      PartyStepCountsDown(s, a.p);
    } else if a.AcceptReply? {
      ReplyCountsDown(s, a.p);
    } else {
      ClientCountsDown(s, a);
    }
  }

  lemma {:induction false} SentByOne(c: Client)
    requires ClientInvariant(c)
    ensures c.sent[0] < |c.issued| ==> c.sent[0] + 1 == |c.issued|
    ensures c.sent[1] < |c.issued| ==> c.sent[1] + 1 == |c.issued|
  {
  }

  lemma {:induction false} PartyCountsDown(s: State, p: int)
    requires Invariant(s) && p in {0, 1} && Enabled(s, PartyActs(p)) && PartyStep(s, p).parties[p].alive
    ensures var x, x' := s.parties[p], PartyStep(s, p).parties[p];
      10 * x'.round + x'.pc == 10 * x.round + x.pc + 1
  {
    hide Invariant, WireInvariant, ClientInvariant, PartyInvariant, Due;
    BothWires(s, p);
    PartyOfWire(s, p);
    var x := s.parties[p];
    if x.pc != 2 && !Receives(p, x.pc) && !Sends(p, x.pc) {
      LastSteps(s.client, p, x);
    }
  }

  ghost predicate Steps(run: seq<State>, actions: seq<Action>) {
    && |run| == |actions| + 1
    && forall k :: 0 <= k < |actions| ==>
         && Shaped(run[k]) && Enabled(run[k], actions[k]) && run[k + 1] == Apply(run[k], actions[k])
         && Normal(actions[k])
  }

  lemma {:induction false} HealthyRun(run: seq<State>, actions: seq<Action>, k: nat)
    requires Steps(run, actions) && Invariant(run[0]) && Healthy(run[0]) && k < |run|
    requires run[0].client.phase == RoundInFlight
    ensures Invariant(run[k]) && Healthy(run[k]) && Remaining(run[k]) == Remaining(run[0]) - k
    ensures run[k].client.phase in {RoundInFlight, AwaitingPlant}
  {
    hide Invariant, Healthy, Apply, Enabled, Remaining;
    if k > 0 {
      HealthyRun(run, actions, k - 1);
      assert run[k] == Apply(run[k - 1], actions[k - 1]);
      StepKeeps(run[k - 1], actions[k - 1]);
      NormalStepsCountDown(run[k - 1], actions[k - 1]);
    }
  }

  /** Every way of running a round without faults ends, within a fixed number of steps, in a double commit. */
  lemma {:induction false} RoundsComplete(run: seq<State>, actions: seq<Action>)
    requires Steps(run, actions) && Invariant(run[0]) && Shaped(run[0]) && Healthy(run[0])
    requires run[0].client.phase == RoundInFlight
    ensures |actions| <= Remaining(run[0])
    ensures var t := run[|actions|];
      Shaped(t) && ((forall a :: Normal(a) ==> !Enabled(t, a)) ==>
        t.client.phase == AwaitingPlant && t.client.double == t.client.confirmed + 1)
  {
    var t := run[|actions|];
    HealthyRun(run, actions, |actions|);
    RemainingIsNatural(t);
    assert ClientInvariant(t.client);
    hide Invariant, Healthy, Apply, Remaining;
    if t.client.phase == RoundInFlight {
      var a := Progress(t);
      assert Normal(a) && Enabled(t, a);
    }
  }

  // ----- what the checks alone guarantee -----

  /** A party's own record: it committed steps 0, 1, 2, ... in order, each for a permit whose READY it took from the
      peer. */
  ghost predicate OwnRecord(x: Party) {
    && x.pc <= 9
    && (forall k :: 0 <= k < |x.log| ==> x.log[k].step == k && x.log[k].confirmedBefore == k)
    && |x.readies| == |x.log| + (if x.pc == 8 then 1 else 0)
    && (forall k :: 0 <= k < |x.log| ==> x.readies[k] == Ready(x.log[k]))
    && (3 <= x.pc <= 8 ==> x.current.step == |x.log| && x.current.confirmedBefore == |x.log|)
    && (x.pc == 8 ==> x.readies[|x.log|] == Ready(x.current))
  }

  /** The client's own record: one validated reply per party and step, for exactly the permit it issued. */
  ghost predicate ClientRecord(c: Client) {
    && ClientInvariant(c) && |c.acks| == 2
    && forall p :: p in {0, 1} ==>
         |c.acks[p]| == c.got[p] && forall k :: 0 <= k < |c.acks[p]| ==> c.acks[p][k] == Reply(p, c.issued[k], k + 1)
  }

  lemma {:induction false} CommitsAreChecked(s: State, p: int)
    requires Shaped(s) && p in {0, 1} && Enabled(s, PartyActs(p)) && OwnRecord(s.parties[p])
    ensures OwnRecord(PartyStep(s, p).parties[p]) && PartyStep(s, p).parties[1 - p] == s.parties[1 - p]
  {
    var x := s.parties[p];
    if Receives(p, x.pc) && s.peer[1 - p].queue[0] == Message(x.receiveSequence, Due(x)) {
      TookIsChecked(x, p);
    } else if x.pc == 8 {
      var y := x.(pc := 9, log := x.log + [x.current]);
      forall k | 0 <= k < |y.log|
        ensures y.log[k].step == k && y.log[k].confirmedBefore == k && y.readies[k] == Ready(y.log[k])
      {
        if k < |x.log| {
          assert y.log[k] == x.log[k];
        }
      }
    }
  }

  lemma {:induction false} TookIsChecked(x: Party, p: int)
    requires p in {0, 1} && OwnRecord(x) && Receives(p, x.pc)
    ensures OwnRecord(Took(x, Due(x)))
  {
    var y := Took(x, Due(x));
    forall k | 0 <= k < |x.log|
      ensures y.readies[k] == x.readies[k]
    {
    }
  }

  lemma {:induction false} RepliesAreChecked(s: State, p: int)
    requires Shaped(s) && p in {0, 1} && Enabled(s, AcceptReply(p)) && ClientRecord(s.client)
    ensures ClientRecord(TakeReply(s, p).client)
  {
    AcknowledgedRecord(s.client, p, s.replies[p].queue[0]);
    RejectedRecord(s.client);
    hide ClientRecord, ClientInvariant, Acknowledged;
  }

  lemma {:induction false} DoubleCommitsAreChecked(s: State, a: Action)
    requires Shaped(s) && Enabled(s, a) && ClientRecord(s.client)
    ensures ClientRecord(Apply(s, a).client)
  {
    hide ClientInvariant, PartyStep, TakeReply;
    if a.PartyActs? {
      PartyLeavesClient(s, a.p);
      hide ClientRecord;
    } else if a.AcceptReply? {
      RepliesAreChecked(s, a.p);
      hide ClientRecord;
    } else {
      ClientStepsOn(s, a);
      SameRecord(s.client, Apply(s, a).client);
    }
  }

  lemma {:induction false} PartyLeavesClient(s: State, p: int)
    requires Shaped(s) && p in {0, 1} && Enabled(s, PartyActs(p))
    ensures PartyStep(s, p).client == s.client
  {
  }

  lemma {:induction false} SameRecord(c: Client, d: Client)
    requires ClientRecord(c) && ClientInvariant(d) && d.acks == c.acks && d.got == c.got && c.issued <= d.issued
    ensures ClientRecord(d)
  {
  }

  lemma {:induction false} ClientStepsOn(s: State, a: Action)
    requires Shaped(s) && Enabled(s, a) && ClientInvariant(s.client)
    requires !a.AcceptReply? && !a.PartyActs?
    ensures ClientInvariant(Apply(s, a).client)
  {
    hide PartyStep, TakeReply;
    if a.SendPermit? {
      SentIsWithin(s.client, a.p);
    }
  }

  lemma {:induction false} RejectedRecord(c: Client)
    requires ClientRecord(c) && c.phase == RoundInFlight
    ensures ClientRecord(c.(phase := FailedPhase(c)))
  {
  }

  lemma {:induction false} AcknowledgedRecord(c: Client, p: int, reply: Reply)
    requires ClientRecord(c) && p in {0, 1} && c.phase == RoundInFlight && c.got[p] < |c.issued|
    requires c.sent[0] == c.sent[1] == |c.issued|
    ensures reply == Reply(p, c.issued[|c.issued| - 1], |c.issued|) ==> ClientRecord(Acknowledged(c, p, reply))
  {
    GotByOne(c, p);
    ReplyRecorded(c, p);
    hide ClientInvariant;
    var d := Acknowledged(c, p, reply);
    if reply == Reply(p, c.issued[|c.issued| - 1], |c.issued|) {
      forall k | 0 <= k < |d.acks[p]|
        ensures d.acks[p][k] == Reply(p, d.issued[k], k + 1)
      {
        if k < |c.acks[p]| {
          assert d.acks[p][k] == c.acks[p][k];
        }
      }
      assert d.acks[1 - p] == c.acks[1 - p];
    }
  }

  /** A step of the system, or any change whatsoever to what the links carry. */
  ghost predicate TamperedStep(s: State, a: Action, t: State) {
    && Shaped(s) && Shaped(t)
    && ((Enabled(s, a) && t == Apply(s, a)) || (t.client == s.client && t.parties == s.parties))
  }

  ghost predicate IsTamperedRun(run: seq<State>, actions: seq<Action>) {
    && |run| == |actions| + 1 && run[0] == Initial()
    && forall k :: 0 <= k < |actions| ==> TamperedStep(run[k], actions[k], run[k + 1])
  }

  /** Even then no party commits out of order or without the READY of the very permit it commits, and the client
      records no double commit that both parties did not report for the very permit it issued. */
  lemma {:induction false} ChecksHoldAlone(run: seq<State>, actions: seq<Action>, k: nat)
    requires IsTamperedRun(run, actions) && k < |run|
    ensures Shaped(run[k]) && OwnRecord(run[k].parties[0]) && OwnRecord(run[k].parties[1])
    ensures ClientRecord(run[k].client)
  {
    if k == 0 {
      assert Shaped(Initial());
    } else {
      hide OwnRecord, ClientRecord;
      ChecksHoldAlone(run, actions, k - 1);
      var s, a := run[k - 1], actions[k - 1];
      assert TamperedStep(s, a, run[k]);
      if Enabled(s, a) && run[k] == Apply(s, a) {
        DoubleCommitsAreChecked(s, a);
        PartiesAreChecked(s, a);
      }
    }
  }

  lemma {:induction false} PartiesAreChecked(s: State, a: Action)
    requires Shaped(s) && Enabled(s, a) && OwnRecord(s.parties[0]) && OwnRecord(s.parties[1])
    ensures OwnRecord(Apply(s, a).parties[0]) && OwnRecord(Apply(s, a).parties[1])
  {
    if a.PartyActs? {
      CommitsAreChecked(s, a.p);
      hide OwnRecord, PartyStep;
    } else if a.PartyFails? {
      FailingChangesNothing(s.parties[a.p]);
      hide OwnRecord;
    } else {
      hide OwnRecord;
    }
  }

  lemma {:induction false} FailingChangesNothing(x: Party)
    requires OwnRecord(x)
    ensures OwnRecord(x.(alive := false))
  {
  }
}
