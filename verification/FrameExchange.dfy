/** One thread exchanges one request and one reply on each of two connections, over short sends, short reads and
    would-blocks, under a deadline and a stall guard. */
module FrameExchange {
  import opened Options
  import opened Framing

  const STALL_LIMIT := 8

  datatype Fault = BadPayload | Expired | SendFailed | ReceiveFailed | Stalled | BadLength | ReplyRejected

  /** What the operating system answers to one call. */
  datatype Io = Took(n: nat) | WouldBlock | TimedOut | Broken

  datatype Moved = Moved(count: nat) | Nothing | Fails

  datatype Notice = Uncertain(p: int) | Sent(p: int)
  datatype Reply = Reply(p: int, body: seq<Byte>)

  /** A connection: what went out, what the peer will have sent, how much of that was read; io answers each call. */
  class Connection {
    const inbound: seq<Byte>
    const io: nat -> Io
    var calls: nat
    var wire: seq<Byte>
    var taken: nat

    ghost predicate Valid()
      reads this
    {
      taken <= |inbound|
    }

    constructor (inbound: seq<Byte>, io: nat -> Io)
      ensures Valid() && wire == [] && taken == 0 && this.inbound == inbound && this.io == io && calls == 0
    {
      this.inbound, this.io := inbound, io;
      calls, wire, taken := 0, [], 0;
    }

    /** Accepts some prefix of the data, possibly nothing. */
    method Send(data: seq<Byte>) returns (r: Moved)
      requires Valid()
      modifies `calls, `wire
      ensures calls == old(calls) + 1 && r == Outcome(io(old(calls)), |data|)
      ensures wire == old(wire) + if r.Moved? then data[..r.count] else []
    {
      var answer := io(calls);
      calls := calls + 1;
      match answer
      case Took(n) =>
        var count := if n <= |data| then n else |data|;
        wire := wire + data[..count];
        return Moved(count);
      case WouldBlock => return Nothing;
      case TimedOut => return Fails;
      case Broken => return Fails;
    }

    /** Delivers at most `room` further bytes of the peer's stream; zero bytes mean it was closed. */
    method Recv(room: nat) returns (r: Moved, chunk: seq<Byte>)
      requires Valid()
      modifies `calls, `taken
      ensures Valid() && calls == old(calls) + 1
      ensures r == Outcome(io(old(calls)), old(if room <= |inbound| - taken then room else |inbound| - taken))
      ensures taken == old(taken) + (if r.Moved? then r.count else 0) && chunk == inbound[old(taken)..taken]
    {
      chunk := [];
      var answer := io(calls);
      calls := calls + 1;
      match answer
      case Took(n) =>
        var most := if n <= room then n else room;
        var count := if most <= |inbound| - taken then most else |inbound| - taken;
        chunk := inbound[taken..taken + count];
        taken := taken + count;
        return Moved(count), chunk;
      case WouldBlock => return Nothing, [];
      case TimedOut => return Fails, [];
      case Broken => return Fails, [];
    }
  }

  /** A call moves what the system grants, up to what there is room or data for. */
  ghost function Outcome(answer: Io, most: nat): (r: Moved)
    ensures r.Moved? ==> r.count <= most
  {
    match answer
    case Took(n) => Moved(if n <= most then n else most)
    case WouldBlock => Nothing
    case TimedOut => Fails
    case Broken => Fails
  }

  /** The answers that end an exchange by themselves. */
  ghost predicate Refused(answer: Io) {
    answer in {TimedOut, Broken, Took(0)}
  }

  /** The last `count` calls on this connection would all have blocked. */
  ghost predicate Blocked(c: Connection, count: nat)
    reads c
  {
    count <= c.calls && forall k :: c.calls - count <= k < c.calls ==> c.io(k) == WouldBlock
  }

  /** Every call since the first `from` was answered without refusal. */
  ghost predicate Answered(c: Connection, from: nat)
    reads c
  {
    from <= c.calls && forall k :: from <= k < c.calls ==> !Refused(c.io(k))
  }

  /** The peer's stream ends before its first frame does. */
  ghost predicate Short(inbound: seq<Byte>) {
    |inbound| < 4 || |inbound| < 4 + BigEndian(inbound[..4])
  }

  /** How many passes at the end moved nothing. */
  ghost function Trailing(passes: seq<bool>): nat {
    if passes == [] || passes[|passes| - 1] then 0 else 1 + Trailing(passes[..|passes| - 1])
  }

  /** How many passes moved nothing. */
  ghost function Stalls(passes: seq<bool>): nat {
    if passes == [] then 0 else Stalls(passes[..|passes| - 1]) + if passes[|passes| - 1] then 0 else 1
  }

  /** Never eight passes in a row without a byte. */
  ghost predicate Flowing(passes: seq<bool>) {
    forall k :: 0 <= k <= |passes| ==> Trailing(passes[..k]) < 8
  }

  lemma {:induction false} NoPasses()
    ensures Flowing([]) && Trailing([]) == Stalls([]) == 0
  {
  }

  lemma {:induction false} OnePass(passes: seq<bool>, moved: bool)
    requires Flowing(passes)
    ensures Trailing(passes + [moved]) == if moved then 0 else Trailing(passes) + 1
    ensures Trailing(passes + [moved]) < 8 ==> Flowing(passes + [moved])
    ensures Stalls(passes + [moved]) == Stalls(passes) + if moved then 0 else 1
  {
    var more := passes + [moved];
    assert more[..|passes|] == passes;
    forall k | 0 <= k <= |more|
      ensures Trailing(more) < 8 ==> Trailing(more[..k]) < 8
    {
      if k <= |passes| {
        assert more[..k] == passes[..k];
      } else {
        assert more[..k] == more;
      }
    }
  }

  /** The first frame of a peer's stream, as far as it has been read. */
  ghost predicate WithinFrame(inbound: seq<Byte>, taken: nat) {
    taken <= |inbound| && (taken > 4 ==> taken <= 4 + BigEndian(inbound[..4]))
  }

  /** Side p was announced once if it was tried, and reported sent once if it is done. */
  ghost predicate Noted(notices: seq<Notice>, p: int, tried: bool, done: bool) {
    && multiset(notices)[Uncertain(p)] == (if tried then 1 else 0)
    && multiset(notices)[Sent(p)] == (if done then 1 else 0)
  }

  lemma {:induction false} OneNotice(notices: seq<Notice>, n: Notice, p: int, tried: bool, done: bool)
    requires Noted(notices, p, tried, done)
    ensures n.p != p ==> Noted(notices + [n], p, tried, done)
    ensures n == Uncertain(p) && !tried ==> Noted(notices + [n], p, true, done)
    ensures n == Sent(p) && !done ==> Noted(notices + [n], p, tried, true)
  {
  }

  lemma {:induction false} TriedIsNoted(notices: seq<Notice>, p: int, done: bool)
    requires Noted(notices, p, true, done)
    ensures Uncertain(p) in notices
  {
  }

  /** The callback of side p ran not at all, or once, on the whole body of the frame that was read. */
  ghost predicate DeliveredOnce(inbound: seq<Byte>, taken: nat, p: int, replies: seq<Reply>) {
    || Filter(replies, p) == []
    || (4 <= taken <= |inbound| && taken == 4 + BigEndian(inbound[..4])
        && Filter(replies, p) == [Reply(p, inbound[4..taken])])
  }

  class Exchange {
    const links: seq<Connection>
    const payloads: seq<seq<Byte>>
    const limit: nat
    const expired: nat -> bool
    const accepts: Reply -> bool
    var ticks: nat
    var outgoing: seq<seq<Byte>>
    var incoming: seq<seq<Byte>>
    var targets: seq<nat>
    var headers: seq<bool>
    var complete: seq<bool>
    var attempted: seq<bool>
    var notices: seq<Notice>
    var replies: seq<Reply>
    const from: seq<nat>
    ghost var sendPasses: seq<bool>
    ghost var readPasses: seq<bool>

    ghost predicate Shaped()
      reads `outgoing, `incoming, `targets, `headers, `complete, `attempted
    {
      && |links| == |payloads| == |outgoing| == |incoming| == |targets| == 2
      && |headers| == |complete| == |attempted| == |from| == 2
      && links[0] != links[1] && limit < 0x1_0000_0000
      && forall p :: p in {0, 1} ==> 0 < |payloads[p]| <= limit
    }

    /** Side p while requests go out: sent and unsent bytes make up the request, and nothing has been read. */
    ghost predicate Sending(p: int)
      requires p in {0, 1}
      reads `outgoing, `incoming, `targets, `headers, `complete, `attempted, `notices, links
    {
      && Shaped() && links[p].Valid() && links[p].taken == 0
      && links[p].wire + outgoing[p] == Frame(payloads[p])
      && (links[p].wire != [] ==> attempted[p])
      && Noted(notices, p, attempted[p], outgoing[p] == [])
      && incoming[p] == [] && targets[p] == 4 && !headers[p] && !complete[p]
    }

    /** Side p while replies come in: the request is out, and what was read is a prefix of one frame. */
    ghost predicate Reading(p: int)
      requires p in {0, 1}
      reads `outgoing, `incoming, `targets, `headers, `complete, `attempted, `notices, links
    {
      && Shaped() && links[p].Valid() && links[p].wire == Frame(payloads[p]) && outgoing[p] == []
      && Noted(notices, p, true, true)
      && (!headers[p] ==>
            && !complete[p] && targets[p] == 4 && links[p].taken <= 4
            && incoming[p] == links[p].inbound[..links[p].taken])
      && (headers[p] ==>
            && 4 <= links[p].taken && targets[p] == BigEndian(links[p].inbound[..4]) && 0 < targets[p] <= limit
            && incoming[p] == links[p].inbound[4..links[p].taken] && links[p].taken <= 4 + targets[p]
            && (complete[p] ==> links[p].taken == 4 + targets[p]))
    }

    /** Between attempts no header and no body is left complete but unhandled. */
    ghost predicate Receiving(p: int)
      requires p in {0, 1}
      reads `outgoing, `incoming, `targets, `headers, `complete, `attempted, `notices, `replies, links
    {
      && Reading(p) && Reported(p)
      && (!headers[p] ==> links[p].taken < 4)
      && (headers[p] && !complete[p] ==> links[p].taken < 4 + targets[p])
    }

    // ----- what the system and the clock answered -----

    /** So far no deadline was seen to expire and no call was refused. */
    ghost predicate Smooth()
      reads `ticks, links
    {
      && |links| == |from| == 2 && (forall t :: 0 <= t < ticks ==> !expired(t))
      && Answered(links[0], from[0]) && Answered(links[1], from[1])
    }

    /** The last look at the clock was too late. */
    ghost predicate Late()
      reads `ticks
    {
      ticks > 0 && expired(ticks - 1)
    }

    /** The last call on this connection was refused. */
    ghost predicate LastRefused(p: int)
      requires p in {0, 1} && |links| == |from| == 2
      reads links
    {
      links[p].calls > from[p] && Refused(links[p].io(links[p].calls - 1))
    }

    /** Why one attempt to send can end the exchange. */
    ghost predicate SendCause(p: int, fault: Fault)
      requires p in {0, 1} && |links| == |from| == 2
      reads `ticks, links
    {
      match fault
      case Expired => Late()
      case SendFailed => LastRefused(p)
      case _ => false
    }

    /** Why one attempt to receive can: besides, the peer's stream is too short, its header is out of range, or its
        reply was rejected. */
    ghost predicate ReadCause(p: int, fault: Fault)
      requires p in {0, 1} && |links| == |from| == 2
      reads `ticks, `replies, links
    {
      var c := links[p];
      match fault
      case Expired => Late()
      case ReceiveFailed => LastRefused(p) || (c.taken == |c.inbound| && Short(c.inbound))
      case BadLength => |c.inbound| >= 4 && !(0 < BigEndian(c.inbound[..4]) <= limit)
      case ReplyRejected => replies != [] && replies[|replies| - 1].p == p && !accepts(replies[|replies| - 1])
      case _ => false
    }

    /** Eight passes in a row moved nothing: the last eight calls on every unfinished side would have blocked. */
    ghost predicate StallCause()
      requires |links| == |outgoing| == |complete| == 2
      reads `outgoing, `complete, `sendPasses, `readPasses, links
    {
      && Trailing(if outgoing[0] != [] || outgoing[1] != [] then sendPasses else readPasses) == 8
      && (outgoing[0] != [] || outgoing[1] != [] || !complete[0] || !complete[1])
      && forall p :: p in {0, 1} ==>
           (outgoing[p] != [] || (outgoing[1 - p] == [] && !complete[p])) ==> Blocked(links[p], 8)
    }

    ghost function RepliesOf(p: int): seq<Reply>
      reads `replies
    {
      Filter(replies, p)
    }

    /** Each finished side has been reported exactly once, with exactly the body of its peer's frame. */
    ghost predicate Reported(p: int)
      requires p in {0, 1} && Reading(p)
      reads `outgoing, `incoming, `targets, `headers, `complete, `attempted, `notices, `replies, links
    {
      && RepliesOf(p) == (if complete[p] then [Reply(p, links[p].inbound[4..links[p].taken])] else [])
      && (complete[p] ==> accepts(Reply(p, links[p].inbound[4..links[p].taken])))
    }

    /** At any exit the reply callback has run at most once, and only on a whole frame body. */
    ghost predicate Delivered(p: int)
      requires p in {0, 1}
      reads `outgoing, `incoming, `targets, `headers, `complete, `attempted, `notices, `replies, links
    {
      Shaped() && links[p].Valid() && DeliveredOnce(links[p].inbound, links[p].taken, p, replies)
    }

    /** Whatever happens: what went out is a prefix of the request, nothing is read before both requests are out, and
        nothing is read past the first frame. */
    ghost predicate Bounded()
      reads `outgoing, `incoming, `targets, `headers, `complete, `attempted, `notices, links
    {
      && Shaped() && links[0].Valid() && links[1].Valid()
      && (forall p :: p in {0, 1} ==> links[p].wire <= Frame(payloads[p]))
      && (forall p :: p in {0, 1} && links[p].wire != [] ==> Uncertain(p) in notices)
      && (links[0].taken + links[1].taken > 0 ==>
            links[0].wire == Frame(payloads[0]) && links[1].wire == Frame(payloads[1]))
      && (forall p :: p in {0, 1} ==> WithinFrame(links[p].inbound, links[p].taken))
    }

    constructor (l0: Connection, l1: Connection, payloads: seq<seq<Byte>>, limit: nat, expired: nat -> bool,
                 accepts: Reply -> bool)
      requires l0 != l1 && l0.Valid() && l1.Valid() && l0.wire == l1.wire == [] && l0.taken == l1.taken == 0
      requires |payloads| == 2 && limit < 0x1_0000_0000
      requires forall p :: p in {0, 1} ==> 0 < |payloads[p]| <= limit
      ensures links == [l0, l1] && this.payloads == payloads && this.limit == limit && this.accepts == accepts
      ensures Sending(0) && Sending(1) && replies == [] && Smooth() && sendPasses == readPasses == []
      ensures from == [l0.calls, l1.calls] && this.expired == expired
    {
      links, this.payloads, this.limit, this.expired, this.accepts := [l0, l1], payloads, limit, expired, accepts;
      ticks, outgoing := 0, [Frame(payloads[0]), Frame(payloads[1])];
      incoming, targets := [[], []], [4, 4];
      headers, complete, attempted := [false, false], [false, false], [false, false];
      notices, replies, from := [], [], [l0.calls, l1.calls];
      sendPasses, readPasses := [], [];
    }

    method Budget() returns (ok: bool)
      requires Smooth()
      modifies `ticks
      ensures ticks == old(ticks) + 1 && ok == !expired(old(ticks))
      ensures if ok then Smooth() else Late()
    {
      hide Answered;
      ok := !expired(ticks);
      ticks := ticks + 1;
    }

    lemma {:induction false} SendingIsBounded()
      requires Sending(0) && Sending(1)
      ensures Bounded()
    {
      forall p | p in {0, 1}
        ensures links[p].wire <= Frame(payloads[p])
        ensures links[p].wire != [] ==> Uncertain(p) in notices
      {
        assert Sending(p);
        if attempted[p] {
          TriedIsNoted(notices, p, outgoing[p] == []);
        }
      }
    }

    lemma {:induction false} ReadingIsBounded()
      requires Reading(0) && Reading(1)
      ensures Bounded()
    {
      hide Frame, BigEndian;
      forall p | p in {0, 1}
        ensures links[p].wire <= Frame(payloads[p]) && Uncertain(p) in notices
        ensures WithinFrame(links[p].inbound, links[p].taken)
      {
        assert Reading(p);
        TriedIsNoted(notices, p, true);
      }
    }

    method Announce(p: int)
      requires p in {0, 1} && Sending(p) && Sending(1 - p)
      modifies `notices, `attempted
      ensures Sending(p) && Sending(1 - p) && attempted[p]
    {
      hide Frame, Noted;
      if !attempted[p] {
        OneNotice(notices, Uncertain(p), p, false, outgoing[p] == []);
        OneNotice(notices, Uncertain(p), 1 - p, attempted[1 - p], outgoing[1 - p] == []);
        notices := notices + [Uncertain(p)];
        attempted := attempted[p := true];
      }
    }

    /** What Smooth says of the calls, so that one more can be added. */
    lemma {:induction false} BeforeCall(p: int)
      requires p in {0, 1} && Smooth()
      ensures |links| == |from| == 2 && Answered(links[p], from[p]) && SmoothBut(p)
    {
    }

    /** Smooth except for the connection of side p. */
    ghost predicate SmoothBut(p: int)
      requires p in {0, 1}
      reads `ticks, if |links| == 2 then {links[1 - p]} else {}
    {
      && |links| == |from| == 2 && (forall t :: 0 <= t < ticks ==> !expired(t)) && Answered(links[1 - p], from[1 - p])
    }

    /** A call that moved something or would have blocked keeps everything smooth. */
    lemma {:induction false} AfterCall(p: int, r: Moved, most: nat)
      requires p in {0, 1} && SmoothBut(p) && from[p] < links[p].calls
      requires forall k :: from[p] <= k < links[p].calls - 1 ==> !Refused(links[p].io(k))
      requires r == Outcome(links[p].io(links[p].calls - 1), most)
      ensures if r.Nothing? || (r.Moved? && r.count > 0) then Smooth() else LastRefused(p) || most == 0
    {
    }

    /** Hands the unsent bytes of side p to the system and drops what it took. */
    method Push(p: int) returns (r: Moved)
      requires p in {0, 1} && Sending(p) && Sending(1 - p) && outgoing[p] != [] && attempted[p] && Smooth()
      modifies `outgoing, `notices, links[p]
      ensures Sending(p) && Sending(1 - p) && outgoing[1 - p] == old(outgoing[1 - p])
      ensures links[p].calls == old(links[p].calls) + 1
      ensures r == Outcome(links[p].io(old(links[p].calls)), |old(outgoing[p])|)
      ensures |outgoing[p]| == |old(outgoing[p])| - (if r.Moved? then r.count else 0)
      ensures !r.Moved? ==> outgoing == old(outgoing)
      ensures if r.Nothing? || (r.Moved? && r.count > 0) then Smooth() else LastRefused(p)
    {
      hide Frame, Smooth, LastRefused, Noted, Outcome, Answered;
      ghost var before, gone := outgoing[p], links[p].wire;
      BeforeCall(p);
      r := links[p].Send(outgoing[p]);
      AfterCall(p, r, |before|);
      if r.Moved? && r.count > 0 {
        outgoing := outgoing[p := outgoing[p][r.count..]];
        assert before[..r.count] + before[r.count..] == before;
        ConcatAssociates(gone, before[..r.count], before[r.count..]);
        if outgoing[p] == [] {
          OneNotice(notices, Sent(p), p, true, false);
          OneNotice(notices, Sent(p), 1 - p, attempted[1 - p], outgoing[1 - p] == []);
          notices := notices + [Sent(p)];
        }
      }
    }

    /** One attempt to send on side p; every way out leaves both sides accounted for, and ends the exchange only for a
        cause the system or the clock gave. */
    method SendOne(p: int) returns (fault: Option<Fault>, moved: bool)
      requires p in {0, 1} && Sending(p) && Sending(1 - p) && outgoing[p] != [] && Smooth()
      modifies this, links[p]
      ensures Sending(p) && Sending(1 - p) && unchanged(`replies) && unchanged(`sendPasses) && unchanged(`readPasses)
      ensures outgoing[1 - p] == old(outgoing[1 - p])
      ensures |outgoing[p]| <= |old(outgoing[p])| && (moved ==> |outgoing[p]| < |old(outgoing[p])|)
      ensures fault.None? ==> Smooth() && links[p].calls == old(links[p].calls) + 1
      ensures fault.None? ==> ticks == old(ticks) + if moved then 3 else 2
      ensures fault.None? ==> Outcome(links[p].io(old(links[p].calls)), |old(outgoing[p])|).Nothing? == !moved
      ensures fault.None? && !moved ==> outgoing == old(outgoing)
      ensures fault.Some? ==> SendCause(p, fault.value)
    {
      hide Frame, Smooth, Outcome, LastRefused, Noted, Connection.Valid;
      var ok := Budget();
      if !ok {
        return Some(Expired), false;
      }
      Announce(p);
      ok := Budget();
      if !ok {
        return Some(Expired), false;
      }
      var r := Push(p);
      if r.Nothing? {
        return None, false;
      }
      if r.Fails? || r.count == 0 {
        return Some(SendFailed), false;
      }
      ok := Budget();
      return if ok then None else Some(Expired), true;
    }

    /** Side p has blocked in each of the last passes, if it still has something to send. */
    ghost predicate SendQuiet(p: int, count: nat)
      requires p in {0, 1} && |links| == |outgoing| == 2
      reads `outgoing, links
    {
      outgoing[p] != [] ==> Blocked(links[p], count)
    }

    /** One pass over both sides. */
    method SendPass(stalled: nat) returns (fault: Option<Fault>, progressed: bool)
      requires Sending(0) && Sending(1) && Smooth() && SendQuiet(0, stalled) && SendQuiet(1, stalled)
      modifies this, links
      ensures Sending(0) && Sending(1) && unchanged(`replies) && unchanged(`readPasses) && unchanged(`sendPasses)
      ensures Shaped() && (fault.None? ==> Smooth() && ticks >= old(ticks))
      ensures fault.None? ==>
        if progressed then |outgoing[0]| + |outgoing[1]| < |old(outgoing[0])| + |old(outgoing[1])|
        else outgoing == old(outgoing) && SendQuiet(0, stalled + 1) && SendQuiet(1, stalled + 1)
      ensures fault.Some? ==> SendCause(0, fault.value) || SendCause(1, fault.value)
    {
      hide Frame, Refused;
      progressed := false;
      for p := 0 to 2
        invariant Sending(0) && Sending(1) && unchanged(`replies) && Smooth()
        invariant unchanged(`readPasses) && unchanged(`sendPasses) && ticks >= old(ticks)
        invariant progressed ==> |outgoing[0]| + |outgoing[1]| < |old(outgoing[0])| + |old(outgoing[1])|
        invariant !progressed ==> outgoing == old(outgoing)
        invariant !progressed ==>
          SendQuiet(0, if p > 0 then stalled + 1 else stalled) && SendQuiet(1, if p > 1 then stalled + 1 else stalled)
      {
        if outgoing[p] != [] {
          var moved;
          fault, moved := SendOne(p);
          if fault.Some? {
            return;
          }
          progressed := progressed || moved;
        }
      }
      fault := None;
    }

    /** Waiting for readiness looks at the clock before and after. */
    method Wait() returns (ok: bool)
      requires Smooth()
      modifies `ticks
      ensures ok ==> Smooth() && ticks == old(ticks) + 2
      ensures !ok ==> Late()
    {
      ok := Budget();
      if ok {
        ok := Budget();
      }
    }

    /** Both requests, until both are out or something fails: it ends by (bytes left, stalls left). */
    method SendRequests() returns (fault: Option<Fault>)
      requires Sending(0) && Sending(1) && Shaped() && Smooth() && sendPasses == []
      modifies this, links
      ensures Sending(0) && Sending(1) && unchanged(`replies) && unchanged(`readPasses)
      ensures fault.None? ==> outgoing[0] == outgoing[1] == [] && Smooth()
      ensures fault.None? ==> ticks >= old(ticks) + 2 * Stalls(sendPasses)
      ensures fault == Some(Stalled) ==> StallCause() && (outgoing[0] != [] || outgoing[1] != [])
      ensures fault != Some(Stalled) ==> Flowing(sendPasses)
      ensures fault.Some? && fault != Some(Stalled) ==> SendCause(0, fault.value) || SendCause(1, fault.value)
    {
      hide Frame, Trailing, Flowing, Stalls, Sending, Smooth, SendQuiet;
      var stalled := 0;
      NoPasses();
      QuietAtFirst();
      while outgoing[0] != [] || outgoing[1] != []
        invariant Sending(0) && Sending(1) && unchanged(`replies) && unchanged(`readPasses) && Smooth() && Shaped()
        invariant Flowing(sendPasses) && stalled == Trailing(sendPasses) < 8
        invariant ticks >= old(ticks) + 2 * Stalls(sendPasses)
        invariant SendQuiet(0, stalled) && SendQuiet(1, stalled)
        decreases |outgoing[0]| + |outgoing[1]|, STALL_LIMIT - stalled
      {
        ghost var left := |outgoing[0]| + |outgoing[1]|;
        var progressed;
        fault, progressed := SendPass(stalled);
        if fault.Some? {
          return;
        }
        ghost var moved := |outgoing[0]| + |outgoing[1]| < left;
        OnePass(sendPasses, moved);
        sendPasses := sendPasses + [moved];
        stalled := if progressed then 0 else stalled + 1;
        QuietAtFirst();
        if stalled >= STALL_LIMIT {
          SendsAreStuck();
          return Some(Stalled);
        }
        if !progressed {
          var ok := Wait();
          if !ok {
            return Some(Expired);
          }
        }
      }
      return None;
    }

    lemma {:induction false} QuietAtFirst()
      requires Shaped()
      ensures SendQuiet(0, 0) && SendQuiet(1, 0) && ReadQuiet(0, 0) && ReadQuiet(1, 0)
    {
    }

    lemma {:induction false} SendsAreStuck()
      requires Shaped() && (outgoing[0] != [] || outgoing[1] != []) && Trailing(sendPasses) == 8
      requires SendQuiet(0, 8) && SendQuiet(1, 8)
      ensures StallCause()
    {
    }

    lemma {:induction false} ReadsAreStuck()
      requires Shaped() && outgoing[0] == outgoing[1] == [] && (!complete[0] || !complete[1])
      requires Trailing(readPasses) == 8 && ReadQuiet(0, 8) && ReadQuiet(1, 8)
      ensures StallCause()
    {
    }

    /** Bytes side p may still have to read; a header may announce up to the limit. */
    ghost function Left(p: int): nat
      requires p in {0, 1} && Shaped()
      reads `outgoing, `incoming, `targets, `headers, `complete, `attempted, links
    {
      var taken := links[p].taken;
      if complete[p] then 0
      else if headers[p] then (if taken <= 4 + targets[p] then 4 + targets[p] - taken else 0)
      else if taken <= 4 then 5 - taken + limit else 0
    }

    /** Bytes side p may take in one call: never past the header or the body being read. */
    function Room(p: int): nat
      requires p in {0, 1} && |incoming| == |targets| == 2 && |incoming[p]| <= targets[p]
      reads `incoming, `targets
    {
      targets[p] - |incoming[p]|
    }

    lemma {:induction false} SomeRoom(p: int)
      requires p in {0, 1} && Receiving(p) && !complete[p]
      ensures |incoming| == |targets| == |links| == 2 && |incoming[p]| < targets[p] && links[p].Valid()
      ensures links[p].taken == |links[p].inbound| ==> Short(links[p].inbound)
    {
      hide Frame, BigEndian, Filter, Noted;
    }

    /** The call itself. */
    method Fetch(p: int) returns (r: Moved, chunk: seq<Byte>)
      requires p in {0, 1} && Receiving(p) && !complete[p] && Smooth()
      modifies links[p]
      ensures links[p].Valid() && links[p].calls == old(links[p].calls) + 1 && links[p].wire == old(links[p].wire)
      ensures links[p].taken == old(links[p].taken) + (if r.Moved? then r.count else 0)
      ensures chunk == links[p].inbound[old(links[p].taken)..links[p].taken]
      ensures |chunk| <= old(Room(p))
      ensures exists most: nat :: r == Outcome(links[p].io(old(links[p].calls)), most)
      ensures if r.Nothing? || (r.Moved? && r.count > 0) then Smooth()
              else LastRefused(p) || (links[p].taken == |links[p].inbound| && Short(links[p].inbound))
    {
      SomeRoom(p);
      hide Frame, BigEndian, Filter, Smooth, LastRefused, Receiving, Short;
      BeforeCall(p);
      var room := Room(p);
      ghost var most := if room <= |links[p].inbound| - links[p].taken then room
                        else |links[p].inbound| - links[p].taken;
      r, chunk := links[p].Recv(room);
      AfterCall(p, r, most);
    }

    /** Takes what the system has for side p. */
    method Pull(p: int) returns (r: Moved)
      requires p in {0, 1} && Receiving(p) && Reading(1 - p) && !complete[p] && Smooth()
      modifies `incoming, links[p]
      ensures links[p].calls == old(links[p].calls) + 1
      ensures exists most: nat :: r == Outcome(links[p].io(old(links[p].calls)), most)
      ensures if r.Nothing? || (r.Moved? && r.count > 0) then Smooth()
              else LastRefused(p) || (links[p].taken == |links[p].inbound| && Short(links[p].inbound))
      ensures Reading(p) && Reading(1 - p) && unchanged(links[1 - p])
      ensures r.Moved? ==> Left(p) == old(Left(p)) - r.count
      ensures !r.Moved? || r.count == 0 ==> links[p].taken == old(links[p].taken)
      ensures incoming[1 - p] == old(incoming[1 - p])
    {
      hide Frame, BigEndian, Filter, Smooth, LastRefused, Noted, Short, Outcome;
      assert links[1 - p] != links[p];
      ghost var before := links[p].taken;
      var chunk;
      r, chunk := Fetch(p);
      if r.Moved? {
        incoming := incoming[p := incoming[p] + chunk];
        var inbound := links[p].inbound;
        assert inbound[..before] + inbound[before..links[p].taken] == inbound[..links[p].taken];
        if headers[p] {
          assert inbound[4..before] + inbound[before..links[p].taken] == inbound[4..links[p].taken];
        }
      }
    }

    /** A complete header sets the length of the body, or ends the exchange. */
    method TakeHeader(p: int) returns (ok: bool)
      requires p in {0, 1} && Reading(p) && !headers[p] && |incoming[p]| == 4
      requires Reported(p) && Receiving(1 - p)
      modifies `targets, `incoming, `headers
      ensures Reading(p) && Receiving(1 - p) && Reported(p)
      ensures ok ==> Receiving(p) && headers[p] && !complete[p] && Left(p) < old(Left(p))
      ensures !ok ==> Left(p) == old(Left(p))
      ensures old(Left(1 - p)) == Left(1 - p)
      ensures |links[p].inbound| >= 4 && ok == (0 < BigEndian(links[p].inbound[..4]) <= limit)
    {
      hide Frame, BigEndian, Filter, Noted;
      var length := BigEndian(incoming[p]);
      assert incoming[p] == links[p].inbound[..4];
      if !(0 < length <= limit) {
        return false;
      }
      targets, incoming, headers := targets[p := length], incoming[p := []], headers[p := true];
      return true;
    }

    lemma {:induction false} WholeBody(p: int)
      requires p in {0, 1} && Reading(p) && headers[p] && |incoming[p]| == targets[p]
      ensures Shaped() && links[p].Valid() && 4 <= links[p].taken == 4 + BigEndian(links[p].inbound[..4])
      ensures incoming[p] == links[p].inbound[4..links[p].taken]
    {
      hide Frame, BigEndian;
    }

    lemma {:induction false} ShapeOf(p: int)
      requires p in {0, 1} && Reading(p)
      ensures Shaped() && links[p].Valid() && (headers[p] ==> 4 <= links[p].taken)
    {
      hide Frame, BigEndian;
    }

    /** Runs the reply callback on a complete body. */
    method Report(p: int)
      requires p in {0, 1} && Reading(p) && headers[p] && !complete[p] && |incoming[p]| == targets[p]
      requires Reported(p) && Receiving(1 - p)
      modifies `replies
      ensures Reading(p) && Receiving(1 - p) && Delivered(p)
      ensures RepliesOf(p) == [Reply(p, incoming[p])] && replies == old(replies) + [Reply(p, incoming[p])]
    {
      hide Frame, BigEndian, Filter, Reading;
      WholeBody(p);
      ShapeOf(1 - p);
      FilterAppend(replies, Reply(p, incoming[p]), p);
      FilterAppend(replies, Reply(p, incoming[p]), 1 - p);
      replies := replies + [Reply(p, incoming[p])];
    }

    /** A complete body is reported once; a rejected one ends the exchange. */
    method TakeBody(p: int) returns (ok: bool)
      requires p in {0, 1} && Reading(p) && headers[p] && !complete[p] && |incoming[p]| == targets[p]
      requires Reported(p) && Receiving(1 - p)
      modifies `replies, `complete
      ensures Reading(p) && Receiving(1 - p) && Delivered(p)
      ensures ok ==> Receiving(p) && complete[p] && Left(p) == 0
      ensures replies == old(replies) + [Reply(p, incoming[p])] && ok == accepts(Reply(p, incoming[p]))
      ensures old(Left(1 - p)) == Left(1 - p)
    {
      hide Frame, BigEndian, Filter, Noted;
      Report(p);
      if !accepts(Reply(p, incoming[p])) {
        return false;
      }
      complete := complete[p := true];
      return true;
    }

    lemma {:induction false} ReportedIsDelivered(p: int)
      requires p in {0, 1} && Reading(p) && Reported(p)
      ensures Delivered(p)
    {
      hide Frame, BigEndian, Filter;
    }

    /** Everything an exit has to show, from what holds between attempts. */
    lemma {:induction false} Settled(p: int)
      requires p in {0, 1} && Reading(p) && Reported(p) && Receiving(1 - p)
      ensures Bounded() && Delivered(0) && Delivered(1) && Shaped()
    {
      hide Frame, BigEndian, Filter, Bounded, Delivered;
      ReadingIsBounded();
      ReportedIsDelivered(0);
      ReportedIsDelivered(1);
    }

    lemma {:induction false} BothSettled()
      requires Receiving(0) && Receiving(1)
      ensures Bounded() && Delivered(0) && Delivered(1) && Shaped()
    {
      hide Frame, BigEndian, Filter, Bounded, Delivered, Reading, Reported;
      Settled(0);
    }

    /** Pull, and what it leaves: an unfinished header or body, or a complete one to handle. */
    method PullOne(p: int) returns (r: Moved)
      requires p in {0, 1} && Receiving(p) && Receiving(1 - p) && !complete[p] && Smooth()
      modifies `incoming, links[p]
      ensures links[p].calls == old(links[p].calls) + 1
      ensures exists most: nat :: r == Outcome(links[p].io(old(links[p].calls)), most)
      ensures if r.Nothing? || (r.Moved? && r.count > 0) then Smooth()
              else LastRefused(p) || (links[p].taken == |links[p].inbound| && Short(links[p].inbound))
      ensures Reading(p) && Reported(p) && Receiving(1 - p) && Shaped() && !complete[p]
      ensures r.Moved? ==> Left(p) == old(Left(p)) - r.count
      ensures !r.Moved? ==> Left(p) == old(Left(p))
      ensures !r.Moved? || r.count == 0 || |incoming[p]| != targets[p] ==> Receiving(p)
      ensures Left(1 - p) == old(Left(1 - p))
    {
      hide Frame, BigEndian, Filter, Smooth, LastRefused, Short, Outcome, Noted;
      assert links[1 - p] != links[p];
      r := Pull(p);
    }

    /** One attempt to receive on side p; it ends the exchange only for a cause. */
    method ReceiveOne(p: int) returns (fault: Option<Fault>, moved: bool)
      requires p in {0, 1} && Receiving(p) && Receiving(1 - p) && Shaped() && !complete[p] && Smooth()
      modifies this, links[p]
      ensures Bounded() && Delivered(0) && Delivered(1) && Shaped()
      ensures unchanged(`outgoing) && unchanged(`sendPasses) && unchanged(`readPasses)
      ensures fault.None? ==> Receiving(p) && Receiving(1 - p) && Left(1 - p) == old(Left(1 - p))
      ensures fault.None? ==> if moved then Left(p) < old(Left(p)) else Left(p) == old(Left(p))
      ensures fault.None? ==> Smooth() && complete[1 - p] == old(complete[1 - p])
      ensures fault.None? && !moved ==> Blocks(p, old(links[p].calls)) && complete == old(complete)
      ensures fault.None? ==> ticks == old(ticks) + if !moved then 1 else if complete[p] then 3 else 2
      ensures fault.Some? ==> ReadCause(p, fault.value)
    {
      hide Frame, BigEndian, Filter, Bounded, Delivered, Reading, Reported, Left, Smooth, LastRefused, Short, Noted;
      Settled(p);
      moved := false;
      var ok := Budget();
      if !ok {
        return Some(Expired), false;
      }
      var r := PullOne(p);
      Settled(p);
      if r.Nothing? {
        return None, false;
      }
      if r.Fails? || r.count == 0 {
        return Some(ReceiveFailed), false;
      }
      fault := Digest(p);
      return fault, true;
    }

    /** Handles what became complete, and looks at the clock once more. */
    method Digest(p: int) returns (fault: Option<Fault>)
      requires p in {0, 1} && Reading(p) && !complete[p] && Smooth() && Reported(p) && Receiving(1 - p) && Shaped()
      requires |incoming[p]| != targets[p] ==> Receiving(p)
      requires Bounded() && Delivered(0) && Delivered(1)
      modifies `targets, `incoming, `headers, `replies, `complete, `ticks
      ensures Bounded() && Delivered(0) && Delivered(1) && Shaped()
      ensures fault.None? ==> Receiving(p) && Receiving(1 - p) && Left(1 - p) == old(Left(1 - p)) && Smooth()
      ensures fault.None? ==> Left(p) < old(Left(p)) || (Left(p) == old(Left(p)))
      ensures fault.None? ==> complete[1 - p] == old(complete[1 - p])
      ensures fault.None? ==> ticks == old(ticks) + if complete[p] then 2 else 1
      ensures fault.Some? ==> ReadCause(p, fault.value)
    {
      hide Frame, BigEndian, Filter, Bounded, Delivered, Reading, Reported, Left, Smooth, LastRefused, Short, Noted;
      if |incoming[p]| == targets[p] {
        fault := Handle(p);
        if fault.Some? {
          return;
        }
      }
      var ok := Budget();
      Settled(p);
      return if ok then None else Some(Expired);
    }

    /** One more call on this connection, and it would have blocked. */
    ghost predicate Blocks(p: int, before: nat)
      requires p in {0, 1} && |links| == 2
      reads links
    {
      links[p].calls == before + 1 && links[p].io(before) == WouldBlock
    }

    /** What a complete header or body sets off. */
    method Handle(p: int) returns (fault: Option<Fault>)
      requires p in {0, 1} && Reading(p) && !complete[p] && |incoming[p]| == targets[p] && Smooth()
      requires Reported(p) && Receiving(1 - p) && Shaped()
      modifies `targets, `incoming, `headers, `replies, `complete, `ticks
      ensures Bounded() && Delivered(p) && Delivered(1 - p) && Shaped()
      ensures fault.None? ==> Receiving(p) && Receiving(1 - p) && Left(1 - p) == old(Left(1 - p)) && Smooth()
      ensures fault.None? ==> Left(p) < old(Left(p)) || (complete[p] && Left(p) <= old(Left(p)))
      ensures fault.None? ==> complete == old(complete)[p := old(headers[p])]
      ensures fault.None? ==> ticks == old(ticks) + if complete[p] then 1 else 0
      ensures fault.Some? ==> fault != Some(ReceiveFailed) && ReadCause(p, fault.value)
    {
      hide Frame, BigEndian, Filter, Bounded, Delivered, Smooth, Short, Noted, Left, Reported, Reading, Receiving;
      if headers[p] {
        fault := HandleBody(p);
      } else {
        fault := HandleHeader(p);
      }
    }

    method HandleHeader(p: int) returns (fault: Option<Fault>)
      requires p in {0, 1} && Reading(p) && !complete[p] && |incoming[p]| == targets[p] && !headers[p]
      requires Reported(p) && Receiving(1 - p) && Shaped()
      modifies `targets, `incoming, `headers
      ensures Bounded() && Delivered(p) && Delivered(1 - p) && Shaped()
      ensures fault.None? ==> Receiving(p) && Receiving(1 - p) && Left(1 - p) == old(Left(1 - p))
      ensures fault.None? ==> Left(p) < old(Left(p))
      ensures fault.Some? ==> fault == Some(BadLength) && ReadCause(p, BadLength)
    {
      hide Frame, BigEndian, Filter, Bounded, Delivered, Smooth, Short, Noted;
      var ok := TakeHeader(p);
      Settled(p);
      return if ok then None else Some(BadLength);
    }

    method HandleBody(p: int) returns (fault: Option<Fault>)
      requires p in {0, 1} && Reading(p) && !complete[p] && |incoming[p]| == targets[p] && headers[p] && Smooth()
      requires Reported(p) && Receiving(1 - p) && Shaped()
      modifies `replies, `complete, `ticks
      ensures Bounded() && Delivered(p) && Delivered(1 - p) && Shaped()
      ensures fault.None? ==> Receiving(p) && Receiving(1 - p) && Left(1 - p) == old(Left(1 - p)) && Smooth()
      ensures fault.None? ==> Left(p) <= old(Left(p))
      ensures fault.None? ==> complete == old(complete)[p := true] && ticks == old(ticks) + 1
      ensures fault.Some? ==> fault.value in {Expired, ReplyRejected} && ReadCause(p, fault.value)
    {
      hide Frame, BigEndian, Filter, Bounded, Delivered, Smooth, Short, Noted, Reported;
      var ok := Budget();
      if !ok {
        Settled(p);
        return Some(Expired);
      }
      ok := TakeBody(p);
      ReadingIsBounded();
      ReportedIsDelivered(1 - p);
      return if ok then None else Some(ReplyRejected);
    }

    /** Side p has blocked in each of the last passes, if its reply is still to come. */
    ghost predicate ReadQuiet(p: int, count: nat)
      requires p in {0, 1} && |links| == |complete| == 2
      reads `complete, links
    {
      !complete[p] ==> Blocked(links[p], count)
    }

    lemma {:induction false} OneMoreBlock(p: int, count: nat, before: nat)
      requires p in {0, 1} && |links| == 2 && Blocks(p, before) && count <= before
      requires forall k :: before - count <= k < before ==> links[p].io(k) == WouldBlock
      ensures Blocked(links[p], count + 1)
    {
    }

    /** One pass over both sides. */
    method ReadPass(stalled: nat) returns (fault: Option<Fault>, progressed: bool)
      requires Receiving(0) && Receiving(1) && Smooth() && ReadQuiet(0, stalled) && ReadQuiet(1, stalled)
      requires Bounded() && Delivered(0) && Delivered(1) && Shaped()
      modifies this, links
      ensures Bounded() && Delivered(0) && Delivered(1) && Shaped()
      ensures unchanged(`outgoing) && unchanged(`sendPasses) && unchanged(`readPasses)
      ensures fault.None? ==> Smooth() && Receiving(0) && Receiving(1) && ticks >= old(ticks)
      ensures fault.None? ==>
        if progressed then Left(0) + Left(1) < old(Left(0) + Left(1))
        else
          && Left(0) + Left(1) == old(Left(0) + Left(1)) && complete == old(complete)
          && ReadQuiet(0, stalled + 1) && ReadQuiet(1, stalled + 1)
      ensures fault.Some? ==> ReadCause(0, fault.value) || ReadCause(1, fault.value)
    {
      hide Frame, BigEndian, Filter, Bounded, Delivered, Smooth, Reported, Left, Reading;
      progressed := false;
      fault := None;
      if !complete[0] {
        ghost var calls := links[0].calls;
        fault, progressed := ReceiveOne(0);
        if fault.Some? {
          return;
        }
        if !progressed {
          OneMoreBlock(0, stalled, calls);
        }
      }
      if !complete[1] {
        ghost var calls := links[1].calls;
        var moved;
        fault, moved := ReceiveOne(1);
        if fault.Some? {
          return;
        }
        if !moved && !progressed {
          OneMoreBlock(1, stalled, calls);
        }
        progressed := progressed || moved;
      }
    }

    /** Both replies, until both were delivered or something fails: it ends by (bytes left, stalls left). */
    method ReceiveReplies() returns (fault: Option<Fault>)
      requires Receiving(0) && Receiving(1) && Smooth() && readPasses == [] && outgoing[0] == outgoing[1] == []
      modifies this, links
      ensures Bounded() && Delivered(0) && Delivered(1) && Shaped() && unchanged(`sendPasses)
      ensures fault.None? ==> Receiving(0) && Receiving(1) && complete[0] && complete[1] && Smooth()
      ensures fault.None? ==> ticks >= old(ticks) + 2 * Stalls(readPasses)
      ensures if fault == Some(Stalled) then StallCause() else Flowing(readPasses)
      ensures fault.Some? && fault != Some(Stalled) ==> ReadCause(0, fault.value) || ReadCause(1, fault.value)
    {
      hide Frame, BigEndian, Filter, Bounded, Delivered, Smooth, Trailing, Flowing, Stalls, Receiving, ReadQuiet, Left;
      BothSettled();
      QuietAtFirst();
      NoPasses();
      var stalled := 0;
      while !complete[0] || !complete[1]
        invariant Receiving(0) && Receiving(1) && Smooth() && unchanged(`outgoing) && unchanged(`sendPasses)
        invariant Bounded() && Delivered(0) && Delivered(1) && Shaped()
        invariant Flowing(readPasses) && stalled == Trailing(readPasses) < 8
        invariant ticks >= old(ticks) + 2 * Stalls(readPasses)
        invariant ReadQuiet(0, stalled) && ReadQuiet(1, stalled)
        decreases Left(0) + Left(1), STALL_LIMIT - stalled
      {
        ghost var left := Left(0) + Left(1);
        var progressed;
        fault, progressed := ReadPass(stalled);
        if fault.Some? {
          return;
        }
        ghost var moved := Left(0) + Left(1) < left;
        BothSettled();
        OnePass(readPasses, moved);
        readPasses := readPasses + [moved];
        stalled := if progressed then 0 else stalled + 1;
        QuietAtFirst();
        if stalled >= STALL_LIMIT {
          ReadsAreStuck();
          return Some(Stalled);
        }
        if !progressed {
          var ok := Wait();
          BothSettled();
          if !ok {
            return Some(Expired);
          }
        }
      }
      return None;
    }

    lemma {:induction false} RequestsAreOut()
      requires Sending(0) && Sending(1) && outgoing[0] == outgoing[1] == [] && replies == []
      ensures Receiving(0) && Receiving(1)
    {
      hide Frame, BigEndian;
      forall p | p in {0, 1}
        ensures Receiving(p)
      {
        assert Sending(p);
        assert links[p].wire + [] == links[p].wire && links[p].inbound[..0] == [];
      }
    }

    lemma {:induction false} NothingDelivered(p: int)
      requires p in {0, 1} && Sending(p) && replies == []
      ensures Delivered(p)
    {
      hide Frame, BigEndian;
    }

    ghost predicate Cause(fault: Fault)
      requires |links| == |from| == 2
      reads `ticks, `replies, links
    {
      || SendCause(0, fault) || SendCause(1, fault) || ReadCause(0, fault) || ReadCause(1, fault)
    }

    /** The whole exchange. On return each side got exactly one frame: its request went out byte for byte, and the
        callback ran once on the body its peer framed. On any fault what went out is a prefix and nothing past the
        first frame was read. There is a fault only for a cause: a late clock, a refused call, a short or wrong or
        rejected reply, or eight passes in a row without a byte. */
    method Run() returns (fault: Option<Fault>)
      requires Sending(0) && Sending(1) && replies == [] && Smooth() && sendPasses == readPasses == []
      modifies this, links
      ensures Bounded() && Delivered(0) && Delivered(1) && Shaped()
      ensures fault.None? ==> Smooth() && forall p :: p in {0, 1} ==>
        && links[p].wire == Frame(payloads[p])
        && 4 < links[p].taken == 4 + BigEndian(links[p].inbound[..4]) <= 4 + limit
        && RepliesOf(p) == [Reply(p, links[p].inbound[4..links[p].taken])]
        && accepts(Reply(p, links[p].inbound[4..links[p].taken]))
      ensures if fault == Some(Stalled) then StallCause() else Flowing(sendPasses) && Flowing(readPasses)
      ensures fault.None? ==> ticks >= old(ticks) + 2 + 2 * Stalls(sendPasses) + 2 * Stalls(readPasses)
      ensures fault.Some? && fault.value !in {Stalled, Expired} ==> Cause(fault.value)
      ensures fault != Some(BadPayload) && (fault == Some(Expired) ==> Late())
    {
      hide Frame, BigEndian, Filter, Bounded, Delivered, Smooth, Trailing, Flowing, Stalls, Noted;
      NoPasses();
      var ok := Budget();
      fault := Some(Expired);
      if ok {
        fault := SendRequests();
      }
      if fault.Some? {
        SendingIsBounded();
        NothingDelivered(0);
        NothingDelivered(1);
        return;
      }
      RequestsAreOut();
      fault := ReceiveReplies();
      if fault.None? {
        ok := Budget();
        ReadingIsBounded();
        ReportedIsDelivered(0);
        ReportedIsDelivered(1);
        fault := if ok then None else Some(Expired);
      }
    }
  }

  /** The stream begins with a whole frame of at most `limit` bytes, and its body is accepted. */
  ghost predicate GoodReply(inbound: seq<Byte>, p: int, limit: nat, accepts: Reply -> bool) {
    && !Short(inbound) && 0 < BigEndian(inbound[..4]) <= limit
    && accepts(Reply(p, inbound[4..4 + BigEndian(inbound[..4])]))
  }

  ghost predicate MovesWithin(c: Connection, k: nat) {
    exists j :: k <= j < k + 8 && c.io(j) != WouldBlock
  }

  /** A peer and a system that serve one exchange: no call is refused, of any eight calls in a row one moves something,
      and the reply is good. */
  ghost predicate Serves(c: Connection, p: int, limit: nat, accepts: Reply -> bool) {
    && (forall k: nat :: !Refused(c.io(k)))
    && (forall k: nat :: MovesWithin(c, k))
    && GoodReply(c.inbound, p, limit, accepts)
  }

  /** Why this connection ended the exchange: its last call was refused, its peer's stream was short or its header out
      of range or its reply rejected, or its last eight calls would have blocked. */
  ghost predicate Blamed(c: Connection, p: int, from: nat, limit: nat, accepts: Reply -> bool, fault: Fault)
    reads c
  {
    match fault
    case SendFailed => c.calls > from && Refused(c.io(c.calls - 1))
    case ReceiveFailed => (c.calls > from && Refused(c.io(c.calls - 1))) || Short(c.inbound)
    case BadLength => |c.inbound| >= 4 && !(0 < BigEndian(c.inbound[..4]) <= limit)
    case ReplyRejected => c.taken <= |c.inbound| && 4 <= c.taken && !accepts(Reply(p, c.inbound[4..c.taken]))
                          && c.taken == 4 + BigEndian(c.inbound[..4])
    case Stalled => Blocked(c, 8)
    case _ => false
  }

  lemma {:induction false} ServedIsNotBlamed(c: Connection, p: int, from: nat, limit: nat, accepts: Reply -> bool,
      fault: Fault)
    ensures Serves(c, p, limit, accepts) ==> !Blamed(c, p, from, limit, accepts, fault)
  {
    hide BigEndian;
    if c.calls >= 8 && MovesWithin(c, c.calls - 8) {
      var j :| c.calls - 8 <= j < c.calls - 8 + 8 && c.io(j) != WouldBlock;
    }
  }

  /** The rejected reply is the last one given. */
  lemma {:induction false} LastOfSide(replies: seq<Reply>, p: int)
    requires replies != [] && replies[|replies| - 1].p == p
    ensures Filter(replies, p) != [] && Filter(replies, p)[|Filter(replies, p)| - 1] == replies[|replies| - 1]
  {
  }

  lemma {:induction false} CauseIsBlame(e: Exchange, p: int, fault: Fault)
    requires p in {0, 1} && e.Bounded() && e.Delivered(p) && e.Shaped() && fault != Expired
    requires e.SendCause(p, fault) || e.ReadCause(p, fault)
    ensures Blamed(e.links[p], p, e.from[p], e.limit, e.accepts, fault)
  {
    hide Frame, BigEndian, Filter, Short, Exchange.Bounded;
    if fault == ReplyRejected {
      LastOfSide(e.replies, p);
    }
  }

  lemma {:induction false} WhoIsBlamed(e: Exchange, fault: Fault)
    requires e.Bounded() && e.Delivered(0) && e.Delivered(1) && e.Shaped() && fault != Expired && fault != BadPayload
    requires if fault == Stalled then e.StallCause() else e.Cause(fault)
    ensures exists p :: p in {0, 1} && Blamed(e.links[p], p, e.from[p], e.limit, e.accepts, fault)
  {
    hide Frame, BigEndian, Filter, Short, Trailing, Exchange.Bounded, Exchange.Delivered, Exchange.SendCause,
      Exchange.ReadCause;
    if fault == Stalled {
      var p := if e.outgoing[0] != [] || (e.outgoing[1] == [] && !e.complete[0]) then 0 else 1;
      assert Blamed(e.links[p], p, e.from[p], e.limit, e.accepts, fault);
    } else {
      hide Blamed;
      var p := if e.SendCause(0, fault) || e.ReadCause(0, fault) then 0 else 1;
      CauseIsBlame(e, p, fault);
    }
  }

  /** The public entry: both requests are checked before the first byte of either leaves. With peers and a system that
      serve it and a clock that is never late it succeeds; any fault has a cause on one connection or the clock. */
  method ExchangeTwoFrames(l0: Connection, l1: Connection, payloads: seq<seq<Byte>>, limit: nat, expired: nat -> bool,
                           accepts: Reply -> bool) returns (fault: Option<Fault>, replies: seq<Reply>)
    requires l0.Valid() && l1.Valid() && l0.wire == l1.wire == [] && l0.taken == l1.taken == 0
    requires limit < 0x1_0000_0000
    modifies l0, l1
    ensures l0.Valid() && l1.Valid()
    ensures var good := l0 != l1 && |payloads| == 2 && forall p :: p in {0, 1} ==> 0 < |payloads[p]| <= limit;
      && (fault == Some(BadPayload) <==> !good)
      && (!good ==> unchanged(l0) && unchanged(l1) && replies == [])
      && (good ==> l0.wire <= Frame(payloads[0]) && l1.wire <= Frame(payloads[1]))
      && (good && l0.taken + l1.taken > 0 ==> l0.wire == Frame(payloads[0]) && l1.wire == Frame(payloads[1]))
      && (good && Serves(l0, 0, limit, accepts) && Serves(l1, 1, limit, accepts) && (forall t: nat :: !expired(t))
          ==> fault.None?)
    ensures fault == Some(Expired) ==> exists t: nat :: expired(t)
    ensures fault.Some? && fault.value !in {BadPayload, Expired} ==>
      || Blamed(l0, 0, old(l0.calls), limit, accepts, fault.value)
      || Blamed(l1, 1, old(l1.calls), limit, accepts, fault.value)
    ensures WithinFrame(l0.inbound, l0.taken) && WithinFrame(l1.inbound, l1.taken)
    ensures DeliveredOnce(l0.inbound, l0.taken, 0, replies) && DeliveredOnce(l1.inbound, l1.taken, 1, replies)
    ensures fault.None? ==>
      && Answered(l0, old(l0.calls)) && Answered(l1, old(l1.calls))
      && l0.wire == Frame(payloads[0]) && l1.wire == Frame(payloads[1])
      && 4 < l0.taken == 4 + BigEndian(l0.inbound[..4]) && 4 < l1.taken == 4 + BigEndian(l1.inbound[..4])
      && Filter(replies, 0) == [Reply(0, l0.inbound[4..l0.taken])]
      && Filter(replies, 1) == [Reply(1, l1.inbound[4..l1.taken])]
      && GoodReply(l0.inbound, 0, limit, accepts) && GoodReply(l1.inbound, 1, limit, accepts)
  {
    assert Filter([], 0) == Filter([], 1) == [];
    hide Frame, BigEndian, Filter, Short, Blamed, Serves, Trailing, Flowing;
    if l0 == l1 || |payloads| != 2 {
      return Some(BadPayload), [];
    }
    for p := 0 to 2
      invariant forall k :: 0 <= k < p ==> 0 < |payloads[k]| <= limit
    {
      if !(0 < |payloads[p]| <= limit) {
        return Some(BadPayload), [];
      }
    }
    var exchange := new Exchange(l0, l1, payloads, limit, expired, accepts);
    fault := exchange.Run();
    replies := exchange.replies;
    assert exchange.links[0] == l0 && exchange.links[1] == l1;
    if fault.Some? && fault != Some(Expired) {
      WhoIsBlamed(exchange, fault.value);
      ServedIsNotBlamed(l0, 0, exchange.from[0], limit, accepts, fault.value);
      ServedIsNotBlamed(l1, 1, exchange.from[1], limit, accepts, fault.value);
    }
  }

  function Filter(replies: seq<Reply>, p: int): seq<Reply> {
    if replies == [] then []
    else
      var last := replies[|replies| - 1];
      Filter(replies[..|replies| - 1], p) + if last.p == p then [last] else []
  }

  lemma {:induction false} FilterAppend(replies: seq<Reply>, r: Reply, p: int)
    ensures Filter(replies + [r], p) == Filter(replies, p) + if r.p == p then [r] else []
  {
    assert (replies + [r])[..|replies|] == replies;
  }
}
