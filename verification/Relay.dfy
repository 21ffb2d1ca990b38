/** One direction of the network relay: a bounded byte queue whose blocks leave no earlier than their schedule. */
module Relay {
  import opened Options
  import opened Framing

  const QUEUE_LIMIT := 1024 * 1024
  const READ_LIMIT := 4096

  datatype LinkModel = LinkModel(low: nat, high: nat, rate: Option<nat>) {
    predicate Valid() {
      low <= high && (rate.Some? ==> rate.value > 0)
    }

    /** Nanoseconds to put the bytes on the wire, rounded up; nothing when the rate is unlimited. */
    function Serialization(size: nat): nat
      requires Valid()
    {
      if rate.Some? then (8 * size * 1_000_000_000 + rate.value - 1) / rate.value else 0
    }
  }

  datatype Arrival = Arrival(at: nat, size: nat, propagation: nat)

  // ----- the schedule as a function of the arrivals -----

  function Max(a: nat, b: nat): nat {
    if a > b then a else b
  }

  function Tx(m: LinkModel, arrivals: seq<Arrival>): nat
    requires m.Valid()
  {
    if arrivals == [] then 0
    else
      var last := arrivals[|arrivals| - 1];
      if m.rate.Some? then Max(last.at, Tx(m, arrivals[..|arrivals| - 1])) + m.Serialization(last.size) else last.at
  }

  function Due(m: LinkModel, arrivals: seq<Arrival>): nat
    requires m.Valid()
  {
    if arrivals == [] then 0
    else Max(Tx(m, arrivals) + arrivals[|arrivals| - 1].propagation, Due(m, arrivals[..|arrivals| - 1]))
  }

  function Bytes(arrivals: seq<Arrival>): nat {
    if arrivals == [] then 0 else Bytes(arrivals[..|arrivals| - 1]) + arrivals[|arrivals| - 1].size
  }

  function TotalSerialization(m: LinkModel, arrivals: seq<Arrival>): nat
    requires m.Valid()
  {
    if arrivals == [] then 0
    else TotalSerialization(m, arrivals[..|arrivals| - 1]) + m.Serialization(arrivals[|arrivals| - 1].size)
  }

  ghost predicate WithinModel(m: LinkModel, arrivals: seq<Arrival>) {
    forall k :: 0 <= k < |arrivals| ==> m.low <= arrivals[k].propagation <= m.high && arrivals[k].size > 0
  }

  lemma {:induction false} DueNeverDecreases(m: LinkModel, arrivals: seq<Arrival>, i: nat, j: nat)
    requires m.Valid() && i <= j <= |arrivals|
    ensures Due(m, arrivals[..i]) <= Due(m, arrivals[..j])
  {
    hide Tx;
    if i < j {
      DueNeverDecreases(m, arrivals, i, j - 1);
      assert arrivals[..j][..j - 1] == arrivals[..j - 1];
    }
  }

  /** On a link with a rate, block j is serialised no earlier than the arrival of any earlier block allows. */
  lemma {:induction false} TxBound(m: LinkModel, arrivals: seq<Arrival>, i: nat, j: nat)
    requires m.Valid() && m.rate.Some? && i < j <= |arrivals|
    ensures Tx(m, arrivals[..j]) >= arrivals[i].at + TotalSerialization(m, arrivals[i..j])
    decreases j
  {
    var prefix := arrivals[..j];
    assert prefix[..j - 1] == arrivals[..j - 1] && prefix[j - 1] == arrivals[j - 1];
    assert arrivals[i..j][..j - 1 - i] == arrivals[i..j - 1];
    if i < j - 1 {
      TxBound(m, arrivals, i, j - 1);
    } else {
      assert arrivals[i..j] == [arrivals[i]] && arrivals[i..i] == [];
    }
  }

  /** And that bound is attained: the recurrence is the maximum over all earlier arrivals. */
  lemma {:induction false} TxAttained(m: LinkModel, arrivals: seq<Arrival>, j: nat) returns (i: nat)
    requires m.Valid() && m.rate.Some? && 0 < j <= |arrivals|
    ensures i < j && Tx(m, arrivals[..j]) == arrivals[i].at + TotalSerialization(m, arrivals[i..j])
  {
    var prefix := arrivals[..j];
    assert prefix[..j - 1] == arrivals[..j - 1] && prefix[j - 1] == arrivals[j - 1];
    var before := Tx(m, arrivals[..j - 1]);
    if before > arrivals[j - 1].at {
      i := TxAttained(m, arrivals, j - 1);
      assert arrivals[i..j][..j - 1 - i] == arrivals[i..j - 1];
    } else {
      i := j - 1;
      assert arrivals[i..j] == [arrivals[i]] && arrivals[i..j][..0] == [];
    }
  }

  /** The release bound: block j - 1 never leaves before any earlier arrival plus all serialisation since, plus the
      low propagation delay. */
  lemma {:induction false} DueBound(m: LinkModel, arrivals: seq<Arrival>, i: nat, j: nat)
    requires m.Valid() && WithinModel(m, arrivals) && i < j <= |arrivals|
    ensures Due(m, arrivals[..j]) >= arrivals[i].at + TotalSerialization(m, arrivals[i..j]) + m.low
  {
    var prefix := arrivals[..j];
    assert prefix[j - 1] == arrivals[j - 1];
    if m.rate.Some? {
      TxBound(m, arrivals, i, j);
    } else {
      NoSerialization(m, arrivals[i..j]);
      DueNeverDecreases(m, arrivals, i + 1, j);
      assert arrivals[..i + 1][i] == arrivals[i];
    }
  }

  lemma {:induction false} NoSerialization(m: LinkModel, arrivals: seq<Arrival>)
    requires m.Valid() && m.rate.None?
    ensures TotalSerialization(m, arrivals) == 0
  {
    if arrivals != [] {
      NoSerialization(m, arrivals[..|arrivals| - 1]);
    }
  }

  /** The due time is never later than some block up to this one needs: its own line time plus propagation. */
  lemma {:induction false} DueAttained(m: LinkModel, arrivals: seq<Arrival>, j: nat) returns (i: nat)
    requires m.Valid() && WithinModel(m, arrivals) && 0 < j <= |arrivals|
    ensures i < j && Due(m, arrivals[..j]) == Tx(m, arrivals[..i + 1]) + arrivals[i].propagation
  {
    hide Tx;
    var prefix := arrivals[..j];
    assert prefix[..j - 1] == arrivals[..j - 1] && prefix[j - 1] == arrivals[j - 1];
    if j > 1 && Due(m, arrivals[..j - 1]) > Tx(m, prefix) + arrivals[j - 1].propagation {
      i := DueAttained(m, arrivals, j - 1);
    } else {
      i := j - 1;
    }
  }

  lemma {:induction false} ScheduleStep(m: LinkModel, arrivals: seq<Arrival>, a: Arrival)
    requires m.Valid()
    ensures var more, line := arrivals + [a], Tx(m, arrivals);
      && Tx(m, more) == (if m.rate.Some? then Max(a.at, line) + m.Serialization(a.size) else a.at)
      && Due(m, more) == Max(Tx(m, more) + a.propagation, Due(m, arrivals))
      && Bytes(more) == Bytes(arrivals) + a.size
  {
    assert (arrivals + [a])[..|arrivals|] == arrivals;
  }

  /** The serialisation time is the exact one rounded up to a nanosecond. */
  lemma {:induction false} SerializationRoundsUp(m: LinkModel, size: nat)
    requires m.Valid() && m.rate.Some?
    ensures var bits, ns := 8 * size * 1_000_000_000, m.Serialization(size);
      ns * m.rate.value >= bits && (ns > 0 ==> (ns - 1) * m.rate.value < bits)
  {
    var rate, n := m.rate.value, 8 * size * 1_000_000_000 + m.rate.value - 1;
    var ns := n / rate;
    assert n == rate * ns + n % rate && 0 <= n % rate < rate;
    assert (ns - 1) * rate == rate * ns - rate;
  }

  class Schedule {
    const model: LinkModel
    var tx: nat
    var due: nat
    var offset: nat
    ghost var arrivals: seq<Arrival>

    ghost predicate Valid()
      reads this
    {
      && model.Valid() && WithinModel(model, arrivals)
      && tx == Tx(model, arrivals) && due == Due(model, arrivals) && offset == Bytes(arrivals)
    }

    constructor (model: LinkModel)
      requires model.low <= model.high && (model.rate.Some? ==> model.rate.value > 0)
      ensures Valid() && arrivals == [] && this.model == model
    {
      this.model := model;
      tx, due, offset, arrivals := 0, 0, 0, [];
    }

    /** Schedules one block; the propagation delay is drawn between the model's bounds. */
    method Enqueue(arrival: nat, size: nat, propagation: nat) returns (at: nat)
      requires Valid() && size > 0 && model.low <= propagation <= model.high
      modifies this
      ensures Valid() && arrivals == old(arrivals) + [Arrival(arrival, size, propagation)] && at == old(offset)
    {
      ScheduleStep(model, arrivals, Arrival(arrival, size, propagation));
      hide Tx, Due, Bytes;
      if model.rate.Some? {
        tx := Max(arrival, tx) + model.Serialization(size);
      } else {
        tx := arrival;
      }
      due := Max(tx + propagation, due);
      at := offset;
      offset := offset + size;
      arrivals := arrivals + [Arrival(arrival, size, propagation)];
    }
  }

  // ----- the direction -----

  datatype Block = Block(data: seq<Byte>, offset: nat, arrival: nat, tx: nat, propagation: nat, due: nat, cursor: nat,
                         firstAttempt: Option<nat>, blocked: bool, continuationAt: Option<nat>)

  function Unsent(queue: seq<Block>): seq<Byte>
    requires forall k :: 0 <= k < |queue| ==> queue[k].cursor <= |queue[k].data|
  {
    if queue == [] then [] else queue[0].data[queue[0].cursor..] + Unsent(queue[1..])
  }

  lemma {:induction false} UnsentAppend(queue: seq<Block>, b: Block)
    requires forall k :: 0 <= k < |queue| ==> queue[k].cursor <= |queue[k].data|
    requires b.cursor <= |b.data|
    ensures Unsent(queue + [b]) == Unsent(queue) + b.data[b.cursor..]
  {
    if queue == [] {
      assert queue + [b] == [b] && [b][1..] == [];
    } else {
      assert (queue + [b])[1..] == queue[1..] + [b];
      UnsentAppend(queue[1..], b);
    }
  }

  /** Block k of the queue is arrival base + k of the schedule. */
  ghost predicate Scheduled(b: Block, m: LinkModel, arrivals: seq<Arrival>, k: nat)
    requires m.Valid() && k < |arrivals|
  {
    && b.arrival == arrivals[k].at && |b.data| == arrivals[k].size && b.propagation == arrivals[k].propagation
    && b.tx == Tx(m, arrivals[..k + 1]) && b.due == Due(m, arrivals[..k + 1]) && b.offset == Bytes(arrivals[..k])
  }

  /** The queue holds the last arrivals, in order; only its head may have been tried or partly sent. */
  ghost predicate Ordered(queue: seq<Block>, m: LinkModel, arrivals: seq<Arrival>)
    requires m.Valid()
  {
    && |queue| <= |arrivals|
    && (forall k :: 0 <= k < |queue| ==>
          && queue[k].cursor < |queue[k].data| && (k > 0 ==> queue[k].cursor == 0 && queue[k].firstAttempt.None?)
          && Scheduled(queue[k], m, arrivals, |arrivals| - |queue| + k))
  }

  /** The queue after n bytes of its head block left: the head advanced, or gone. */
  function Advanced(queue: seq<Block>, block: Block, n: nat, completed: nat): seq<Block>
    requires queue != [] && block.cursor + n <= |block.data|
  {
    var end := block.cursor + n;
    if end < |block.data| then
      [block.(cursor := end, blocked := true, continuationAt := Some(completed))] + queue[1..]
    else queue[1..]
  }

  lemma {:induction false} AdvancedKeepsOrder(queue: seq<Block>, block: Block, n: nat, completed: nat, m: LinkModel,
      arrivals: seq<Arrival>)
    requires m.Valid() && Ordered(queue, m, arrivals) && queue != [] && 0 < n <= |block.data| - block.cursor
    requires block == queue[0].(firstAttempt := block.firstAttempt)
    ensures Ordered(Advanced(queue, block, n, completed), m, arrivals)
    ensures |Advanced(queue, block, n, completed)| == |queue| - if block.cursor + n < |block.data| then 0 else 1
  {
    hide Tx, Due, Bytes;
    var next := Advanced(queue, block, n, completed);
    if block.cursor + n < |block.data| {
      assert Scheduled(queue[0], m, arrivals, |arrivals| - |queue|);
      forall k | 0 <= k < |next|
        ensures Scheduled(next[k], m, arrivals, |arrivals| - |next| + k)
      {
      }
    } else {
      forall k | 0 <= k < |next|
        ensures Scheduled(next[k], m, arrivals, |arrivals| - |next| + k)
      {
        assert Scheduled(queue[k + 1], m, arrivals, |arrivals| - |queue| + (k + 1));
      }
    }
  }

  lemma {:induction false} AdvancedIsUnsent(queue: seq<Block>, block: Block, n: nat, completed: nat)
    requires queue != [] && 0 < n <= |block.data| - block.cursor
    requires forall k :: 0 <= k < |queue| ==> queue[k].cursor <= |queue[k].data|
    requires block == queue[0].(firstAttempt := block.firstAttempt)
    ensures var next := Advanced(queue, block, n, completed);
      && (forall k :: 0 <= k < |next| ==> next[k].cursor <= |next[k].data|)
      && Unsent(queue) == block.data[block.cursor..block.cursor + n] + Unsent(next)
  {
    hide Unsent;
    var end := block.cursor + n;
    var gone, left, next := block.data[block.cursor..end], block.data[end..], Advanced(queue, block, n, completed);
    assert gone + left == block.data[block.cursor..];
    UnsentHead(queue);
    if end < |block.data| {
      UnsentHead(next);
      assert next[1..] == queue[1..];
      ConcatAssociates(gone, left, Unsent(queue[1..]));
    } else {
      assert gone == block.data[block.cursor..];
    }
  }

  lemma {:induction false} UnsentHead(queue: seq<Block>)
    requires queue != [] && forall k :: 0 <= k < |queue| ==> queue[k].cursor <= |queue[k].data|
    ensures Unsent(queue) == queue[0].data[queue[0].cursor..] + Unsent(queue[1..])
  {
  }

  /** One send: which block it took bytes from, and the clock before and after it. */
  datatype Departure = Departure(block: nat, started: nat, completed: nat)

  datatype Io = Took(n: nat) | WouldBlock

  datatype Progress = Early | NotWritable | Backpressure | Closed | Sent(n: nat)

  /** What an attempt on this head block comes to: the system takes no more than was left of it. */
  ghost function Answered(head: Block, answer: Io): Progress
    requires head.cursor <= |head.data|
  {
    var left := |head.data| - head.cursor;
    match answer
    case WouldBlock => Backpressure
    case Took(n) => if n == 0 || left == 0 then Closed else Sent(if n < left then n else left)
  }

  ghost function Tried(head: Block, now: nat): Option<nat> {
    if head.firstAttempt.None? then Some(now) else head.firstAttempt
  }

  /** The head moved on by n bytes and stays, blocked, with the rest; or all of it went and it is gone. */
  ghost predicate AfterSend(before: seq<Block>, after: seq<Block>, n: nat, now: nat, completed: nat)
    requires before != []
  {
    var head := before[0];
    if head.cursor + n < |head.data| then
      after == [head.(cursor := head.cursor + n, firstAttempt := Tried(head, now), blocked := true,
                      continuationAt := Some(completed))] + before[1..]
    else after == before[1..]
  }

  /** Nothing moved; a would-block is remembered until the socket is reported writable again. */
  ghost predicate AfterRefusal(before: seq<Block>, after: seq<Block>, now: nat, wouldBlock: bool)
    requires before != []
  {
    var head := before[0].(firstAttempt := Tried(before[0], now));
    after == [if wouldBlock then head.(blocked := true, continuationAt := None) else head] + before[1..]
  }

  class Direction {
    const inbound: seq<Byte>
    const schedule: Schedule
    var queue: seq<Block>
    var queued: nat
    var eof: bool
    var received: nat
    var sent: nat
    var highWater: nat
    var chunks: nat
    var completedChunks: nat
    var earlySends: int
    var previousCompleted: nat
    var wire: seq<Byte>
    ghost var departures: seq<Departure>

    ghost function First(): int
      reads `queue, schedule
    {
      |schedule.arrivals| - |queue|
    }

    ghost predicate QueueShape()
      reads this, schedule
    {
      schedule.Valid() && Ordered(queue, schedule.model, schedule.arrivals)
    }

    /** Every byte read is on the wire or queued, in order. */
    ghost predicate Conserved()
      reads `queue, `queued, `received, `sent, `highWater, `wire
    {
      && (forall k :: 0 <= k < |queue| ==> queue[k].cursor <= |queue[k].data|)
      && received <= |inbound| && wire + Unsent(queue) == inbound[..received]
      && sent == |wire| && queued == |Unsent(queue)| && queued <= highWater <= QUEUE_LIMIT
    }

    /** No send was begun before its block was due. */
    ghost predicate OnTime()
      requires schedule.model.Valid()
      reads `departures, `earlySends, schedule
    {
      && earlySends == 0
      && forall d :: d in departures ==>
        && d.block < |schedule.arrivals| && Due(schedule.model, schedule.arrivals[..d.block + 1]) <= d.started
        && d.started <= d.completed
    }

    ghost predicate Valid()
      reads this, schedule
    {
      && QueueShape() && Conserved() && OnTime()
      && chunks == |schedule.arrivals| && completedChunks == First()
    }

    constructor (inbound: seq<Byte>, schedule: Schedule)
      requires schedule.Valid() && schedule.arrivals == []
      ensures Valid() && this.inbound == inbound && this.schedule == schedule && wire == [] && received == 0
    {
      this.inbound, this.schedule := inbound, schedule;
      queue, queued, eof, received, sent, highWater := [], 0, false, 0, 0, 0;
      chunks, completedChunks, earlySends, previousCompleted := 0, 0, 0, 0;
      wire, departures := [], [];
    }

    /** What one read delivers: at most READ_LIMIT bytes, never beyond the room left in the queue; zero is the end. */
    function ReadSize(offered: nat): (size: nat)
      requires queued <= QUEUE_LIMIT && received <= |inbound|
      reads `queued, `received
    {
      Least(offered, Least(READ_LIMIT, Least(QUEUE_LIMIT - queued, |inbound| - received)))
    }

    /** One read: it is skipped without room or after the end, and otherwise queues one scheduled block. */
    method Read(answer: Io, arrival: nat, propagation: nat)
      requires Valid() && schedule.model.low <= propagation <= schedule.model.high
      modifies this, schedule
      ensures Valid() && unchanged(`wire) && unchanged(`departures)
      ensures old(queued) >= QUEUE_LIMIT || old(eof) || answer.WouldBlock? ==> unchanged(this) && unchanged(schedule)
      ensures queued <= 1048576 && received <= old(received) + 4096
      ensures old(queued) < 1048576 && !old(eof) && answer.Took? ==>
        && var size := old(ReadSize(answer.n));
        && size <= answer.n && (size < answer.n ==>
             size == 4096 || old(queued) + size == 1048576 || old(received) + size == |inbound|)
        && eof == (size == 0) && received == old(received) + size && queued == old(queued) + size
        && schedule.arrivals == old(schedule.arrivals)
             + (if size == 0 then [] else [Arrival(arrival, size, propagation)])
        && |queue| == |old(queue)| + (if size == 0 then 0 else 1)
        && queue[..|old(queue)|] == old(queue)
        && (size > 0 ==>
              && queue[|old(queue)|].data == inbound[old(received)..received]
              && queue[|old(queue)|] == Block(queue[|old(queue)|].data, old(schedule.offset), arrival, schedule.tx,
                                              propagation, schedule.due, 0, None, false, None))
    {
      if queued >= QUEUE_LIMIT || eof || answer.WouldBlock? {
        return;
      }
      var size := ReadSize(answer.n);
      if size == 0 {
        eof := true;
        return;
      }
      var data := inbound[received..received + size];
      Accept(data, arrival, propagation);
    }

    method Accept(data: seq<Byte>, arrival: nat, propagation: nat)
      requires Valid() && schedule.model.low <= propagation <= schedule.model.high
      requires 0 < |data| <= QUEUE_LIMIT - queued && received + |data| <= |inbound|
      requires data == inbound[received..received + |data|]
      modifies this, schedule
      ensures Valid() && unchanged(`wire) && unchanged(`departures) && received == old(received) + |data|
      ensures schedule.arrivals == old(schedule.arrivals) + [Arrival(arrival, |data|, propagation)]
      ensures queue == old(queue) + [Block(data, old(schedule.offset), arrival, schedule.tx, propagation, schedule.due,
                                           0, None, false, None)]
      ensures queued == old(queued) + |data| && unchanged(`eof)
    {
      hide Tx, Due, Bytes, Unsent, Ordered, WithinModel;
      ghost var before, m := schedule.arrivals, schedule.model;
      OrderedAreSmall(queue, m, before);
      var at := schedule.Enqueue(arrival, |data|, propagation);
      ghost var after := schedule.arrivals;
      var block := Block(data, at, arrival, schedule.tx, propagation, schedule.due, 0, None, false, None);
      AppendKeepsOrder(queue, m, before, block, Arrival(arrival, |data|, propagation));
      DeparturesKeep(departures, m, before, after);
      Store(block);
      chunks := chunks + 1;
    }

    /** Puts a freshly read block at the end of the queue. */
    method Store(block: Block)
      requires Conserved() && block.cursor == 0 && 0 < |block.data| <= QUEUE_LIMIT - queued
      requires received + |block.data| <= |inbound| && block.data == inbound[received..received + |block.data|]
      modifies `queue, `queued, `received, `highWater
      ensures Conserved() && queue == old(queue) + [block] && received == old(received) + |block.data|
      ensures queued == old(queued) + |block.data|
    {
      UnsentAppend(queue, block);
      hide Unsent;
      assert block.data[0..] == block.data;
      assert inbound[..received] + block.data == inbound[..received + |block.data|];
      queue := queue + [block];
      queued := queued + |block.data|;
      received := received + |block.data|;
      highWater := if queued > highWater then queued else highWater;
    }

    /** One send attempt on the head block, refused before it is due and, after a first attempt, unless the socket
        was reported writable; its result is what the system answers. `now` is read before the send and `completed`
        after it. */
    method ProgressHead(now: nat, completed: nat, writableAt: Option<nat>, knownWritable: bool, answer: Io)
      returns (r: Progress)
      requires Valid() && queue != [] && now <= completed
      modifies this
      ensures Valid() && unchanged(`received)
      ensures r.Early? <==> now < old(queue[0]).due
      ensures r.NotWritable? <==>
        && old(queue[0]).due <= now && old(queue[0]).firstAttempt.Some? && writableAt.None?
        && !(knownWritable && old(queue[0]).continuationAt.Some?)
      ensures r.Early? || r.NotWritable? ==> unchanged(this)
      ensures !r.Early? && !r.NotWritable? ==> r == Answered(old(queue[0]), answer)
      ensures r.Sent? ==>
        && AfterSend(old(queue), queue, r.n, now, completed) && queued == old(queued) - r.n
        && departures == old(departures) + [Departure(old(First()), now, completed)]
        && wire == old(wire) + old(queue[0]).data[old(queue[0]).cursor..old(queue[0]).cursor + r.n]
        && previousCompleted == (if |queue| < |old(queue)| then completed else old(previousCompleted))
      ensures r.Backpressure? || r.Closed? ==>
        AfterRefusal(old(queue), queue, now, r.Backpressure?) && unchanged(`queued) && unchanged(`previousCompleted)
      ensures !r.Sent? ==> unchanged(`wire) && unchanged(`departures)
    {
      HeadIsPartial();
      hide Valid, AfterSend, AfterRefusal;
      if now < queue[0].due {
        return Early;
      }
      if queue[0].firstAttempt.Some? && writableAt.None? && !(knownWritable && queue[0].continuationAt.Some?) {
        return NotWritable;
      }
      r := Attempt(now, completed, answer);
    }

    /** The attempt itself. */
    method Attempt(now: nat, completed: nat, answer: Io) returns (r: Progress)
      requires Valid() && queue != [] && queue[0].due <= now <= completed && queue[0].cursor < |queue[0].data|
      modifies this
      ensures Valid() && unchanged(`received) && r == Answered(old(queue[0]), answer)
      ensures r.Sent? ==>
        && AfterSend(old(queue), queue, r.n, now, completed) && queued == old(queued) - r.n
        && departures == old(departures) + [Departure(old(First()), now, completed)]
        && wire == old(wire) + old(queue[0]).data[old(queue[0]).cursor..old(queue[0]).cursor + r.n]
        && previousCompleted == (if |queue| < |old(queue)| then completed else old(previousCompleted))
      ensures !r.Sent? ==>
        && AfterRefusal(old(queue), queue, now, r.Backpressure?) && unchanged(`queued) && unchanged(`previousCompleted)
        && unchanged(`wire) && unchanged(`departures)
    {
      hide Valid;
      var block := queue[0];
      var attempted := block.(firstAttempt := if block.firstAttempt.None? then Some(now) else block.firstAttempt);
      if answer.WouldBlock? {
        Replace(attempted.(blocked := true, continuationAt := None));
        return Backpressure;
      }
      var n := Least(answer.n, |block.data| - block.cursor);
      if n == 0 {
        Replace(attempted);
        return Closed;
      }
      Release(attempted, n, now, completed);
      return Sent(n);
    }

    lemma {:induction false} HeadIsPartial()
      requires Valid() && queue != []
      ensures queue[0].cursor < |queue[0].data|
    {
    }

    /** Updates the head's bookkeeping without moving its cursor. */
    method Replace(block: Block)
      requires Valid() && queue != []
      requires block == queue[0].(firstAttempt := block.firstAttempt, blocked := block.blocked,
                                  continuationAt := block.continuationAt)
      modifies `queue
      ensures Valid() && queue == [block] + old(queue)[1..]
    {
      hide Tx, Due, Bytes;
      assert ([block] + queue[1..])[1..] == queue[1..];
      queue := [block] + queue[1..];
    }

    /** The system took n bytes of the head block. */
    method Release(block: Block, n: nat, now: nat, completed: nat)
      requires Valid() && queue != [] && 0 < n <= |block.data| - block.cursor
      requires block == queue[0].(firstAttempt := block.firstAttempt) && block.due <= now <= completed
      modifies this
      ensures Valid() && unchanged(`received) && queued == old(queued) - n
      ensures queue == Advanced(old(queue), block, n, completed)
      ensures departures == old(departures) + [Departure(old(First()), now, completed)]
      ensures previousCompleted == if block.cursor + n < |block.data| then old(previousCompleted) else completed
      ensures wire == old(wire) + block.data[block.cursor..block.cursor + n]
    {
      HeadIsScheduled(queue, schedule.model, schedule.arrivals);
      hide Tx, Due, Bytes, Unsent;
      AdvancedKeepsOrder(queue, block, n, completed, schedule.model, schedule.arrivals);
      hide Ordered, Advanced, WithinModel, OnTime, Conserved, Schedule.Valid;
      Depart(block.due, now, completed);
      if block.cursor + n == |block.data| {
        completedChunks := completedChunks + 1;
        previousCompleted := completed;
      }
      Move(block, n, completed);
    }

    /** Records a send of the head block. */
    method Depart(due: nat, now: nat, completed: nat)
      requires schedule.model.Valid() && OnTime() && 0 <= First() < |schedule.arrivals|
      requires due == Due(schedule.model, schedule.arrivals[..First() + 1]) && due <= now <= completed
      modifies `departures, `earlySends
      ensures OnTime() && departures == old(departures) + [Departure(First(), now, completed)]
    {
      hide Due;
      earlySends := if completed < due then earlySends + 1 else earlySends;
      departures := departures + [Departure(First(), now, completed)];
    }

    /** Moves n bytes of the head block to the wire. */
    method Move(block: Block, n: nat, completed: nat)
      requires Conserved() && queue != [] && 0 < n <= |block.data| - block.cursor
      requires block == queue[0].(firstAttempt := block.firstAttempt)
      modifies `wire, `sent, `queued, `queue
      ensures Conserved() && queue == Advanced(old(queue), block, n, completed) && queued == old(queued) - n
      ensures wire == old(wire) + block.data[block.cursor..block.cursor + n]
    {
      hide Unsent, Advanced;
      AdvancedIsUnsent(queue, block, n, completed);
      wire := wire + block.data[block.cursor..block.cursor + n];
      sent := sent + n;
      queued := queued - n;
      queue := Advanced(queue, block, n, completed);
    }
  }

  lemma {:induction false} OrderedAreSmall(queue: seq<Block>, m: LinkModel, arrivals: seq<Arrival>)
    requires m.Valid() && Ordered(queue, m, arrivals)
    ensures |queue| <= |arrivals|
  {
  }

  lemma {:induction false} HeadIsScheduled(queue: seq<Block>, m: LinkModel, arrivals: seq<Arrival>)
    requires m.Valid() && Ordered(queue, m, arrivals) && queue != []
    ensures |queue| <= |arrivals| && queue[0].due == Due(m, arrivals[..|arrivals| - |queue| + 1])
  {
    assert Scheduled(queue[0], m, arrivals, |arrivals| - |queue| + 0);
  }

  lemma {:induction false} AppendKeepsOrder(queue: seq<Block>, m: LinkModel, arrivals: seq<Arrival>, b: Block,
      a: Arrival)
    requires m.Valid() && Ordered(queue, m, arrivals)
    requires b.cursor == 0 < |b.data| && b.firstAttempt.None?
    requires b.arrival == a.at && |b.data| == a.size && b.propagation == a.propagation
    requires b.tx == Tx(m, arrivals + [a]) && b.due == Due(m, arrivals + [a]) && b.offset == Bytes(arrivals)
    ensures Ordered(queue + [b], m, arrivals + [a])
  {
    hide Tx, Due, Bytes;
    var after := arrivals + [a];
    assert after[..|arrivals|] == arrivals && after[..|arrivals| + 1] == after;
    forall k | 0 <= k < |queue|
      ensures Scheduled(queue[k], m, after, |arrivals| - |queue| + k)
    {
      var i := |arrivals| - |queue| + k;
      assert Scheduled(queue[k], m, arrivals, i);
      assert after[..i + 1] == arrivals[..i + 1] && after[..i] == arrivals[..i];
    }
  }

  lemma {:induction false} DeparturesKeep(departures: seq<Departure>, m: LinkModel, arrivals: seq<Arrival>,
      after: seq<Arrival>)
    requires m.Valid() && arrivals <= after
    requires forall d :: d in departures ==> d.block < |arrivals| && Due(m, arrivals[..d.block + 1]) <= d.started
    ensures forall d :: d in departures ==> d.block < |after| && Due(m, after[..d.block + 1]) <= d.started
  {
    hide Due;
    forall d | d in departures
      ensures d.block < |after| && Due(m, after[..d.block + 1]) <= d.started
    {
      assert after[..d.block + 1] == arrivals[..d.block + 1];
    }
  }

  function Least(a: nat, b: nat): nat {
    if a < b then a else b
  }

  datatype Event = ReadEvent(answer: Io, arrival: nat, propagation: nat)
    | SendEvent(now: nat, wait: nat, writableAt: Option<nat>, knownWritable: bool, answer: Io)

  /** Any interleaving of reads and sends, short or blocked. What was delivered is a prefix of what was read, exactly as
      many bytes as the system took, all of it accounted for, and no send was begun before the release bound of its
      block. */
  method RunDirection(d: Direction, events: seq<Event>) returns (accepted: nat)
    requires d.Valid() && d.wire == [] && d.received == 0
    requires forall k :: 0 <= k < |events| && events[k].ReadEvent? ==>
      d.schedule.model.low <= events[k].propagation <= d.schedule.model.high
    modifies d, d.schedule
    ensures d.Valid() && d.wire <= d.inbound[..d.received]
    ensures d.received == |d.wire| + d.queued <= |d.wire| + 1048576 && accepted == |d.wire| == d.sent
    ensures forall x, i :: x in d.departures && 0 <= i <= x.block && x.block < |d.schedule.arrivals| ==>
      x.started >= d.schedule.arrivals[i].at
        + TotalSerialization(d.schedule.model, d.schedule.arrivals[i..x.block + 1]) + d.schedule.model.low
  {
    accepted := 0;
    for k := 0 to |events|
      invariant d.Valid() && accepted == |d.wire|
    {
      match events[k] {
        case ReadEvent(answer, arrival, propagation) =>
          d.Read(answer, arrival, propagation);
        case SendEvent(now, wait, writableAt, knownWritable, answer) =>
          if d.queue != [] {
            var offered := |d.queue[0].data| - d.queue[0].cursor;
            var r := d.ProgressHead(now, now + wait, writableAt, knownWritable, answer);
            if r.Sent? {
              accepted := accepted + if answer.n < offered then answer.n else offered;
            }
          }
      }
    }
    hide Tx, Due, Bytes, TotalSerialization;
    ghost var m, a := d.schedule.model, d.schedule.arrivals;
    forall x, i | x in d.departures && 0 <= i <= x.block && x.block < |a|
      ensures x.started >= a[i].at + TotalSerialization(m, a[i..x.block + 1]) + m.low
    {
      DueBound(m, a, i, x.block + 1);
    }
    assert |d.inbound[..d.received]| == d.received;
  }
}
