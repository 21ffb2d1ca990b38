/** Credit-based material supply: a producing worker, the parent's receiver and credit threads, and a claiming
    thread, interleaved in any order over two FIFO pipes. */
module MaterialCredit {
  import opened Options

  datatype Packet = Credit(prefix: nat) | StopPacket
  datatype Item = Material(step: nat) | Report(failed: bool)

  /** The parent side; last, sentBegin and pending belong to the credit thread, which reads under the lock and sends
      outside it. */
  datatype Pool = Pool(queue: seq<nat>, received: nat, next: nat, allowed: nat, last: Option<nat>, begin: bool,
                       sentBegin: bool, pending: Option<Packet>, stopSent: bool, stop: bool, failed: bool,
                       finished: bool)
  datatype Worker = Worker(next: nat, allowed: nat, stop: bool, failed: bool, reported: bool)
  datatype State = State(pool: Pool, worker: Worker, credit: seq<Packet>, output: seq<Item>)

  datatype Config = Config(start: nat, slots: nat, horizon: Option<nat>)

  /** For a claim, whether the process is alive and whether the last capability is still unbound are observations. */
  datatype Action = Generate | Command | SendReport | Receive | ReadCredit | SendCredit
    | Take(step: nat, alive: bool, unbound: bool) | BeginControl | Close

  function Initial(k: Config): State {
    State(Pool([], k.start, k.start, k.start + k.slots, None, false, false, None, false, false, false, false),
          Worker(k.start, k.start, false, false, false), [], [])
  }

  // ----- each thread's step as a function of the state -----

  predicate Enabled(s: State, a: Action) {
    var p, w := s.pool, s.worker;
    match a
    case Generate => !w.stop && !w.failed && w.next < w.allowed
    case Command => !w.stop && !w.failed && s.credit != []
    case SendReport => (w.stop || w.failed) && !w.reported
    case Receive => !p.failed && !p.finished && s.output != []
    case ReadCredit =>
      !p.stopSent && p.pending.None? && (p.stop || p.last != Some(p.allowed) || p.begin != p.sentBegin)
    case SendCredit => p.pending.Some?
    case Take(_, _, _) => true
    case BeginControl => true
    case Close => !p.stop
  }

  function Generated(k: Config, s: State): State {
    var w := s.worker;
    if k.horizon.Some? && w.next >= k.horizon.value then s.(worker := w.(failed := true))
    else s.(worker := w.(next := w.next + 1), output := s.output + [Material(w.next)])
  }

  /** The worker refuses a prefix that goes back or runs ahead of its own window. */
  function Commanded(k: Config, s: State): State
    requires s.credit != []
  {
    var w, rest := s.worker, s.credit[1..];
    match s.credit[0]
    case StopPacket => s.(worker := w.(stop := true), credit := rest)
    case Credit(prefix) =>
      if prefix < w.allowed || prefix > w.next + k.slots then s.(worker := w.(failed := true), credit := rest)
      else s.(worker := w.(allowed := prefix), credit := rest)
  }

  /** The receiver refuses a wrong step, and material beyond the credit or the slots; after a stop it only counts. */
  function ReceivedOne(k: Config, s: State): State
    requires s.output != []
  {
    var p, rest := s.pool, s.output[1..];
    match s.output[0]
    case Report(failed) =>
      s.(pool := if !p.stop || failed then p.(failed := true) else p.(finished := true), output := rest)
    case Material(step) =>
      if step != p.received then s.(pool := p.(failed := true), output := rest)
      else if p.stop then s.(pool := p.(received := p.received + 1), output := rest)
      else if p.received >= p.allowed || |p.queue| >= k.slots then s.(pool := p.(failed := true), output := rest)
      else s.(pool := p.(queue := p.queue + [step], received := p.received + 1), output := rest)
  }

  function CreditRead(s: State): State {
    var p := s.pool;
    s.(pool := if p.stop then p.(pending := Some(StopPacket))
               else p.(pending := Some(Credit(p.allowed)), last := Some(p.allowed), sentBegin := p.begin))
  }

  function CreditSent(s: State): State
    requires s.pool.pending.Some?
  {
    var p, packet := s.pool, s.pool.pending.value;
    s.(pool := p.(pending := None, stopSent := packet.StopPacket?), credit := s.credit + [packet])
  }

  /** Claims exactly the next step, and frees one slot of credit; anything else is refused. */
  function Taken(s: State, step: nat, alive: bool, unbound: bool): State {
    var p := s.pool;
    if p.stop || p.failed || !alive || p.queue == [] || step != p.next || unbound then s
    else s.(pool := p.(queue := p.queue[1..], next := p.next + 1, allowed := p.allowed + 1))
  }

  function Apply(k: Config, s: State, a: Action): State
    requires Enabled(s, a)
  {
    match a
    case Generate => Generated(k, s)
    case Command => Commanded(k, s)
    case SendReport => s.(worker := s.worker.(reported := true), output := s.output + [Report(s.worker.failed)])
    case Receive => ReceivedOne(k, s)
    case ReadCredit => CreditRead(s)
    case SendCredit => CreditSent(s)
    case Take(step, alive, unbound) => Taken(s, step, alive, unbound)
    case BeginControl => s.(pool := s.pool.(begin := true))
    case Close => s.(pool := s.pool.(stop := true, queue := []))
  }

  /** What each refusal costs: the worker fails on a credit that goes back or too far, the receiver on a wrong step, on
      material without credit or room, and on a report it did not ask for. */
  lemma {:induction false} RefusalsFail(k: Config, s: State)
    ensures s.credit != [] && s.credit[0].Credit? ==>
      var w, prefix := s.worker, s.credit[0].prefix;
      Commanded(k, s).worker
      == if w.allowed <= prefix <= w.next + k.slots then w.(allowed := prefix) else w.(failed := true)
    ensures s.output != [] && s.output[0].Material? ==>
      var p, step := s.pool, s.output[0].step;
      var wrong := step != p.received || (!p.stop && (p.received >= p.allowed || |p.queue| >= k.slots));
      && ReceivedOne(k, s).pool.failed == (p.failed || wrong)
      && ReceivedOne(k, s).pool.received == (if wrong then p.received else p.received + 1)
      && ReceivedOne(k, s).pool.queue == if wrong || p.stop then p.queue else p.queue + [step]
    ensures s.output != [] && s.output[0].Report? ==>
      var p, t := s.pool, ReceivedOne(k, s).pool;
      && t.failed == (p.failed || !p.stop || s.output[0].failed)
      && t.finished == (p.finished || (p.stop && !s.output[0].failed))
  {
  }

  /** A claim and the start of control are possible at any time, a close once. */
  lemma {:induction false} AlwaysPossible(s: State, step: nat, alive: bool, unbound: bool)
    ensures Enabled(s, Take(step, alive, unbound)) && Enabled(s, BeginControl) && (Enabled(s, Close) <==> !s.pool.stop)
  {
  }

  // ----- the invariant -----

  function Steps(from: nat, to: nat): (r: seq<nat>)
    requires from <= to
    ensures |r| == to - from
  {
    seq(to - from, i requires 0 <= i < to - from => from + i)
  }

  function Materials(from: nat, to: nat): (r: seq<Item>)
    requires from <= to
    ensures |r| == to - from
  {
    seq(to - from, i requires 0 <= i < to - from => Material(from + i))
  }

  function InFlight(s: State): seq<Packet> {
    s.credit + if s.pool.pending.Some? then [s.pool.pending.value] else []
  }

  /** Credits in flight climb from what the worker allows to what the parent allows; a stop comes last. */
  ghost predicate Climbs(from: nat, packets: seq<Packet>, to: nat) {
    && from <= to
    && (forall i :: 0 <= i < |packets| && packets[i].Credit? ==> from <= packets[i].prefix <= to)
    && (forall i, j :: 0 <= i < j < |packets| && packets[i].Credit? && packets[j].Credit? ==>
          packets[i].prefix <= packets[j].prefix)
    && (forall i :: 0 <= i < |packets| - 1 ==> packets[i].Credit?)
  }

  function ItemsInFlight(s: State): seq<Item>
    requires s.pool.received <= s.worker.next
  {
    Materials(s.pool.received, s.worker.next) + if s.worker.reported then [Report(s.worker.failed)] else []
  }

  ghost predicate Counts(k: Config, s: State) {
    var p, w := s.pool, s.worker;
    && k.start <= p.next <= p.received <= w.next <= w.allowed <= p.allowed == p.next + k.slots
    && (k.horizon.Some? ==> w.next <= k.horizon.value || w.next == k.start)
    && p.queue == (if p.stop then [] else Steps(p.next, p.received))
    && (!p.failed && !p.finished ==> s.output == ItemsInFlight(s))
  }

  /** Nobody fails unless the proven horizon was overrun; nobody stops unless the parent closed. */
  ghost predicate Faults(k: Config, s: State) {
    var p, w := s.pool, s.worker;
    && (w.failed ==> k.horizon.Some? && w.next >= k.horizon.value)
    && (p.failed ==> w.failed)
    && (w.stop ==> p.stop) && (p.finished ==> p.stop) && (p.stopSent ==> p.stop && p.pending.None?)
    && (StopPacket in InFlight(s) ==> p.stop) && (w.stop || StopPacket in s.credit <==> p.stopSent)
    && (w.reported ==> w.stop || w.failed)
  }

  ghost predicate Credits(s: State) {
    var p, w, q := s.pool, s.worker, InFlight(s);
    && Climbs(w.allowed, q, p.allowed)
    && (w.stop || p.stopSent ==> p.pending.None?)
    && (!p.stop && p.last.None? ==> q == [])
    && (!p.stop && p.last.Some? ==>
          if q == [] then p.last.value == w.allowed else q[|q| - 1] == Credit(p.last.value))
  }

  ghost predicate Invariant(k: Config, s: State) {
    Counts(k, s) && Faults(k, s) && Credits(s)
  }

  lemma {:induction false} InitiallyInvariant(k: Config)
    ensures Invariant(k, Initial(k))
  {
  }

  lemma {:induction false} GenerateKeeps(k: Config, s: State)
    requires Invariant(k, s) && Enabled(s, Generate)
    ensures Invariant(k, Apply(k, s, Generate))
  {
    MaterialsExtend(s.pool.received, s.worker.next);
    hide Steps, Materials;
    var t := Apply(k, s, Generate);
    assert InFlight(t) == InFlight(s);
    NotReported(k, s);
  }

  lemma {:induction false} NotReported(k: Config, s: State)
    requires Faults(k, s) && Enabled(s, Generate)
    ensures !s.worker.reported
  {
  }

  lemma {:induction false} MaterialsExtend(from: nat, to: nat)
    requires from <= to
    ensures Materials(from, to + 1) == Materials(from, to) + [Material(to)]
  {
  }

  lemma {:induction false} CommandKeeps(k: Config, s: State)
    requires Invariant(k, s) && Enabled(s, Command)
    ensures Invariant(k, Apply(k, s, Command)) && !Apply(k, s, Command).worker.failed
  {
    hide Steps, Materials;
    var t := Apply(k, s, Command);
    assert InFlight(s)[0] == s.credit[0];
    assert InFlight(t) == InFlight(s)[1..];
  }

  lemma {:induction false} ReportKeeps(k: Config, s: State)
    requires Invariant(k, s) && Enabled(s, SendReport)
    ensures Invariant(k, Apply(k, s, SendReport))
  {
    hide Steps, Materials;
  }

  lemma {:induction false} MaterialsAdvance(from: nat, to: nat)
    requires from < to
    ensures Materials(from, to)[0] == Material(from) && Materials(from, to)[1..] == Materials(from + 1, to)
    ensures Steps(from, to)[0] == from && Steps(from, to)[1..] == Steps(from + 1, to)
  {
  }

  lemma {:induction false} StepsExtend(from: nat, to: nat)
    requires from <= to
    ensures Steps(from, to + 1) == Steps(from, to) + [to]
  {
  }

  /** The receiver's checks never fire between honest ends: right step, within credit, room in the queue. */
  lemma {:induction false} ReceiveKeeps(k: Config, s: State)
    requires Invariant(k, s) && Enabled(s, Receive)
    ensures Invariant(k, Apply(k, s, Receive))
    ensures s.output[0].Material? ==> !Apply(k, s, Receive).pool.failed
  {
    ReceivedFields(k, s);
    SameCredits(s, ReceivedOne(k, s));
    hide Credits, ReceivedOne;
    if s.pool.received < s.worker.next {
      MaterialReceived(k, s);
    } else {
      ReportReceived(k, s);
    }
    hide Counts, Faults;
  }

  lemma {:induction false} MaterialReceived(k: Config, s: State)
    requires Counts(k, s) && Faults(k, s) && Enabled(s, Receive) && s.pool.received < s.worker.next
    ensures var t := ReceivedOne(k, s); Counts(k, t) && Faults(k, t) && !t.pool.failed
  {
    var from, to := s.pool.received, s.worker.next;
    var report := if s.worker.reported then [Report(s.worker.failed)] else [];
    MaterialsAdvance(from, to);
    StepsExtend(s.pool.next, from);
    hide Steps, Materials;
    assert s.output[0] == Material(from);
    assert (Materials(from, to) + report)[1..] == Materials(from + 1, to) + report;
    assert InFlight(ReceivedOne(k, s)) == InFlight(s);
    hide InFlight;
  }

  lemma {:induction false} ReportReceived(k: Config, s: State)
    requires Counts(k, s) && Faults(k, s) && Enabled(s, Receive) && s.pool.received == s.worker.next
    ensures var t := ReceivedOne(k, s); Counts(k, t) && Faults(k, t) && s.output[0].Report?
  {
    hide Steps;
    assert s.output == [Report(s.worker.failed)];
    hide Materials;
    assert InFlight(ReceivedOne(k, s)) == InFlight(s);
    hide InFlight;
  }

  /** The receiver touches neither the credits nor the worker. */
  lemma {:induction false} ReceivedFields(k: Config, s: State)
    requires s.output != []
    ensures var p, t := s.pool, ReceivedOne(k, s);
      && t.worker == s.worker && t.credit == s.credit && t.output == s.output[1..]
      && t.pool == p.(queue := t.pool.queue, received := t.pool.received, failed := t.pool.failed,
                      finished := t.pool.finished)
  {
  }

  lemma {:induction false} SameCredits(s: State, t: State)
    requires t.worker == s.worker && t.credit == s.credit && Credits(s)
    requires t.pool == s.pool.(queue := t.pool.queue, received := t.pool.received, failed := t.pool.failed,
                               finished := t.pool.finished)
    ensures Credits(t) && InFlight(t) == InFlight(s)
  {
    hide Climbs;
    assert InFlight(t) == InFlight(s);
  }

  lemma {:induction false} ClimbsFurther(from: nat, q: seq<Packet>, to: nat)
    requires Climbs(from, q, to)
    ensures Climbs(from, q, to + 1)
  {
  }

  lemma {:induction false} ClimbsOn(from: nat, q: seq<Packet>, to: nat, m: Packet)
    requires Climbs(from, q, to) && StopPacket !in q && (m == StopPacket || m == Credit(to))
    ensures Climbs(from, q + [m], to)
  {
    forall i | 0 <= i < |q|
      ensures q[i].Credit?
    {
      assert q[i] in q;
    }
  }

  lemma {:induction false} ReadKeeps(k: Config, s: State)
    requires Invariant(k, s) && Enabled(s, ReadCredit)
    ensures Invariant(k, Apply(k, s, ReadCredit))
  {
    var t := Apply(k, s, ReadCredit);
    assert InFlight(s) == s.credit && InFlight(t) == s.credit + [t.pool.pending.value];
    ClimbsOn(s.worker.allowed, s.credit, s.pool.allowed, t.pool.pending.value);
    hide Steps, Materials, Climbs, InFlight;
  }

  lemma {:induction false} SendKeeps(k: Config, s: State)
    requires Invariant(k, s) && Enabled(s, SendCredit)
    ensures Invariant(k, Apply(k, s, SendCredit))
  {
    hide Steps, Materials, Climbs;
    assert InFlight(Apply(k, s, SendCredit)) == InFlight(s);
  }

  lemma {:induction false} TakeKeeps(k: Config, s: State, step: nat, alive: bool, unbound: bool)
    requires Invariant(k, s)
    ensures Invariant(k, Taken(s, step, alive, unbound))
  {
    if s.pool.next < s.pool.received {
      MaterialsAdvance(s.pool.next, s.pool.received);
    }
    ClimbsFurther(s.worker.allowed, InFlight(s), s.pool.allowed);
    hide Steps, Materials, Climbs;
    assert InFlight(Taken(s, step, alive, unbound)) == InFlight(s);
  }

  lemma {:induction false} BeginKeeps(k: Config, s: State)
    requires Invariant(k, s) && Enabled(s, BeginControl)
    ensures Invariant(k, Apply(k, s, BeginControl))
  {
    hide Steps, Materials;
    assert InFlight(Apply(k, s, BeginControl)) == InFlight(s);
  }

  lemma {:induction false} CloseKeeps(k: Config, s: State)
    requires Invariant(k, s) && Enabled(s, Close)
    ensures Invariant(k, Apply(k, s, Close))
  {
    hide Steps, Materials;
    assert InFlight(Apply(k, s, Close)) == InFlight(s);
  }

  lemma {:induction false} StepKeeps(k: Config, s: State, a: Action)
    requires Invariant(k, s) && Enabled(s, a)
    ensures Invariant(k, Apply(k, s, a))
  {
    hide Invariant;
    match a
    case Generate => GenerateKeeps(k, s);
    case Command => CommandKeeps(k, s);
    case SendReport => ReportKeeps(k, s);
    case Receive => ReceiveKeeps(k, s);
    case ReadCredit => ReadKeeps(k, s);
    case SendCredit => SendKeeps(k, s);
    case Take(step, alive, unbound) => TakeKeeps(k, s, step, alive, unbound);
    case BeginControl => BeginKeeps(k, s);
    case Close => CloseKeeps(k, s);
  }

  // ----- whole runs -----

  ghost predicate IsRun(k: Config, run: seq<State>, actions: seq<Action>) {
    && |run| == |actions| + 1
    && forall i :: 0 <= i < |actions| ==> Enabled(run[i], actions[i]) && run[i + 1] == Apply(k, run[i], actions[i])
  }

  lemma {:induction false} RunsKeep(k: Config, run: seq<State>, actions: seq<Action>, i: nat)
    requires IsRun(k, run, actions) && Invariant(k, run[0]) && i < |run|
    ensures Invariant(k, run[i])
  {
    hide Invariant, Apply, Enabled;
    if i > 0 {
      RunsKeep(k, run, actions, i - 1);
      assert run[i] == Apply(k, run[i - 1], actions[i - 1]);
      StepKeeps(k, run[i - 1], actions[i - 1]);
    }
  }

  /** The window, in every interleaving: the inequalities, the queue's exact contents; no step at or past a declared
      horizon is ever produced, and no check fires before the worker gets there. */
  lemma {:induction false} WindowHolds(k: Config, run: seq<State>, actions: seq<Action>, i: nat)
    requires IsRun(k, run, actions) && run[0] == Initial(k) && i < |run|
    ensures var p, w := run[i].pool, run[i].worker;
      && k.start <= p.next <= p.received <= w.next <= w.allowed <= p.allowed == p.next + k.slots
      && p.queue == (if p.stop then [] else Steps(p.next, p.received)) && |p.queue| <= k.slots
      && (k.horizon.None? ==> !w.failed && !p.failed)
      && (k.horizon.Some? ==> w.next <= k.horizon.value || w.next == k.start)
      && (k.horizon.Some? && (w.failed || p.failed) ==> w.next >= k.horizon.value)
  {
    InitiallyInvariant(k);
    RunsKeep(k, run, actions, i);
    hide Steps, Materials, IsRun;
  }

  // ----- progress -----

  /** The steps of the supply itself, without the claiming thread and without closing. */
  predicate Supply(a: Action) {
    !a.Take? && !a.Close? && !a.BeginControl?
  }

  function Work(s: State): int {
    var p, w := s.pool, s.worker;
    2 * (p.allowed - w.next) + |s.output| + |s.credit| + (if p.pending.Some? then 2 else 0)
    + (if p.stop then (if p.stopSent || p.pending == Some(StopPacket) then 0 else 3)
       else (if p.last == Some(p.allowed) then 0 else 3) + (if p.begin == p.sentBegin then 0 else 3))
    + (if w.reported then 0 else 2) + (if w.failed || w.stop then 0 else 1)
  }

  lemma {:induction false} WorkIsNatural(k: Config, s: State)
    requires Invariant(k, s)
    ensures Work(s) >= 0
  {
    hide Steps, Materials, Climbs, InFlight;
  }

  lemma {:induction false} SupplyCountsDown(k: Config, s: State, a: Action)
    requires Invariant(k, s) && Enabled(s, a) && Supply(a)
    ensures 0 <= Work(Apply(k, s, a)) < Work(s)
    ensures Apply(k, s, a).pool.stop == s.pool.stop && Apply(k, s, a).pool.next == s.pool.next
  {
    StepKeeps(k, s, a);
    WorkIsNatural(k, Apply(k, s, a));
    PendingFacts(k, s);
    hide Invariant, Work;
    if a.Command? {
      CommandCountsDown(k, s);
    } else if a.Receive? {
      hide Generated, Commanded;
      ReceiveCountsDown(k, s);
    } else {
      OthersCountDown(k, s, a);
    }
  }

  lemma {:induction false} PendingFacts(k: Config, s: State)
    requires Invariant(k, s)
    ensures s.pool.pending.Some? ==> !s.pool.stopSent
    ensures s.pool.pending == Some(StopPacket) ==> s.pool.stop
  {
    hide Steps, Materials, Climbs;
  }

  lemma {:induction false} CommandCountsDown(k: Config, s: State)
    requires Invariant(k, s) && Enabled(s, Command)
    ensures Work(Commanded(k, s)) < Work(s) && Commanded(k, s).pool == s.pool
  {
    CommandKeeps(k, s);
    hide Invariant;
  }

  lemma {:induction false} ReceiveCountsDown(k: Config, s: State)
    requires Enabled(s, Receive)
    ensures Work(ReceivedOne(k, s)) < Work(s)
    ensures ReceivedOne(k, s).pool.stop == s.pool.stop && ReceivedOne(k, s).pool.next == s.pool.next
  {
    ReceivedFields(k, s);
    hide ReceivedOne;
  }

  lemma {:induction false} OthersCountDown(k: Config, s: State, a: Action)
    requires Enabled(s, a) && (a.Generate? || a.SendReport? || a.ReadCredit? || a.SendCredit?)
    requires s.pool.pending.Some? ==> !s.pool.stopSent
    requires s.pool.pending == Some(StopPacket) ==> s.pool.stop
    ensures Work(Apply(k, s, a)) < Work(s)
    ensures Apply(k, s, a).pool.stop == s.pool.stop && Apply(k, s, a).pool.next == s.pool.next
  {
    hide Commanded, ReceivedOne, Taken;
  }

  /** Until the queue is full there is always a step to take. */
  lemma {:induction false} SupplyProgress(k: Config, s: State) returns (a: Action)
    requires Invariant(k, s) && k.horizon.None? && !s.pool.stop && |s.pool.queue| < k.slots
    ensures Supply(a) && Enabled(s, a)
  {
    var p, w := s.pool, s.worker;
    hide Steps, Materials;
    if s.output != [] {
      return Receive;
    } else if w.next < w.allowed {
      return Generate;
    } else if s.credit != [] {
      return Command;
    } else if p.pending.Some? {
      return SendCredit;
    } else {
      return ReadCredit;
    }
  }

  /** After a close there is a step to take until the worker's report has been read. */
  lemma {:induction false} ShutdownProgress(k: Config, s: State) returns (a: Action)
    requires Invariant(k, s) && k.horizon.None? && s.pool.stop && !s.pool.finished
    ensures Supply(a) && Enabled(s, a)
  {
    var p, w := s.pool, s.worker;
    hide Steps, Materials;
    if s.output != [] {
      return Receive;
    } else if w.stop {
      return SendReport;
    } else if s.credit != [] {
      return Command;
    } else if p.pending.Some? {
      return SendCredit;
    } else {
      return ReadCredit;
    }
  }

  lemma {:induction false} SupplyRun(k: Config, run: seq<State>, actions: seq<Action>, i: nat)
    requires IsRun(k, run, actions) && Invariant(k, run[0]) && i < |run|
    requires forall j :: 0 <= j < |actions| ==> Supply(actions[j])
    ensures Invariant(k, run[i]) && run[i].pool.stop == run[0].pool.stop && run[i].pool.next == run[0].pool.next
    ensures i == 0 || 0 <= Work(run[i]) <= Work(run[0]) - i
  {
    hide Invariant, Apply, Enabled, Work;
    if i > 0 {
      SupplyRun(k, run, actions, i - 1);
      assert run[i] == Apply(k, run[i - 1], actions[i - 1]);
      SupplyCountsDown(k, run[i - 1], actions[i - 1]);
      StepKeeps(k, run[i - 1], actions[i - 1]);
    }
  }

  /** Left to itself, in any order, the supply comes to rest after boundedly many steps: with a full queue while the
      pool is open, and with a clean end of the receiver once it is closed. */
  lemma {:induction false} SupplyComesToRest(k: Config, run: seq<State>, actions: seq<Action>)
    requires IsRun(k, run, actions) && Invariant(k, run[0]) && k.horizon.None?
    requires forall j :: 0 <= j < |actions| ==> Supply(actions[j])
    ensures actions != [] ==> |actions| <= Work(run[0])
    ensures var t := run[|actions|];
      (forall a :: Supply(a) ==> !Enabled(t, a)) ==>
        if run[0].pool.stop then t.pool.finished && !t.pool.failed
        else
          && t.pool.queue == Steps(run[0].pool.next, run[0].pool.next + k.slots)
          && t.worker.allowed == t.pool.allowed && t.pool.sentBegin == t.pool.begin
  {
    var t := run[|actions|];
    SupplyRun(k, run, actions, |actions|);
    NoFaults(k, t);
    hide Apply, Work, IsRun, Steps, Materials;
    if t.pool.stop {
      if !t.pool.finished {
        var a := ShutdownProgress(k, t);
        assert Supply(a) && Enabled(t, a);
      }
    } else if |t.pool.queue| < k.slots {
      var a := SupplyProgress(k, t);
      assert Supply(a) && Enabled(t, a);
    }
    if !t.pool.stop && forall a :: Supply(a) ==> !Enabled(t, a) {
      AllAnnounced(k, t);
    }
  }

  /** With nothing left for the credit thread to do, the worker knows of every claim and of the start of control. */
  lemma {:induction false} AllAnnounced(k: Config, s: State)
    requires Invariant(k, s) && k.horizon.None? && !s.pool.stop
    requires forall a :: Supply(a) ==> !Enabled(s, a)
    ensures s.worker.allowed == s.pool.allowed && s.pool.sentBegin == s.pool.begin
  {
    assert Supply(SendCredit) && Supply(ReadCredit) && Supply(Command);
    assert !Enabled(s, SendCredit) && !Enabled(s, ReadCredit) && !Enabled(s, Command);
    hide Steps, Materials;
  }

  lemma {:induction false} NoFaults(k: Config, s: State)
    requires Invariant(k, s) && k.horizon.None?
    ensures !s.pool.failed && !s.worker.failed
  {
  }

  // ----- what the checks alone guarantee -----

  /** The pool's own record: the queue is exactly the received, unclaimed steps, and never exceeds the slots. */
  ghost predicate PoolRecord(k: Config, p: Pool) {
    && k.start <= p.next <= p.received && p.allowed == p.next + k.slots
    && p.queue == (if p.stop then [] else Steps(p.next, p.received))
    && (!p.stop ==> p.received <= p.allowed)
  }

  /** The worker's own record: it never generates beyond its credit, nor holds credit beyond its window. */
  ghost predicate WorkerRecord(k: Config, w: Worker) {
    k.start <= w.next <= w.allowed <= w.next + k.slots
  }

  lemma {:induction false} RecordsKept(k: Config, s: State, a: Action)
    requires Enabled(s, a) && PoolRecord(k, s.pool) && WorkerRecord(k, s.worker)
    ensures PoolRecord(k, Apply(k, s, a).pool) && WorkerRecord(k, Apply(k, s, a).worker)
  {
    var p := s.pool;
    if a.Receive? {
      StepsExtend(p.next, p.received);
    } else if a.Take? && p.next < p.received {
      MaterialsAdvance(p.next, p.received);
    }
    hide Steps;
  }

  /** A step of the supply, or any change whatsoever to what the pipes carry. */
  ghost predicate TamperedStep(k: Config, s: State, a: Action, t: State) {
    (Enabled(s, a) && t == Apply(k, s, a)) || (t.pool == s.pool && t.worker == s.worker)
  }

  /** Whatever the pipes carry, steps are claimed in order from a queue of at most `slots`, and the worker stays
      within its window. */
  lemma {:induction false} ChecksHoldAlone(k: Config, run: seq<State>, actions: seq<Action>, i: nat)
    requires |run| == |actions| + 1 && run[0] == Initial(k) && i < |run|
    requires forall j :: 0 <= j < |actions| ==> TamperedStep(k, run[j], actions[j], run[j + 1])
    ensures PoolRecord(k, run[i].pool) && WorkerRecord(k, run[i].worker)
    ensures |run[i].pool.queue| <= k.slots
  {
    if i > 0 {
      ChecksHoldAlone(k, run, actions, i - 1);
      assert TamperedStep(k, run[i - 1], actions[i - 1], run[i]);
      if Enabled(run[i - 1], actions[i - 1]) && run[i] == Apply(k, run[i - 1], actions[i - 1]) {
        RecordsKept(k, run[i - 1], actions[i - 1]);
      }
    }
    hide Steps, Apply, Enabled;
  }

  // ----- the pool as the object the three parent threads share -----

  class MaterialPool {
    const slots: nat
    var queue: seq<nat>
    var received: nat
    var next: nat
    var allowed: nat
    var last: Option<nat>
    var begin: bool
    var sentBegin: bool
    var pending: Option<Packet>
    var stopSent: bool
    var stop: bool
    var failed: bool
    var finished: bool

    function View(): Pool
      reads this
    {
      Pool(queue, received, next, allowed, last, begin, sentBegin, pending, stopSent, stop, failed, finished)
    }

    constructor (k: Config)
      ensures View() == Initial(k).pool && slots == k.slots
    {
      slots := k.slots;
      queue, received, next, allowed := [], k.start, k.start, k.start + k.slots;
      last, begin, sentBegin, pending := None, false, false, None;
      stopSent, stop, failed, finished := false, false, false, false;
    }

    /** The receiver thread, one packet. */
    method ReceiveOne(item: Item, ghost k: Config, ghost s: State)
      requires k.slots == slots && s.pool == View() && s.output != [] && s.output[0] == item
      modifies this
      ensures View() == ReceivedOne(k, s).pool
    {
      match item
      case Report(workerFailed) =>
        if !stop || workerFailed {
          failed := true;
        } else {
          finished := true;
        }
      case Material(step) =>
        if step != received {
          failed := true;
          return;
        }
        if stop {
          received := received + 1;
          return;
        }
        if received >= allowed || |queue| >= slots {
          failed := true;
          return;
        }
        queue := queue + [step];
        received := received + 1;
    }

    /** The credit thread, under the lock: several claims may be announced by one cumulative credit. */
    method ReadCredit(ghost s: State)
      requires s.pool == View()
      modifies this
      ensures View() == CreditRead(s).pool
    {
      if stop {
        pending := Some(StopPacket);
      } else {
        last, sentBegin := Some(allowed), begin;
        pending := Some(Credit(allowed));
      }
    }

    /** The credit thread, outside the lock. */
    method SendCredit(ghost s: State) returns (packet: Packet)
      requires s.pool == View() && pending.Some?
      modifies this
      ensures View() == CreditSent(s).pool && CreditSent(s).credit == s.credit + [packet]
    {
      packet := pending.value;
      pending := None;
      stopSent := packet.StopPacket?;
    }

    /** The claiming thread: the step asked for or nothing. */
    method Take(step: nat, alive: bool, unbound: bool, ghost s: State) returns (claimed: Option<nat>)
      requires s.pool == View()
      modifies this
      ensures View() == Taken(s, step, alive, unbound).pool
      ensures claimed.Some? <==>
        !old(stop) && !old(failed) && alive && old(queue) != [] && step == old(next) && !unbound
      ensures claimed.Some? ==> claimed.value == old(queue)[0]
    {
      if stop || failed || !alive || queue == [] {
        return None;
      }
      if step != next {
        return None;
      }
      if unbound {
        return None;
      }
      claimed := Some(queue[0]);
      queue := queue[1..];
      next := next + 1;
      allowed := allowed + 1;
    }

    method ControlBegin()
      modifies this
      ensures View() == old(View()).(begin := true)
    {
      begin := true;
    }

    method Close()
      modifies this
      ensures View() == old(View()).(stop := true, queue := [])
    {
      stop, queue := true, [];
    }
  }

  /** What a claim hands out is the step that was asked for: steps are claimed in order, each once. */
  lemma {:induction false} ClaimsAreInOrder(k: Config, s: State)
    requires Invariant(k, s) && !s.pool.stop && s.pool.queue != []
    ensures s.pool.queue[0] == s.pool.next
    ensures !s.pool.failed ==> Taken(s, s.pool.next, true, false).pool.next == s.pool.next + 1
    ensures forall step, alive, unbound :: step != s.pool.next || !alive || unbound ==>
      Taken(s, step, alive, unbound) == s
  {
    hide Materials;
  }

  /** One step of the whole supply, the parent's part done by the object. */
  method Act(k: Config, pool: MaterialPool, s: State, a: Action) returns (t: State, claimed: Option<nat>)
    requires Enabled(s, a) && s.pool == pool.View() && pool.slots == k.slots
    modifies pool
    ensures t == Apply(k, s, a) && t.pool == pool.View()
    ensures claimed.Some? ==> a.Take? && s.pool.queue != [] && claimed.value == s.pool.queue[0] && !s.pool.stop
    ensures t.pool.next == s.pool.next + if claimed.Some? then 1 else 0
  {
    t, claimed := Apply(k, s, a), None;
    match a {
      case Receive => pool.ReceiveOne(s.output[0], k, s);
      case ReadCredit => pool.ReadCredit(s);
      case SendCredit => var packet := pool.SendCredit(s);
      case Take(step, alive, unbound) => claimed := pool.Take(step, alive, unbound, s);
      case BeginControl => pool.ControlBegin();
      case Close => pool.Close();
      case _ => {}
    }
  }

  /** The pool under any interleaving of its threads with the worker: its window and its queue are exact, and what was
      claimed is every step from the start to the next one, once and in order. */
  method RunPool(k: Config, actions: seq<Action>) returns (pool: MaterialPool, s: State, claims: seq<nat>)
    ensures pool.View() == s.pool && Invariant(k, s)
    ensures k.start <= pool.next <= pool.received <= s.worker.next <= s.worker.allowed
              <= pool.allowed == pool.next + k.slots
    ensures pool.queue == if pool.stop then [] else Steps(pool.next, pool.received)
    ensures claims == Steps(k.start, pool.next)
    ensures k.horizon.None? ==> !pool.failed
  {
    pool := new MaterialPool(k);
    s, claims := Initial(k), [];
    InitiallyInvariant(k);
    for i := 0 to |actions|
      invariant s.pool == pool.View() && pool.slots == k.slots && Invariant(k, s) && fresh(pool)
      invariant k.start <= s.pool.next && claims == Steps(k.start, s.pool.next)
    {
      hide Invariant, Apply, Enabled, Steps;
      if Enabled(s, actions[i]) {
        StepKeeps(k, s, actions[i]);
        StepsExtend(k.start, s.pool.next);
        var t, claimed := Act(k, pool, s, actions[i]);
        if claimed.Some? {
          ClaimsAreInOrder(k, s);
          claims := claims + [claimed.value];
        }
        s := t;
      }
    }
    hide Steps, Materials, Faults, Credits;
  }
}
