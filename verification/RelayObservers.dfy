/** What the relay records about itself in bounded memory: the ring of public rows and the processor-time windows. */
module RelayObservers {
  import opened Options

  // ----- the ring -----

  const CAPACITY := 256
  const WIDTH := 15

  type Row = r: seq<int> | |r| == WIDTH witness seq(WIDTH, _ => 0)

  const TOLERANCE := 1_000_000

  /** A row out of tolerance, or one whose progress came before it was due. */
  predicate Anomalous(r: Row) {
    r[10] > TOLERANCE || r[7] < r[6]
  }

  function LastRows(history: seq<Row>): seq<Row> {
    if |history| <= CAPACITY then history else history[|history| - CAPACITY..]
  }

  class PublicRing {
    const data: array<int>
    var seen: nat
    var firstAnomaly: Option<Row>
    ghost var history: seq<Row>
    ghost var anomalyAt: nat

    /** The slot of each of the last rows holds that row; the first anomaly is the earliest of all. */
    ghost predicate Valid()
      reads this, data
    {
      && data.Length == CAPACITY * WIDTH && seen == |history|
      && (forall k, i :: 0 <= k < |history| && |history| - CAPACITY <= k && 0 <= i < WIDTH ==>
            data[k % CAPACITY * WIDTH + i] == history[k][i])
      && (firstAnomaly.None? ==> forall k :: 0 <= k < |history| ==> !Anomalous(history[k]))
      && (firstAnomaly.Some? ==>
            && anomalyAt < |history| && history[anomalyAt] == firstAnomaly.value && Anomalous(firstAnomaly.value)
            && forall j :: 0 <= j < anomalyAt ==> !Anomalous(history[j]))
    }

    constructor ()
      ensures Valid() && history == [] && fresh(data)
    {
      data := new int[CAPACITY * WIDTH];
      seen, firstAnomaly, history, anomalyAt := 0, None, [], 0;
    }

    method Append(values: Row)
      requires Valid()
      modifies this, data
      ensures Valid() && history == old(history) + [values]
      ensures firstAnomaly == if old(firstAnomaly).None? && (values[10] > 1000000 || values[7] < values[6])
                              then Some(values) else old(firstAnomaly)
    {
      var start := seen % CAPACITY * WIDTH;
      for index := 0 to WIDTH
        invariant data.Length == CAPACITY * WIDTH && 0 <= start <= CAPACITY * WIDTH - WIDTH
        invariant unchanged(`seen) && unchanged(`history) && unchanged(`firstAnomaly) && unchanged(`anomalyAt)
        invariant forall i :: 0 <= i < index ==> data[start + i] == values[i]
        invariant forall x :: 0 <= x < data.Length && !(start <= x < start + index) ==> data[x] == old(data[x])
      {
        data[start + index] := values[index];
      }
      ghost var before := history;
      history := history + [values];
      seen := seen + 1;
      if firstAnomaly.None? && Anomalous(values) {
        firstAnomaly := Some(values);
        anomalyAt := |before|;
      }
      forall k, i | 0 <= k < |history| && |history| - CAPACITY <= k && 0 <= i < WIDTH
        ensures data[k % CAPACITY * WIDTH + i] == history[k][i]
      {
        if k < |before| {
          SlotsApart(k, |before|);
        }
      }
    }

    /** The report: the last rows in the order they were appended. */
    method Rows() returns (rows: seq<seq<int>>)
      requires Valid()
      ensures rows == LastRows(history) && (forall k :: 0 <= k < |rows| ==> |rows[k]| == 15)
      ensures |rows| == (if |history| < 256 then |history| else 256)
      ensures forall k :: 0 <= k < |rows| ==> rows[k] == history[|history| - |rows| + k]
    {
      rows := [];
      var first := if seen > CAPACITY then seen - CAPACITY else 0;
      for k := first to seen
        invariant rows == history[first..k]
      {
        var slot := k % CAPACITY * WIDTH;
        var row := data[slot..slot + WIDTH];
        assert row == history[k];
        rows := rows + [row];
      }
    }
  }

  /** Two of any CAPACITY consecutive rows never share a slot. */
  lemma {:induction false} SlotsApart(j: nat, k: nat)
    requires j < k < j + CAPACITY
    ensures j % CAPACITY != k % CAPACITY
    ensures j % CAPACITY < k % CAPACITY || k % CAPACITY < j % CAPACITY
  {
  }

  // ----- processor-time windows -----

  const CPU_WINDOW := 100_000_000

  datatype Window = Window(start: nat, end: nat, cpu: nat) {
    function Wall(): int {
      end - start
    }
  }

  /** Share of the processor compared by cross-multiplication, the way the source does. */
  predicate NoLarger(a: Window, b: Window) {
    a.cpu * b.Wall() <= b.cpu * a.Wall()
  }

  lemma {:induction false} ShareTransitive(a: Window, b: Window, c: Window)
    requires a.Wall() > 0 && b.Wall() > 0 && c.Wall() > 0
    requires NoLarger(a, b) && NoLarger(b, c)
    ensures NoLarger(a, c)
  {
    CrossTransitive(a.cpu, a.Wall(), b.cpu, b.Wall(), c.cpu, c.Wall());
  }

  lemma {:induction false} CrossTransitive(x: int, p: int, y: int, q: int, z: int, r: int)
    requires p > 0 && q > 0 && r > 0 && x * q <= y * p && y * r <= z * q
    ensures x * r <= z * p
  {
    ScaleUp(x * q, y * p, r);
    ScaleUp(y * r, z * q, p);
    assert (x * r) * q == (x * q) * r && (y * p) * r == (y * r) * p && (z * q) * p == (z * p) * q;
    Cancel(x * r, z * p, q);
  }

  lemma {:induction false} Cancel(a: int, b: int, q: int)
    requires a * q <= b * q && q > 0
    ensures a <= b
  {
  }

  lemma {:induction false} ScaleUp(a: int, b: int, q: int)
    requires a <= b && q > 0
    ensures a * q <= b * q
  {
  }

  datatype Sample = ClockBackwards | TooEarly | WithinLimit | OverLimit

  /** Only windows at least CPU_WINDOW long are compared; the last one before exit may be shorter. */
  function Complete(rows: seq<Window>): (r: seq<Window>)
    ensures forall k :: 0 <= k < |r| ==> r[k].Wall() >= CPU_WINDOW
  {
    if rows == [] then []
    else
      var last := rows[|rows| - 1];
      Complete(rows[..|rows| - 1]) + if last.Wall() >= CPU_WINDOW then [last] else []
  }

  lemma {:induction false} CompleteAppend(rows: seq<Window>, row: Window)
    ensures Complete(rows + [row]) == Complete(rows) + if row.Wall() >= CPU_WINDOW then [row] else []
  {
    assert (rows + [row])[..|rows|] == rows;
  }

  /** The windows tile the time since the start. */
  ghost predicate Tiled(rows: seq<Window>, started: nat, wall: nat) {
    && (rows != [] ==> rows[0].start == started)
    && (forall i, j :: 0 <= i < |rows| && j == i + 1 < |rows| ==> rows[j].start == rows[i].end)
    && wall == (if rows == [] then started else rows[|rows| - 1].end)
  }

  /** The part of one processor used in a window. */
  ghost function Share(w: Window): real
    requires w.end > w.start
  {
    w.cpu as real / (w.end - w.start) as real
  }

  /** Comparing products compares shares. */
  lemma {:induction false} NoLargerMeaning(a: Window, b: Window)
    requires a.end > a.start && b.end > b.start
    ensures NoLarger(a, b) <==> Share(a) <= Share(b)
  {
    var x, p, y, q := a.cpu as real, (a.end - a.start) as real, b.cpu as real, (b.end - b.start) as real;
    assert (a.cpu * b.Wall()) as real == x * q && (b.cpu * a.Wall()) as real == y * p;
    QuotientOrder(x, p, y, q);
  }

  lemma {:induction false} QuotientOrder(x: real, p: real, y: real, q: real)
    requires p > 0.0 && q > 0.0
    ensures x / p <= y / q <==> x * q <= y * p
  {
    var s, t := x / p, y / q;
    assert x == s * p && y == t * q;
    assert x * q == s * (p * q) && y * p == t * (p * q);
    ScaledOrder(s, t, p * q);
  }

  lemma {:induction false} ScaledOrder(s: real, t: real, c: real)
    requires c > 0.0
    ensures s <= t <==> s * c <= t * c
  {
  }

  /** The largest share among the complete windows. */
  ghost predicate Peak(rows: seq<Window>, peak: Option<Window>) {
    && (peak.None? <==> rows == [])
    && (peak.Some? ==> peak.value in rows && forall k :: 0 <= k < |rows| ==> NoLarger(rows[k], peak.value))
  }

  /** Some window over half the processor, if there is one. */
  ghost predicate Over(rows: seq<Window>, over: Option<Window>) {
    && (over.Some? ==> over.value in rows && 2 * over.value.cpu > over.value.Wall())
    && (over.None? ==> forall k :: 0 <= k < |rows| ==> 2 * rows[k].cpu <= rows[k].Wall())
  }

  lemma {:induction false} NewPeak(rows: seq<Window>, peak: Option<Window>, row: Window)
    requires Peak(rows, peak) && forall k :: 0 <= k < |rows| ==> rows[k].Wall() > 0
    ensures row.Wall() > 0 ==>
      Peak(rows + [row], if peak.None? || !NoLarger(row, peak.value) then Some(row) else peak)
  {
    if row.Wall() > 0 && peak.Some? && !NoLarger(row, peak.value) {
      forall k | 0 <= k < |rows|
        ensures NoLarger(rows[k], row)
      {
        ShareTransitive(rows[k], peak.value, row);
      }
    }
  }

  lemma {:induction false} NewTile(rows: seq<Window>, started: nat, wall: nat, row: Window)
    requires Tiled(rows, started, wall) && row.start == wall
    ensures Tiled(rows + [row], started, row.end)
  {
  }

  lemma {:induction false} NewOver(rows: seq<Window>, over: Option<Window>, row: Window)
    requires Over(rows, over)
    ensures 2 * row.cpu > row.Wall() && over.None? ==> Over(rows + [row], Some(row))
    ensures !(2 * row.cpu > row.Wall() && over.None?) ==> Over(rows + [row], over)
  {
    var more := rows + [row];
    assert more[|rows|] == row && row in more;
    forall k | 0 <= k < |rows|
      ensures more[k] == rows[k]
    {
    }
    if over.Some? {
      var k :| 0 <= k < |rows| && rows[k] == over.value;
      assert more[k] == over.value;
    }
  }

  class WaitPolicy {
    var wall: nat
    var cpu: nat
    var windows: nat
    var peak: Option<Window>
    var firstOver: Option<Window>
    var tail: Option<Window>
    const started: nat
    ghost var rows: seq<Window>

    ghost predicate Valid()
      reads this
    {
      Tiled(rows, started, wall) && Judged(rows) && (tail.Some? ==> tail.value in rows)
    }

    /** The counters and the two windows kept are those of the complete ones. */
    ghost predicate Judged(rows: seq<Window>)
      reads `windows, `peak, `firstOver
    {
      windows == |Complete(rows)| && Peak(Complete(rows), peak) && Over(Complete(rows), firstOver)
    }

    /** Takes a complete window into account. */
    method Judge(row: Window, ghost before: seq<Window>) returns (over: bool)
      requires Judged(before) && row.Wall() >= CPU_WINDOW
      modifies `windows, `peak, `firstOver
      ensures Judged(before + [row]) && over == (2 * row.cpu > row.Wall()) && (over ==> firstOver.Some?)
      ensures old(firstOver).Some? ==> firstOver == old(firstOver)
    {
      hide Peak, NoLarger, Over, Complete;
      CompleteAppend(before, row);
      NewPeak(Complete(before), peak, row);
      NewOver(Complete(before), firstOver, row);
      windows := windows + 1;
      if peak.None? || !NoLarger(row, peak.value) {
        peak := Some(row);
      }
      over := 2 * row.cpu > row.Wall();
      if over && firstOver.None? {
        firstOver := Some(row);
      }
    }

    constructor (wall: nat, cpu: nat)
      ensures Valid() && rows == [] && started == wall && this.wall == wall && this.cpu == cpu && tail == None
    {
      this.wall, this.cpu, started := wall, cpu, wall;
      windows, peak, firstOver, tail, rows := 0, None, None, None, [];
    }

    lemma {:induction false} ShortIsIgnored(row: Window)
      requires Judged(rows) && row.Wall() < CPU_WINDOW
      ensures Judged(rows + [row])
    {
      CompleteAppend(rows, row);
    }

    /** Keeps a window, and judges it if it is complete. */
    method Record(row: Window, used: nat, final: bool) returns (over: bool)
      requires Valid() && row.start == wall
      modifies this
      ensures Valid() && rows == old(rows) + [row] && wall == row.end && cpu == used
      ensures over <==> row.Wall() >= CPU_WINDOW && 2 * row.cpu > row.Wall()
      ensures (over ==> firstOver.Some?) && (old(firstOver).Some? ==> firstOver == old(firstOver))
      ensures tail == if final then Some(row) else old(tail)
    {
      hide Complete, Tiled, Peak, Over, Judged;
      NewTile(rows, started, wall, row);
      over := false;
      if row.Wall() >= CPU_WINDOW {
        over := Judge(row, rows);
      } else {
        ShortIsIgnored(row);
      }
      wall, cpu, rows := row.end, used, rows + [row];
      tail := if final then Some(row) else tail;
    }

    /** Closes a window once it is complete, or at exit whatever its length; a complete window over half the processor
        is recorded and then stops the relay. */
    method SampleCpu(now: nat, used: nat, final: bool) returns (r: Sample)
      requires Valid()
      modifies this
      ensures Valid()
      ensures r.ClockBackwards? <==> now < old(wall) || used < old(cpu)
      ensures r.TooEarly? <==> now >= old(wall) && used >= old(cpu) && now - old(wall) < 100000000 && !final
      ensures r.ClockBackwards? || r.TooEarly? ==> unchanged(this)
      ensures r.WithinLimit? || r.OverLimit? ==>
        var row := Window(old(wall), now, used - old(cpu));
        && rows == old(rows) + [row] && wall == now && cpu == used && tail == (if final then Some(row) else old(tail))
        && (r.OverLimit? <==> now - old(wall) >= 100000000 && 2 * (used - old(cpu)) > now - old(wall))
        && (r.OverLimit? ==> firstOver.Some?) && (old(firstOver).Some? ==> firstOver == old(firstOver))
    {
      hide Valid;
      if now < wall || used < cpu {
        return ClockBackwards;
      }
      if now - wall < CPU_WINDOW && !final {
        return TooEarly;
      }
      var over := Record(Window(wall, now, used - cpu), used, final);
      return if over then OverLimit else WithinLimit;
    }
  }
}
