/** The windowed executor: workload rows, switch events and the policy it drives. */
module Executor {
  import opened Common
  import opened Sorting
  import opened Policy
  import opened PolicyRun
  import Ledger
  import M = Metrics
  import Udp = Probe

  datatype Endpoint = Endpoint(path: PathId, index: nat)

  type ProbeRow = Ledger.PacketResult

  type ProbeRun = Udp.ProbeRun

  /** What fixes the probe streams of a run: pacing, sizes and the response timeout. */
  datatype Streams = Streams(runToken: nat, monitorPackets: nat, monitorIntervalNs: nat, monitorPayload: nat,
                             workloadPayload: nat, timeoutNs: nat, drainNs: nat)

  datatype Row = Row(sequence: nat, path: PathId, probe: ProbeRow)

  datatype Event = PathObservations(window: nat) | PathSwitched(from_: PathId, to: PathId, effective: nat, at: real)

  datatype PhaseExecution = PhaseExecution(active: PathId, next: nat, packets: seq<Row>, events: seq<Event>)

  datatype ExecutionError =
    | UnknownActivePath | InvalidSettings | ProbeFailed | IntegrityFailure
    | PolicyRaised | ScoreOutOfRange | DuplicateSequence

  /** The errors a run can meet; a writer or policy rejection is not among them. */
  predicate Expected(e: ExecutionError) {
    e != DuplicateSequence && e != PolicyRaised && e != ScoreOutOfRange
  }

  // ----- Which path a packet belongs to, read off the events -----

  /** The destination of the last switch effective at or before packet `k`, else the initial path. */
  ghost function PathAt(events: seq<Event>, initial: PathId, k: nat): PathId {
    if events == [] then initial
    else
      var last := events[|events| - 1];
      if last.PathSwitched? && last.effective <= k then last.to
      else PathAt(events[..|events| - 1], initial, k)
  }

  lemma PathAtSnoc(events: seq<Event>, e: Event, initial: PathId, k: nat)
    ensures PathAt(events + [e], initial, k)
      == if e.PathSwitched? && e.effective <= k then e.to else PathAt(events, initial, k)
  {
    assert (events + [e])[..|events|] == events;
  }

  /** Every switch leaves the path that was in use. */
  ghost predicate Linked(events: seq<Event>, initial: PathId) {
    events == [] ||
    var last, before := events[|events| - 1], events[..|events| - 1];
    && Linked(before, initial)
    && (last.PathSwitched? ==> last.from_ == PathAt(before, initial, last.effective) != last.to)
  }

  /** The windows that were reported, in order. */
  ghost function Reported(events: seq<Event>): seq<nat> {
    if events == [] then []
    else
      var last := events[|events| - 1];
      Reported(events[..|events| - 1]) + if last.PathObservations? then [last.window] else []
  }

  /** What one window reports: its number, and the switch if one was granted. */
  ghost predicate IsReport(events: seq<Event>, number: nat) {
    && 1 <= |events| <= 2 && events[0] == PathObservations(number)
    && (|events| == 2 ==> events[1].PathSwitched?)
  }

  /** The first `n` windows were reported once each, numbered from 1. */
  ghost predicate ReportsFirst(events: seq<Event>, n: nat) {
    var windows := Reported(events);
    |windows| == n && forall k :: 0 <= k < n ==> windows[k] == k + 1
  }

  lemma ReportedGrows(events: seq<Event>, more: seq<Event>, n: nat)
    requires ReportsFirst(events, n) && IsReport(more, n + 1)
    ensures ReportsFirst(events + more, n + 1)
  {
    var one := events + [more[0]];
    assert one[..|events|] == events;
    if |more| == 1 {
      assert events + more == one;
    } else {
      assert (events + more)[..|one|] == one;
    }
  }

  ghost predicate EffectiveBy(events: seq<Event>, sequence: nat) {
    forall i :: 0 <= i < |events| && events[i].PathSwitched? ==> events[i].effective <= sequence
  }

  lemma {:induction false} PathAtSettled(events: seq<Event>, initial: PathId, sequence: nat, k: nat)
    requires EffectiveBy(events, sequence) && sequence <= k
    ensures PathAt(events, initial, k) == PathAt(events, initial, sequence)
    decreases |events|
  {
    if events != [] {
      PathAtSettled(events[..|events| - 1], initial, sequence, k);
    }
  }

  /** Rows are numbered from 0 and each carries the path the events give it. */
  ghost predicate Attributed(rows: seq<Row>, events: seq<Event>, initial: PathId) {
    forall k :: 0 <= k < |rows| ==> rows[k].sequence == k && rows[k].path == PathAt(events, initial, k)
  }

  /** Every row is final and consistent, as the analysis will demand. */
  ghost predicate WellFormed(rows: seq<Row>) {
    forall k :: 0 <= k < |rows| ==> M.RowOk(rows[k].probe)
  }

  /** The packet table that the rows are written as. */
  function TableOf(rows: seq<Row>): (table: seq<Ledger.PacketResult>)
    ensures |table| == |rows|
    ensures forall k :: 0 <= k < |table| ==> table[k] == rows[k].probe.(sequence := rows[k].sequence)
  {
    if rows == [] then []
    else TableOf(rows[..|rows| - 1]) + [rows[|rows| - 1].probe.(sequence := rows[|rows| - 1].sequence)]
  }

  /** The analysis accepts every packet table a run records. */
  lemma TableIsAcceptable(rows: seq<Row>, events: seq<Event>, initial: PathId)
    requires Attributed(rows, events, initial) && WellFormed(rows) && rows != []
    ensures M.Acceptable(TableOf(rows))
  {
    var table := TableOf(rows);
    forall k | 0 <= k < |table| ensures M.RowOk(table[k]) && table[k].sequence == k {
      assert M.RowOk(rows[k].probe);
    }
  }

  /** The state of a run between windows: everything emitted so far, and the path in use. */
  ghost predicate Consistent(rows: seq<Row>, events: seq<Event>, initial: PathId, active: PathId) {
    && Attributed(rows, events, initial)
    && WellFormed(rows)
    && EffectiveBy(events, |rows|)
    && Linked(events, initial)
    && active == PathAt(events, initial, |rows|)
  }

  lemma AddRow(rows: seq<Row>, events: seq<Event>, initial: PathId, active: PathId, probe: ProbeRow)
    requires Consistent(rows, events, initial, active) && M.RowOk(probe)
    ensures Consistent(rows + [Row(|rows|, active, probe)], events, initial, active)
  {
    PathAtSettled(events, initial, |rows|, |rows| + 1);
  }

  lemma AddEvent(rows: seq<Row>, events: seq<Event>, initial: PathId, active: PathId, e: Event)
    requires Consistent(rows, events, initial, active)
    requires e.PathSwitched? ==> e.effective == |rows| && e.from_ == active != e.to
    ensures Consistent(rows, events + [e], initial, if e.PathSwitched? then e.to else active)
  {
    assert (events + [e])[..|events|] == events;
    forall k | 0 <= k <= |rows|
      ensures PathAt(events + [e], initial, k)
        == if e.PathSwitched? && e.effective <= k then e.to else PathAt(events, initial, k)
    {
      PathAtSnoc(events, e, initial, k);
    }
  }

  // ----- Python arithmetic on windows -----

  /** Python's `round`: nearest integer, halves to even. */
  function Round(x: real): int {
    var low := x.Floor;
    var rest := x - low as real;
    if rest < 0.5 then low
    else if rest > 0.5 then low + 1
    else if low % 2 == 0 then low else low + 1
  }

  function AtLeastOne(n: int): (r: nat)
    ensures r >= 1 && r >= n
  {
    if n < 1 then 1 else n
  }

  /** The nearest integer, the even one of two. */
  ghost predicate IsNearest(n: int, x: real) {
    -0.5 <= n as real - x <= 0.5 && (n as real - x == 0.5 || n as real - x == -0.5 ==> n % 2 == 0)
  }

  lemma RoundIsNearest(x: real)
    ensures IsNearest(Round(x), x)
  {
  }

  /** What one window sends at this rate: the nearest number of packets, but at least one. */
  ghost predicate IsWorkload(count: nat, exact: real) {
    if exact < 1.5 then count == 1 else IsNearest(count, exact)
  }

  /** How much of the duration is left for window `k`, at most a whole window. */
  ghost function WindowLength(duration: real, window: real, k: nat): real {
    var left := duration - k as real * window;
    if left < window then left else window
  }

  /** As many windows as cover the duration, and the packets of each. */
  ghost predicate IsPlan(counts: seq<nat>, duration: real, window: real, rate: real) {
    && |counts| >= 1
    && duration <= |counts| as real * window && (|counts| > 1 ==> (|counts| - 1) as real * window < duration)
    && forall k :: 0 <= k < |counts| ==> IsWorkload(counts[k], WindowLength(duration, window, k) * rate)
  }

  /** Windows cover the duration exactly from its quotient on. */
  lemma CoveredBy(duration: real, window: real, n: real)
    requires window > 0.0
    ensures duration / window <= n <==> duration <= n * window
  {
    var q := duration / window;
    assert q * window == duration;
    assert (n - q) * window == n * window - duration;
  }

  lemma CeilIsLeast(x: real)
    ensures x <= Ceil(x) as real < x + 1.0
  {
  }

  /** The packets of window `k`, as computed from what is left. */
  function Workload(duration: real, window: real, rate: real, k: nat): nat {
    AtLeastOne(Round(Min(window, duration - k as real * window) * rate))
  }

  /** The packets of the first `n` windows, one by one. */
  ghost function Counts(duration: real, window: real, rate: real, n: nat): seq<nat> {
    if n == 0 then [] else Counts(duration, window, rate, n - 1) + [Workload(duration, window, rate, n - 1)]
  }

  lemma {:induction false} CountsAreWorkloads(duration: real, window: real, rate: real, n: nat)
    ensures |Counts(duration, window, rate, n)| == n
    ensures forall k :: 0 <= k < n ==> Counts(duration, window, rate, n)[k] == Workload(duration, window, rate, k)
  {
    if n > 0 {
      CountsAreWorkloads(duration, window, rate, n - 1);
    }
  }

  lemma CountsArePlan(duration: real, window: real, rate: real) returns (counts: seq<nat>)
    requires duration > 0.0 && window > 0.0
    ensures counts == Counts(duration, window, rate, AtLeastOne(Ceil(duration / window)))
    ensures |counts| == AtLeastOne(Ceil(duration / window)) && IsPlan(counts, duration, window, rate)
  {
    CeilIsLeast(duration / window);
    var n := AtLeastOne(Ceil(duration / window));
    CoveredBy(duration, window, n as real);
    CoveredBy(duration, window, (n - 1) as real);
    counts := Counts(duration, window, rate, n);
    CountsAreWorkloads(duration, window, rate, n);
    forall k | 0 <= k < n ensures IsWorkload(counts[k], WindowLength(duration, window, k) * rate) {
      WorkloadIsWorkload(duration, window, rate, k);
    }
  }

  lemma WorkloadIsWorkload(duration: real, window: real, rate: real, k: nat)
    ensures IsWorkload(Workload(duration, window, rate, k), WindowLength(duration, window, k) * rate)
  {
    RoundIsNearest(WindowLength(duration, window, k) * rate);
  }

  function SumOf(counts: seq<nat>): nat {
    if counts == [] then 0 else SumOf(counts[..|counts| - 1]) + counts[|counts| - 1]
  }

  /** Each row was sent no earlier than its turn from the pace's start. */
  ghost predicate InTurn(rows: seq<Row>, pace: Udp.Pace) {
    forall i :: 0 <= i < |rows| ==> pace.Due(i) <= rows[i].probe.sentNs
  }

  /** A window starts after what was sent before it, and its rows are paced from there. */
  ghost predicate Continues(before: seq<Row>, rows: seq<Row>, begin: nat, pace: Udp.Pace) {
    begin <= pace.start && (forall row :: row in before ==> row.probe.sentNs <= pace.start) && InTurn(rows, pace)
  }

  /** Window by window, as many rows as counted, none before `begin` or its turn. */
  ghost predicate InTurns(rows: seq<Row>, counts: seq<nat>, begin: nat, interval: nat)
    decreases |counts|
  {
    if counts == [] then rows == []
    else
      var last := |counts| - 1;
      && counts[last] <= |rows|
      && var cut := |rows| - counts[last];
         && InTurns(rows[..cut], counts[..last], begin, interval)
         && exists pace: Udp.Pace :: pace.interval == interval && Continues(rows[..cut], rows[cut..], begin, pace)
  }

  lemma TurnsGrow(rows: seq<Row>, counts: seq<nat>, more: seq<Row>, begin: nat, pace: Udp.Pace)
    requires InTurns(rows, counts, begin, pace.interval) && Continues(rows, more, begin, pace)
    ensures InTurns(rows + more, counts + [|more|], begin, pace.interval)
  {
    assert (counts + [|more|])[..|counts|] == counts;
    assert (rows + more)[..|rows|] == rows && (rows + more)[|rows|..] == more;
  }

  lemma {:induction false} TurnsCount(rows: seq<Row>, counts: seq<nat>, begin: nat, interval: nat)
    requires InTurns(rows, counts, begin, interval)
    ensures |rows| == SumOf(counts)
    decreases |counts|
  {
    if counts != [] {
      var last := |counts| - 1;
      TurnsCount(rows[..|rows| - counts[last]], counts[..last], begin, interval);
    }
  }

  /** What is on record was sent before the next window starts. */
  lemma WindowIsPaced(past: seq<Row>, packets: seq<Row>, counts: seq<nat>, more: seq<Row>, begin: nat, clock: nat,
                      pace: Udp.Pace)
    requires Timely(past + packets, clock) && begin <= clock <= pace.start
    requires InTurns(packets, counts, begin, pace.interval) && InTurn(more, pace)
    ensures InTurns(packets + more, counts + [|more|], begin, pace.interval)
  {
    forall row | row in packets ensures row.probe.sentNs <= pace.start {
      var k :| 0 <= k < |packets| && packets[k] == row;
      assert (past + packets)[|past| + k] == row;
    }
    TurnsGrow(packets, counts, more, begin, pace);
  }

  /** One plan per phase, of its duration and packet rate. */
  ghost predicate ArePlans(plans: seq<seq<nat>>, phases: seq<(real, real)>, window: real)
    requires |plans| <= |phases|
  {
    forall i :: 0 <= i < |plans| ==> IsPlan(plans[i], phases[i].0, window, phases[i].1)
  }

  ghost function Packets(plans: seq<seq<nat>>): nat {
    if plans == [] then 0 else Packets(plans[..|plans| - 1]) + SumOf(plans[|plans| - 1])
  }

  lemma PlansGrow(plans: seq<seq<nat>>, phases: seq<(real, real)>, window: real, plan: seq<nat>)
    requires |plans| < |phases| && ArePlans(plans, phases, window)
    requires IsPlan(plan, phases[|plans|].0, window, phases[|plans|].1)
    ensures ArePlans(plans + [plan], phases, window) && Packets(plans + [plan]) == Packets(plans) + SumOf(plan)
  {
    assert (plans + [plan])[..|plans|] == plans;
  }

  lemma Regroup<T>(a: seq<T>, b: seq<T>, c: seq<T>)
    ensures a + b + c == a + (b + c)
  {
  }

  // ----- Stream tokens -----

  const TOKENS: nat := 0x1_0000_0000_0000_0000

  function SlotToken(runToken: nat, slot: nat): nat {
    (runToken + slot + 1) % TOKENS
  }

  /** The number of a stream within the whole run. */
  function Slot(streams: nat, window: nat, stream: nat): nat {
    if window == 0 then stream else streams + Slot(streams, window - 1, stream)
  }

  lemma {:induction false} SlotIsProduct(streams: nat, window: nat, stream: nat)
    ensures Slot(streams, window, stream) == window * streams + stream
  {
    if window > 0 {
      SlotIsProduct(streams, window - 1, stream);
      assert window * streams == (window - 1) * streams + streams;
    }
  }

  function Token(runToken: nat, streams: nat, window: nat, stream: nat): nat {
    SlotToken(runToken, Slot(streams, window, stream))
  }

  lemma SlotTokenInjective(runToken: nat, x: nat, y: nat)
    requires x < TOKENS && y < TOKENS && SlotToken(runToken, x) == SlotToken(runToken, y)
    ensures x == y
  {
    var q, r := (runToken + x + 1) / TOKENS, (runToken + y + 1) / TOKENS;
    assert y - x == (r - q) * TOKENS;
  }

  lemma {:induction false} SlotBelow(streams: nat, window: nat, stream: nat, limit: nat)
    requires stream < streams && window < limit
    ensures Slot(streams, window, stream) < Slot(streams, limit, 0)
  {
    if window > 0 {
      SlotBelow(streams, window - 1, stream, limit - 1);
    }
  }

  lemma {:induction false} SlotInjective(streams: nat, w1: nat, s1: nat, w2: nat, s2: nat)
    requires s1 < streams && s2 < streams && Slot(streams, w1, s1) == Slot(streams, w2, s2)
    ensures w1 == w2 && s1 == s2
  {
    if w1 > 0 && w2 > 0 {
      SlotInjective(streams, w1 - 1, s1, w2 - 1, s2);
    }
  }

  /** No two probe streams of a run share a token while the token space is not exhausted. */
  lemma TokensAreDistinct(runToken: nat, streams: nat, windows: nat, w1: nat, s1: nat, w2: nat, s2: nat)
    requires s1 < streams && s2 < streams && w1 < windows && w2 < windows
    requires Slot(streams, windows, 0) <= TOKENS
    requires Token(runToken, streams, w1, s1) == Token(runToken, streams, w2, s2)
    ensures w1 == w2 && s1 == s2
  {
    SlotBelow(streams, w1, s1, windows);
    SlotBelow(streams, w2, s2, windows);
    SlotTokenInjective(runToken, Slot(streams, w1, s1), Slot(streams, w2, s2));
    SlotInjective(streams, w1, s1, w2, s2);
  }

  /** Streams are numbered on within a window and from one window to the next. */
  lemma NextSlot(streams: nat, window: nat, stream: nat)
    ensures Slot(streams, window, stream + 1) == Slot(streams, window, stream) + 1
  {
    if window > 0 {
      NextSlot(streams, window - 1, stream);
    }
  }

  lemma NextWindowSlot(streams: nat, window: nat)
    ensures Slot(streams, window, streams) == Slot(streams, window + 1, 0)
  {
    SlotIsProduct(streams, window, streams);
    SlotIsProduct(streams, window + 1, 0);
    assert (window + 1) * streams == window * streams + streams;
  }

  /** The tokens count on from the one after the token of the run. */
  ghost predicate CountsOn(tokens: seq<nat>, runToken: nat) {
    forall i :: 0 <= i < |tokens| ==> tokens[i] == SlotToken(runToken, i)
  }

  /** Tokens that count on are distinct while the token space is not exhausted. */
  lemma CountingIsDistinct(tokens: seq<nat>, runToken: nat, i: nat, j: nat)
    requires CountsOn(tokens, runToken) && i < j < |tokens| <= TOKENS
    ensures tokens[i] != tokens[j]
  {
    if tokens[i] == tokens[j] {
      SlotTokenInjective(runToken, i, j);
    }
  }

  lemma TokensOfRun(tokens: seq<nat>, runToken: nat)
    requires CountsOn(tokens, runToken)
    ensures |tokens| <= TOKENS ==> Distinct(tokens)
  {
    if |tokens| <= TOKENS {
      forall i, j | 0 <= i < j < |tokens| ensures tokens[i] != tokens[j] {
        CountingIsDistinct(tokens, runToken, i, j);
      }
    }
  }

  // ----- The executor -----

  ghost predicate UniqueEndpoints(endpoints: seq<Endpoint>) {
    && |endpoints| >= 2
    && (forall i :: 0 <= i < |endpoints| ==> endpoints[i].path != [])
    && (forall i, j :: 0 <= i < j < |endpoints| ==> endpoints[i].path != endpoints[j].path)
  }

  predicate HasEndpoint(endpoints: seq<Endpoint>, path: PathId) {
    exists i :: 0 <= i < |endpoints| && endpoints[i].path == path
  }

  /** The index of the path, which has an endpoint. */
  function IndexOf(endpoints: seq<Endpoint>, path: PathId): nat
    requires HasEndpoint(endpoints, path)
  {
    if endpoints[0].path == path then endpoints[0].index else IndexOf(endpoints[1..], path)
  }

  /** It is the index of that very endpoint. */
  lemma {:induction false} IndexOfPath(endpoints: seq<Endpoint>, i: nat)
    requires i < |endpoints| && forall j, k :: 0 <= j < k < |endpoints| ==> endpoints[j].path != endpoints[k].path
    ensures HasEndpoint(endpoints, endpoints[i].path) && IndexOf(endpoints, endpoints[i].path) == endpoints[i].index
  {
    assert HasEndpoint(endpoints, endpoints[i].path);
    if i > 0 {
      IndexOfPath(endpoints[1..], i - 1);
    }
  }

  /** The nanoseconds between packets, to the nearest one. */
  lemma IntervalIsNearest(packetRate: real)
    requires packetRate > 0.0
    ensures IsNearest(IntervalNs(packetRate), 1000000000.0 / packetRate)
  {
    RoundIsNearest(1000000000.0 / packetRate);
    assert 1000000000.0 / packetRate >= 0.0;
  }

  /** The token of a stream, as one sum modulo 2 to the 64. */
  lemma TokenIsSum(runToken: nat, streams: nat, window: nat, stream: nat)
    ensures Token(runToken, streams, window, stream) ==
      (runToken + window * streams + stream + 1) % 0x1_0000_0000_0000_0000
  {
    SlotIsProduct(streams, window, stream);
  }

  /** The pacing interval of a packet rate. */
  function IntervalNs(packetRate: real): nat
    requires packetRate > 0.0
  {
    var interval := Round(1000000000.0 / packetRate);
    if interval < 0 then 0 else interval
  }

  /** So far the rows of a run were sent in order, none after `clock`. */
  ghost predicate Timely(rows: seq<Row>, clock: nat) {
    && (forall i, j :: 0 <= i < j < |rows| ==> rows[i].probe.sentNs <= rows[j].probe.sentNs)
    && (forall i :: 0 <= i < |rows| ==> rows[i].probe.sentNs <= clock)
  }

  /** The packets of one probe, sent from `start` to `end`, follow what was sent by `start`. */
  lemma TimelyGrows(past: seq<Row>, rows: seq<Row>, probes: seq<ProbeRow>, start: nat, end: nat)
    requires Timely(past, start) && M.SendsInOrder(probes) && Udp.SentWithin(probes, start, end) && start <= end
    requires |rows| == |probes| && forall i :: 0 <= i < |rows| ==> rows[i].probe == probes[i]
    ensures Timely(past + rows, end)
  {
  }

  lemma TimelyTable(rows: seq<Row>, clock: nat)
    requires Timely(rows, clock)
    ensures M.SendsInOrder(TableOf(rows))
  {
  }

  /** What the observations and the rows rely on in a probe run. */
  predicate IsMeasured(p: ProbeRun) {
    M.InRange(p.metrics) && forall i :: 0 <= i < |p.rows| ==> M.RowOk(p.rows[i])
  }

  lemma PlanOfTurns(rows: seq<Row>, windows: nat, duration: real, window: real, rate: real, begin: nat, interval: nat)
    returns (counts: seq<nat>)
    requires duration > 0.0 && window > 0.0 && windows == AtLeastOne(Ceil(duration / window))
    requires InTurns(rows, Counts(duration, window, rate, windows), begin, interval)
    ensures |counts| == windows && |rows| == SumOf(counts) && IsPlan(counts, duration, window, rate)
    ensures InTurns(rows, counts, begin, interval)
  {
    counts := CountsArePlan(duration, window, rate);
    TurnsCount(rows, counts, begin, interval);
  }

  class WindowedExecutor {
    const endpoints: seq<Endpoint>
    const windowDuration: real
    const streams: Streams
    const started: nat
    var probeWindow: nat
    /** The monotonic clock that every probe of the run reads, in nanoseconds. */
    var clock: nat
    /** The tokens of all probe streams so far. */
    ghost var tokens: seq<nat>

    constructor (endpoints: seq<Endpoint>, windowDuration: real, streams: Streams, now: nat)
      requires UniqueEndpoints(endpoints) && windowDuration > 0.0
      ensures Valid() && Steady() && this.endpoints == endpoints && Elapsed() == 0.0
    {
      this.endpoints, this.windowDuration, this.streams := endpoints, windowDuration, streams;
      started, probeWindow, clock, tokens := now, 0, now, [];
    }

    ghost predicate Valid()
      reads this
    {
      UniqueEndpoints(endpoints) && windowDuration > 0.0 && started <= clock
    }

    /** Every window so far used one token for each path and one for the workload, counting on from window to window. */
    ghost predicate Steady()
      reads this
    {
      |tokens| == Slot(|endpoints| + 1, probeWindow, 0) && CountsOn(tokens, streams.runToken)
    }

    /** Rows went over the path they are recorded on, with the size of the workload. */
    ghost predicate Routed(rows: seq<Row>) {
      forall k :: 0 <= k < |rows| ==> OnRoute(rows[k])
    }

    ghost predicate OnRoute(row: Row) {
      && HasEndpoint(endpoints, row.path)
      && row.probe.pathIndex == IndexOf(endpoints, row.path)
      && row.probe.datagramBytes == 32 + streams.workloadPayload
    }

    lemma RoutedGrows(past: seq<Row>, rows: seq<Row>, probes: seq<ProbeRow>, active: PathId, interval: nat, start: nat)
      requires Routed(past) && |rows| == |probes| && HasEndpoint(endpoints, active)
      requires forall i :: 0 <= i < |rows| ==> rows[i].probe == probes[i] && rows[i].path == active
      requires Udp.OnPath(probes, IndexOf(endpoints, active))
      requires Udp.Paced(probes, Udp.Pace(start, interval, 32 + streams.workloadPayload))
      ensures Routed(past + rows)
    {
    }

    /** Seconds since the start of the run. */
    function Elapsed(): real
      reads this
    {
      (clock - started) as real / 1000000000.0
    }

    lemma ElapsedFollowsClock(before: real, was: nat)
      requires was <= clock && before == (was - started) as real / 1000000000.0
      ensures before <= Elapsed()
    {
      assert (was - started) as real <= (clock - started) as real;
    }

    /** Time passes. */
    method Tick()
      requires Valid()
      modifies this`clock
      ensures Valid() && clock >= old(clock)
    {
      var more: int := *;
      clock := clock + if more > 0 then more else 0;
    }

    /** One UDP probe session on one endpoint, under the token of its window and stream. */
    method Probe(window: nat, stream: nat, pathIndex: nat, count: nat, intervalNs: nat, payloadSize: nat)
      returns (r: Result<ProbeRun, ExecutionError>)
      requires Valid()
      modifies this`clock, this`tokens
      ensures Valid() && clock >= old(clock)
      ensures tokens == old(tokens) + [Token(streams.runToken, |endpoints| + 1, window, stream)]
      ensures r.Ok? ==> |r.value.rows| == count && IsMeasured(r.value) && Udp.OnPath(r.value.rows, pathIndex)
      ensures r.Ok? ==> M.SendsInOrder(r.value.rows) && Udp.SentWithin(r.value.rows, old(clock), clock)
      ensures r.Ok? ==> Udp.Paced(r.value.rows, Udp.Pace(old(clock), intervalNs, 32 + payloadSize))
      ensures r.Err? ==> r.error == ProbeFailed
    {
      var token := Token(streams.runToken, |endpoints| + 1, window, stream);
      var run, end, _ := Udp.RunPackets(token, pathIndex, count, intervalNs, payloadSize, streams.timeoutNs,
                                        streams.drainNs, clock);
      clock, tokens := end, tokens + [token];
      return if run.Ok? then Ok(run.value) else Err(ProbeFailed);
    }

    /** The path was probed by itself, as often as configured. */
    ghost predicate IsMonitor(p: ProbeRun, path: Endpoint) {
      && IsMeasured(p) && Udp.OnPath(p.rows, path.index) && |p.rows| == streams.monitorPackets
      && exists pace: Udp.Pace ::
           && Udp.Paced(p.rows, pace)
           && pace.interval == streams.monitorIntervalNs && pace.size == 32 + streams.monitorPayload
    }

    /** Probe every path. */
    method MonitorAll(window: nat) returns (r: Result<seq<ProbeRun>, ExecutionError>)
      requires Valid() && |tokens| == Slot(|endpoints| + 1, window, 0) && CountsOn(tokens, streams.runToken)
      modifies this`clock, this`tokens
      ensures Valid() && clock >= old(clock)
      ensures r.Err? ==> Expected(r.error) && r.error != IntegrityFailure
      ensures r.Ok? ==> |tokens| == Slot(|endpoints| + 1, window, |endpoints|) && CountsOn(tokens, streams.runToken)
      ensures r.Ok? ==> |r.value| == |endpoints|
      ensures r.Ok? ==> forall i :: 0 <= i < |endpoints| ==> IsMonitor(r.value[i], endpoints[i])
    {
      var results: seq<ProbeRun> := [];
      for i := 0 to |endpoints|
        invariant Valid() && clock >= old(clock)
        invariant |tokens| == Slot(|endpoints| + 1, window, i) && CountsOn(tokens, streams.runToken)
        invariant |results| == i && forall k :: 0 <= k < i ==> IsMonitor(results[k], endpoints[k])
      {
        NextSlot(|endpoints| + 1, window, i);
        var one :- Probe(window, i, endpoints[i].index, streams.monitorPackets, streams.monitorIntervalNs,
                         streams.monitorPayload);
        results := results + [one];
      }
      return Ok(results);
    }

    /** What was measured, or for a path without an answer the whole window as its round-trip time. */
    ghost predicate IsReading(o: Observation, m: M.ProbeMetrics)
    {
      && o.loss == m.lossPct
      && (if m.received > 0 then m.mean == Some(o.rtt) && o.jitter == m.jitter && o.state == Healthy
          else o.rtt == windowDuration * 1000.0 && o.jitter == 0.0 && o.state == Failed)
    }

    method Observations(results: seq<ProbeRun>) returns (observations: seq<Observation>)
      requires Valid() && |results| == |endpoints|
      requires forall i :: 0 <= i < |results| ==> IsMeasured(results[i])
      ensures |observations| == |endpoints|
      ensures forall i :: 0 <= i < |endpoints| ==> observations[i].path == endpoints[i].path && observations[i].Valid()
      ensures forall i :: 0 <= i < |endpoints| ==> (observations[i].Eligible() <==> results[i].metrics.received > 0)
      ensures forall i :: 0 <= i < |endpoints| ==> IsReading(observations[i], results[i].metrics)
    {
      observations := [];
      for i := 0 to |endpoints|
        invariant |observations| == i
        invariant forall k :: 0 <= k < i ==>
          && observations[k].path == endpoints[k].path
          && observations[k].Valid()
          && (observations[k].Eligible() <==> results[k].metrics.received > 0)
          && IsReading(observations[k], results[k].metrics)
      {
        var m := results[i].metrics;
        var o :=
          if m.received > 0 then Observation(endpoints[i].path, m.mean.value, m.jitter, m.lossPct, Healthy)
          else Observation(endpoints[i].path, windowDuration * 1000.0, 0.0, m.lossPct, Failed);
        observations := observations + [o];
      }
    }
  
    /** The workload rows of one window, on the path in use. */
    method EmitRows(probes: seq<ProbeRow>, active: PathId, offset: nat,
                    ghost past: seq<Row>, ghost events: seq<Event>, ghost initial: PathId)
      returns (rows: seq<Row>)
      requires offset == |past| && Consistent(past, events, initial, active)
      requires forall i :: 0 <= i < |probes| ==> M.RowOk(probes[i])
      ensures |rows| == |probes| && Consistent(past + rows, events, initial, active)
      ensures forall i :: 0 <= i < |rows| ==> rows[i].probe == probes[i] && rows[i].path == active
    {
      rows := [];
      assert past + rows == past;
      for i := 0 to |probes|
        invariant |rows| == i && Consistent(past + rows, events, initial, active)
        invariant forall k :: 0 <= k < i ==> rows[k].probe == probes[k] && rows[k].path == active
      {
        AddRow(past + rows, events, initial, active, probes[i]);
        assert past + (rows + [Row(offset + i, active, probes[i])]) ==
          past + rows + [Row(|past + rows|, active, probes[i])];
        rows := rows + [Row(offset + i, active, probes[i])];
      }
    }

    /** The policy object continues the recorded run `ws`, and the path in use is its last one. */
    ghost predicate Follows(policy: SwitchingPolicy?, ws: seq<Window>, active: PathId)
      reads this, policy
    {
      && HasEndpoint(endpoints, active)
      && (policy != null ==>
        && IsRun(policy.cfg, ws)
        && policy.State() == PolicyAt(ws, |ws|)
        && (ws != [] ==> ws[|ws| - 1].after.active == active)
        && TimeBefore(ws, |ws|) <= Elapsed())
    }

    /** Beyond what is expected, only a policy whose weights add up to more than 1 can raise. */
    static ghost predicate MayRaise(policy: SwitchingPolicy?, e: ExecutionError) {
      Expected(e) || (e == ScoreOutOfRange && policy != null && policy.cfg.scorer.Total() > 1.0)
    }

    /** Ask the policy, and report a granted switch back at the decision time. */
    method DecideAndRecord(policy: SwitchingPolicy, observations: seq<Observation>, active: PathId,
                           ghost ws: seq<Window>)
      returns (r: Result<Decision, ExecutionError>, ghost after: seq<Window>)
      requires Valid() && Follows(policy, ws, active)
      requires Snapshot(Elapsed(), active, observations).Valid()
      requires forall o :: o in observations ==> HasEndpoint(endpoints, o.path)
      modifies policy
      ensures ws <= after && |after| == |ws| + 1 && after[|ws|].now == Elapsed()
      ensures after[|ws|].now * 1000000000.0 == (clock - started) as real
      ensures r.Err? <==> after[|ws|].decision.OutOfRange?
      ensures r.Err? ==> r.error == ScoreOutOfRange && policy.cfg.scorer.Total() > 1.0
      ensures r.Ok? ==> after[|ws|].decision == r.value && (r.value.Switch? ==> r.value.to != active)
      ensures r.Ok? ==> Follows(policy, after, if r.value.Switch? then r.value.to else active)
    {
      ghost var before := Driver(active, policy.State());
      var snapshot := Snapshot(Elapsed(), active, observations);
      var decision := policy.DecideSwitch(snapshot);
      ghost var w := Window(before, Elapsed(), observations,
                            IsDegraded(policy.cfg, ObservationFor(observations, active)),
                            decision, policy.State(), before);
      w := w.(after := AfterDecision(w));
      after := ws + [w];
      ExtendRun(policy.cfg, ws, w);
      if decision.OutOfRange? {
        OnlyOverweightRaises(policy.cfg, w);
        r := Err(ScoreOutOfRange);
        return;
      }
      if decision.Switch? {
        RecordNeverRaises(policy.cfg, after, |ws|);
        SwitchDestination(policy.cfg, w);
        var recorded := policy.RecordCompletedSwitch(Elapsed());
        if recorded.Err? {
          r := Err(PolicyRaised);
          return;
        }
      }
      r := Ok(decision);
    }
  
    /** Probe all paths and the workload; the whole window fails on any integrity violation. */
    method Measure(window: nat, pathIndex: nat, count: nat, intervalNs: nat)
      returns (r: Result<(seq<ProbeRun>, ProbeRun), ExecutionError>, ghost start: nat, ghost flaw: Option<ProbeRun>)
      requires Valid() && |tokens| == Slot(|endpoints| + 1, window, 0) && CountsOn(tokens, streams.runToken)
      modifies this`clock, this`tokens
      ensures Valid() && clock >= old(clock)
      ensures start >= old(clock)
      ensures r.Err? ==> Expected(r.error) && (r.error == IntegrityFailure ==> flaw.Some? && !IsIntact(flaw.value))
      ensures r.Ok? ==> |tokens| == Slot(|endpoints| + 1, window + 1, 0) && CountsOn(tokens, streams.runToken)
      ensures r.Ok? ==> |r.value.0| == |endpoints| && |r.value.1.rows| == count && Udp.OnPath(r.value.1.rows, pathIndex)
      ensures r.Ok? ==> Udp.Paced(r.value.1.rows, Udp.Pace(start, intervalNs, 32 + streams.workloadPayload))
      ensures r.Ok? ==> IsIntact(r.value.1) && IsMeasured(r.value.1)
      ensures r.Ok? ==> M.SendsInOrder(r.value.1.rows) && Udp.SentWithin(r.value.1.rows, old(clock), clock)
      ensures r.Ok? ==>
        forall i :: 0 <= i < |endpoints| ==> IsMonitor(r.value.0[i], endpoints[i]) && IsIntact(r.value.0[i])
    {
      start, flaw := clock, None;
      var monitors :- MonitorAll(window);
      start := clock;
      NextSlot(|endpoints| + 1, window, |endpoints|);
      NextWindowSlot(|endpoints| + 1, window);
      var workload :- Probe(window, |endpoints|, pathIndex, count, intervalNs, streams.workloadPayload);
      for i := 0 to |monitors|
        invariant forall k :: 0 <= k < i ==> Clean(monitors[k])
      {
        if !Clean(monitors[i]) {
          return Err(IntegrityFailure), start, Some(monitors[i]);
        }
      }
      if !Clean(workload) {
        return Err(IntegrityFailure), start, Some(workload);
      }
      return Ok((monitors, workload)), start, flaw;
    }

    lemma EndpointsObserved(observations: seq<Observation>, active: PathId)
      requires Valid() && HasEndpoint(endpoints, active) && |observations| == |endpoints|
      requires forall i :: 0 <= i < |endpoints| ==> observations[i].path == endpoints[i].path && observations[i].Valid()
      ensures Snapshot(Elapsed(), active, observations).Valid()
      ensures forall o :: o in observations ==> HasEndpoint(endpoints, o.path)
    {
      var i :| 0 <= i < |endpoints| && endpoints[i].path == active;
      assert observations[i].path == active;
      forall o | o in observations ensures HasEndpoint(endpoints, o.path) {
        var k :| 0 <= k < |observations| && observations[k] == o;
        assert endpoints[k].path == o.path;
      }
    }

    /** The observation event of a window, the decision, and its switch event if granted. */
    method Conclude(observations: seq<Observation>, window: nat, policy: SwitchingPolicy?, active: PathId,
                    sequence: nat, ghost rows: seq<Row>, ghost events: seq<Event>, ghost initial: PathId,
                    ghost ws: seq<Window>)
      returns (r: Result<(seq<Event>, PathId), ExecutionError>, ghost after: seq<Window>)
      requires Valid() && Follows(policy, ws, active)
      requires Snapshot(Elapsed(), active, observations).Valid()
      requires forall o :: o in observations ==> HasEndpoint(endpoints, o.path)
      requires sequence == |rows| && Consistent(rows, events, initial, active)
      modifies policy
      ensures r.Err? ==> MayRaise(policy, r.error)
      ensures r.Ok? ==> IsReport(r.value.0, window + 1)
      ensures r.Ok? && |r.value.0| == 2 ==> r.value.0[1] == PathSwitched(active, r.value.1, sequence, Elapsed())
      ensures r.Ok? ==> Consistent(rows, events + r.value.0, initial, r.value.1)
      ensures r.Ok? ==> ws <= after && Follows(policy, after, r.value.1)
    {
      after := ws;
      var emitted := [PathObservations(window + 1)];
      AddEvent(rows, events, initial, active, emitted[0]);
      if policy == null {
        r := Ok((emitted, active));
        return;
      }
      var decided;
      decided, after := DecideAndRecord(policy, observations, active, ws);
      if decided.Err? {
        r := Err(decided.error);
        return;
      }
      var decision := decided.value;
      if decision.Switch? {
        var e := PathSwitched(active, decision.to, sequence, Elapsed());
        AddEvent(rows, events + emitted, initial, active, e);
        assert events + (emitted + [e]) == events + emitted + [e];
        r := Ok((emitted + [e], decision.to));
      } else {
        r := Ok((emitted, active));
      }
    }

    /** All paths probed, and the workload rows of one window on the path in use. */
    method SendWindow(count: nat, intervalNs: nat, active: PathId, sequence: nat,
                      ghost rows: seq<Row>, ghost events: seq<Event>, ghost initial: PathId)
      returns (r: Result<(seq<ProbeRun>, seq<Row>), ExecutionError>, ghost pace: Udp.Pace)
      requires Valid() && Steady() && HasEndpoint(endpoints, active)
      requires sequence == |rows| && Consistent(rows, events, initial, active) && Timely(rows, clock) && Routed(rows)
      modifies this
      ensures Valid() && clock >= old(clock)
      ensures pace.start >= old(clock) && pace.interval == intervalNs && (r.Ok? ==> InTurn(r.value.1, pace))
      ensures r.Err? ==> Expected(r.error)
      ensures r.Ok? ==> Steady() && |r.value.0| == |endpoints| && |r.value.1| == count
      ensures r.Ok? ==>
        forall i :: 0 <= i < |endpoints| ==> IsMonitor(r.value.0[i], endpoints[i]) && IsIntact(r.value.0[i])
      ensures r.Ok? ==> Timely(rows + r.value.1, clock) && Routed(rows + r.value.1)
      ensures r.Ok? ==> Consistent(rows + r.value.1, events, initial, active)
    {
      var tokenWindow, pathIndex := probeWindow, IndexOf(endpoints, active);
      probeWindow := probeWindow + 1;
      ghost var from := clock;
      var measured, start, flaw := Measure(tokenWindow, pathIndex, count, intervalNs);
      pace := Udp.Pace(start, intervalNs, 32 + streams.workloadPayload);
      if measured.Err? {
        return Err(measured.error), pace;
      }
      var (monitors, workload) := measured.value;
      var packets := EmitRows(workload.rows, active, sequence, rows, events, initial);
      TimelyGrows(rows, packets, workload.rows, from, clock);
      RoutedGrows(rows, packets, workload.rows, active, intervalNs, start);
      return Ok((monitors, packets)), pace;
    }

    /** One window: workload rows on the path in use, then one decision for the next window. */
    method RunWindow(count: nat, intervalNs: nat, window: nat, policy: SwitchingPolicy?, active: PathId, sequence: nat,
                     ghost rows: seq<Row>, ghost events: seq<Event>, ghost initial: PathId, ghost ws: seq<Window>)
      returns (r: Result<(seq<Row>, seq<Event>, PathId), ExecutionError>, ghost after: seq<Window>,
               ghost pace: Udp.Pace)
      requires Valid() && Steady() && Follows(policy, ws, active)
      requires sequence == |rows| && Consistent(rows, events, initial, active) && Timely(rows, clock) && Routed(rows)
      modifies this, policy
      ensures Valid() && (r.Ok? ==> Steady() && Routed(rows + r.value.0))
      ensures clock >= old(clock)
      ensures pace.start >= old(clock) && pace.interval == intervalNs && (r.Ok? ==> InTurn(r.value.0, pace))
      ensures r.Err? ==> MayRaise(policy, r.error)
      ensures r.Ok? ==> |r.value.0| == count && Timely(rows + r.value.0, clock) && IsReport(r.value.1, window + 1)
      ensures r.Ok? ==> Consistent(rows + r.value.0, events + r.value.1, initial, r.value.2)
      ensures r.Ok? ==> ws <= after && Follows(policy, after, r.value.2)
    {
      after := ws;
      ghost var start, before := clock, Elapsed();
      var sent;
      sent, pace := SendWindow(count, intervalNs, active, sequence, rows, events, initial);
      if sent.Err? {
        r := Err(sent.error);
        return;
      }
      var (monitors, packets) := sent.value;
      Tick();
      ElapsedFollowsClock(before, start);
      var observations := Observations(monitors);
      EndpointsObserved(observations, active);
      var concluded;
      concluded, after := Conclude(observations, window, policy, active, sequence + |packets|,
                                   rows + packets, events, initial, ws);
      if concluded.Err? {
        r := Err(concluded.error);
        return;
      }
      r := Ok((packets, concluded.value.0, concluded.value.1));
    }

    /** A phase after `window` windows, over what the run emitted before it. */
    ghost predicate Running(policy: SwitchingPolicy?, ws: seq<Window>, past: seq<Row>, pastEvents: seq<Event>,
                            packets: seq<Row>, events: seq<Event>, initial: PathId, current: PathId, window: nat)
      reads this, policy
    {
      && Valid() && Steady() && Follows(policy, ws, current)
      && Timely(past + packets, clock) && Routed(past + packets)
      && Consistent(past + packets, pastEvents + events, initial, current)
      && ReportsFirst(events, window)
    }

    /** One more window of a phase that began at `begin`. */
    method NextWindow(window: nat, count: nat, interval: nat, policy: SwitchingPolicy?, current: PathId, offset: nat,
                      packets: seq<Row>, events: seq<Event>, ghost past: seq<Row>, ghost pastEvents: seq<Event>,
                      ghost initial: PathId, ghost ws: seq<Window>, ghost begin: nat, ghost counts: seq<nat>)
      returns (r: Result<(seq<Row>, seq<Event>, PathId), ExecutionError>, ghost after: seq<Window>)
      requires Running(policy, ws, past, pastEvents, packets, events, initial, current, window) && offset == |past|
      requires begin <= clock && InTurns(packets, counts, begin, interval)
      modifies this, policy
      ensures Valid() && clock >= old(clock)
      ensures r.Err? ==> MayRaise(policy, r.error)
      ensures r.Ok? ==> ws <= after
      ensures r.Ok? ==>
        Running(policy, after, past, pastEvents, r.value.0, r.value.1, initial, r.value.2, window + 1)
      ensures r.Ok? ==> InTurns(r.value.0, counts + [count], begin, interval) && |r.value.0| == |packets| + count
    {
      ghost var now := clock;
      var one;
      ghost var pace: Udp.Pace;
      one, after, pace := RunWindow(count, interval, window, policy, current, offset + |packets|,
                                    past + packets, pastEvents + events, initial, ws);
      if one.Err? {
        r := Err(one.error);
        return;
      }
      var (newRows, newEvents, next) := one.value;
      WindowIsPaced(past, packets, counts, newRows, begin, now, pace);
      ReportedGrows(events, newEvents, window);
      Regroup(past, packets, newRows);
      Regroup(pastEvents, events, newEvents);
      r := Ok((packets + newRows, events + newEvents, next));
    }

    /** The windows of a phase one after the other; `past` and `pastEvents` are what the run emitted before. */
    method RunWindows(windows: nat, duration: real, packetRate: real, policy: SwitchingPolicy?, active: PathId,
                      offset: nat, ghost past: seq<Row>, ghost pastEvents: seq<Event>, ghost initial: PathId,
                      ghost ws: seq<Window>)
      returns (r: Result<(seq<Row>, seq<Event>, PathId), ExecutionError>, ghost after: seq<Window>)
      requires Valid() && Steady() && Follows(policy, ws, active) && packetRate > 0.0
      requires offset == |past| && Consistent(past, pastEvents, initial, active) && Timely(past, clock) && Routed(past)
      modifies this, policy
      ensures Valid() && clock >= old(clock)
      ensures r.Err? ==> MayRaise(policy, r.error)
      ensures r.Ok? ==> |r.value.0| >= windows && ws <= after
      ensures r.Ok? ==> Running(policy, after, past, pastEvents, r.value.0, r.value.1, initial, r.value.2, windows)
      ensures r.Ok? ==> InTurns(r.value.0, Counts(duration, windowDuration, packetRate, windows), old(clock),
                                IntervalNs(packetRate))
    {
      after := ws;
      var packets: seq<Row>, events: seq<Event>, current := [], [], active;
      var interval := IntervalNs(packetRate);
      assert past + packets == past && pastEvents + events == pastEvents;
      for window := 0 to windows
        invariant Running(policy, after, past, pastEvents, packets, events, initial, current, window)
        invariant |packets| >= window && ws <= after && clock >= old(clock)
        invariant InTurns(packets, Counts(duration, windowDuration, packetRate, window), old(clock), interval)
      {
        var count := Workload(duration, windowDuration, packetRate, window);
        ghost var counts := Counts(duration, windowDuration, packetRate, window);
        var next;
        next, after := NextWindow(window, count, interval, policy, current, offset, packets, events, past, pastEvents,
                                  initial, after, old(clock), counts);
        if next.Err? {
          r := Err(next.error);
          return;
        }
        packets, events, current := next.value.0, next.value.1, next.value.2;
      }
      r := Ok((packets, events, current));
    }

    /** One phase, cut into windows. */
    method RunWindowed(duration: real, packetRate: real, policy: SwitchingPolicy?, active: PathId, offset: nat,
                       ghost past: seq<Row>, ghost pastEvents: seq<Event>, ghost initial: PathId, ghost ws: seq<Window>)
      returns (r: Result<PhaseExecution, ExecutionError>, ghost after: seq<Window>, ghost counts: seq<nat>)
      requires Valid() && Steady() && (HasEndpoint(endpoints, active) ==> Follows(policy, ws, active))
      requires offset == |past| && Consistent(past, pastEvents, initial, active) && Timely(past, clock) && Routed(past)
      modifies this, policy
      ensures Valid() && (r.Ok? ==> Steady() && Routed(past + r.value.packets))
      ensures r.Err? ==> MayRaise(policy, r.error)
      ensures !HasEndpoint(endpoints, active) ==> r == Err(UnknownActivePath)
      ensures HasEndpoint(endpoints, active) && (duration <= 0.0 || packetRate <= 0.0) ==> r == Err(InvalidSettings)
      ensures r.Ok? ==> IsPlan(counts, duration, windowDuration, packetRate) && |r.value.packets| == SumOf(counts)
      ensures r.Ok? ==> InTurns(r.value.packets, counts, old(clock), IntervalNs(packetRate))
      ensures r.Ok? ==> ReportsFirst(r.value.events, |counts|)
      ensures r.Ok? ==> r.value.packets != [] && r.value.next == offset + |r.value.packets|
      ensures r.Ok? ==> Timely(past + r.value.packets, clock)
      ensures r.Ok? ==> Consistent(past + r.value.packets, pastEvents + r.value.events, initial, r.value.active)
      ensures r.Ok? ==> ws <= after && Follows(policy, after, r.value.active)
    {
      after, counts := ws, [];
      if !HasEndpoint(endpoints, active) {
        r := Err(UnknownActivePath);
        return;
      }
      if duration <= 0.0 || packetRate <= 0.0 {
        r := Err(InvalidSettings);
        return;
      }
      var windows := AtLeastOne(Ceil(duration / windowDuration));
      var ran;
      ran, after := RunWindows(windows, duration, packetRate, policy, active, offset, past, pastEvents, initial, ws);
      if ran.Err? {
        r := Err(ran.error);
        return;
      }
      counts := PlanOfTurns(ran.value.0, windows, duration, windowDuration, packetRate, old(clock),
                            IntervalNs(packetRate));
      r := Ok(PhaseExecution(ran.value.2, offset + |ran.value.0|, ran.value.0, ran.value.1));
    }
  }

  /** The duplicate check of the evidence writer. */
  method WritePackets(packets: seq<Row>, written: set<nat>) returns (r: Result<set<nat>, ExecutionError>)
    ensures r.Ok? <==>
      && (forall k :: 0 <= k < |packets| ==> packets[k].sequence !in written)
      && (forall j, k :: 0 <= j < k < |packets| ==> packets[j].sequence != packets[k].sequence)
    ensures r.Ok? ==> r.value == written + set k | 0 <= k < |packets| :: packets[k].sequence
  {
    var sequences := written;
    for i := 0 to |packets|
      invariant forall k :: 0 <= k < i ==> packets[k].sequence !in written
      invariant forall j, k :: 0 <= j < k < i ==> packets[j].sequence != packets[k].sequence
      invariant sequences == written + set k | 0 <= k < i :: packets[k].sequence
    {
      if packets[i].sequence in sequences {
        return Err(DuplicateSequence);
      }
      sequences := sequences + {packets[i].sequence};
    }
    return Ok(sequences);
  }

  /** Rows that continue the numbering never trip the duplicate check. */
  method WriteNumbered(packets: seq<Row>, written: set<nat>, ghost count: nat)
    returns (r: Result<set<nat>, ExecutionError>)
    requires written == Below(count)
    requires forall k :: 0 <= k < |packets| ==> packets[k].sequence == count + k
    ensures r.Ok? && r.value == Below(count + |packets|)
  {
    r := WritePackets(packets, written);
    forall n: nat ensures n in r.value <==> n < count + |packets| {
      if count <= n < count + |packets| {
        assert packets[n - count].sequence == n;
      }
    }
  }

  lemma RunIsRecorded(rows: seq<Row>, events: seq<Event>, initial: PathId, clock: nat)
    requires Attributed(rows, events, initial) && WellFormed(rows) && Timely(rows, clock)
    ensures M.SendsInOrder(TableOf(rows)) && (rows != [] ==> M.Acceptable(TableOf(rows)))
  {
    TimelyTable(rows, clock);
    if rows != [] {
      TableIsAcceptable(rows, events, initial);
    }
  }

  /** The packets of a phase continue the numbering. */
  lemma ContinuesNumbers(rows: seq<Row>, packets: seq<Row>, events: seq<Event>, initial: PathId)
    requires Attributed(rows + packets, events, initial)
    ensures forall k :: 0 <= k < |packets| ==> packets[k].sequence == |rows| + k
  {
    assert forall k :: 0 <= k < |packets| ==> packets[k] == (rows + packets)[|rows| + k];
  }

  /** The phases of one run: path and sequence carry over, and every row reaches the writer. */
  method CollectPhases(executor: WindowedExecutor, policy: SwitchingPolicy?, initial: PathId,
                       phases: seq<(real, real)>)
    returns (r: Result<(seq<Row>, seq<Event>, nat), ExecutionError>, ghost ws: seq<Window>,
             ghost plans: seq<seq<nat>>)
    requires executor.Valid() && executor.Steady()
    requires policy != null ==> policy.cfg.Valid() && policy.State() == FRESH
    modifies executor, policy
    ensures r.Ok? ==> executor.Steady() && executor.Routed(r.value.0)
    ensures r.Ok? ==> |plans| == |phases| && ArePlans(plans, phases, executor.windowDuration)
    ensures r.Ok? ==> |r.value.0| == Packets(plans)
    ensures r.Ok? && |executor.tokens| <= TOKENS ==> Distinct(executor.tokens)
    ensures r.Ok? ==> r.value.2 == |r.value.0| && Attributed(r.value.0, r.value.1, initial)
    ensures r.Ok? && r.value.0 != [] ==> M.Acceptable(TableOf(r.value.0))
    ensures r.Ok? ==> M.SendsInOrder(TableOf(r.value.0))
    ensures r.Ok? && policy != null ==> IsRun(policy.cfg, ws)
    ensures r.Err? ==> WindowedExecutor.MayRaise(policy, r.error)
  {
    ws, plans := [], [];
    var rows: seq<Row>, events: seq<Event>, active := [], [], initial;
    var sequence, written := 0, {};
    for i := 0 to |phases|
      invariant executor.Valid() && executor.Steady() && executor.Routed(rows)
      invariant sequence == |rows| == Packets(plans) && written == Below(|rows|)
      invariant |plans| == i && ArePlans(plans, phases, executor.windowDuration)
      invariant Consistent(rows, events, initial, active) && Timely(rows, executor.clock)
      invariant HasEndpoint(executor.endpoints, active) ==> executor.Follows(policy, ws, active)
      invariant policy != null ==> IsRun(policy.cfg, ws)
    {
      var phase;
      ghost var counts: seq<nat>;
      phase, ws, counts := executor.RunWindowed(phases[i].0, phases[i].1, policy, active, sequence, rows, events,
                                                initial, ws);
      if phase.Err? {
        r := Err(phase.error);
        return;
      }
      var result := phase.value;
      ContinuesNumbers(rows, result.packets, events + result.events, initial);
      var wrote := WriteNumbered(result.packets, written, |rows|);
      written := wrote.value;
      rows, events := rows + result.packets, events + result.events;
      active, sequence := result.active, result.next;
      PlansGrow(plans, phases, executor.windowDuration, counts);
      plans := plans + [counts];
    }
    RunIsRecorded(rows, events, initial, executor.clock);
    TokensOfRun(executor.tokens, executor.streams.runToken);
    r := Ok((rows, events, sequence));
  }

  lemma ExtendRun(cfg: Config, ws: seq<Window>, w: Window)
    requires IsRun(cfg, ws) && IsWindow(cfg, w)
    requires w.before.policy == PolicyAt(ws, |ws|) && TimeBefore(ws, |ws|) <= w.now
    requires ws != [] ==> ws[|ws| - 1].after.active == w.before.active
    ensures IsRun(cfg, ws + [w])
  {
    forall k | 0 <= k < |ws| + 1 ensures Link(ws + [w], k) {
      if k < |ws| {
        assert Link(ws, k);
      }
    }
  }

  /** Every datagram was the one answer of its packet. */
  ghost predicate IsIntact(p: ProbeRun) {
    p.attributionErrors + p.duplicateEchoes == 0
  }

  predicate Clean(p: ProbeRun) {
    p.attributionErrors == 0 && p.duplicateEchoes == 0
  }
}
