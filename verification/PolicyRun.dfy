/** Whole runs of a policy: what every sequence of decisions and completed switches satisfies. */
module PolicyRun {
  import opened Common
  import opened Policy

  /** The driver of the policy: the path in use and the policy's own state. */
  datatype Driver = Driver(active: PathId, policy: PolicyState)

  /** One decision of a run: what it saw, what it answered, and the states around it. */
  datatype Window = Window(before: Driver, now: real, observations: seq<Observation>, degraded: bool,
                           decision: Decision, decided: PolicyState, after: Driver)

  ghost function SnapshotOf(w: Window): Snapshot {
    Snapshot(w.now, w.before.active, w.observations)
  }

  /** The executor decides, and reports a granted switch as completed at the decision time. */
  ghost predicate IsWindow(cfg: Config, w: Window)
    requires cfg.Valid()
  {
    && SnapshotOf(w).Valid()
    && w.degraded == IsDegraded(cfg, ObservationFor(w.observations, w.before.active))
    && (w.decision, w.decided) == Decide(cfg, w.before.policy, SnapshotOf(w))
    && w.after == AfterDecision(w)
  }

  ghost function AfterDecision(w: Window): Driver {
    match w.decision
    case Stay(_) => Driver(w.before.active, w.decided)
    case OutOfRange => Driver(w.before.active, w.decided)
    case Switch(to, _, _) => Driver(to, PolicyState(None, w.decided.recent + [w.now]))
  }

  ghost const FRESH: PolicyState := PolicyState(None, [])

  /** Window `k` starts from the state window `k - 1` left, and not earlier. */
  ghost predicate Link(ws: seq<Window>, k: nat)
    requires k < |ws|
  {
    if k == 0 then ws[k].before.policy == FRESH
    else ws[k].before == ws[k - 1].after && ws[k - 1].now <= ws[k].now
  }

  ghost predicate Linked(ws: seq<Window>) {
    forall k :: 0 <= k < |ws| ==> Link(ws, k)
  }

  /** A whole run of a fresh policy, time not running backwards. */
  ghost predicate IsRun(cfg: Config, ws: seq<Window>) {
    cfg.Valid() && Linked(ws) && forall k :: 0 <= k < |ws| ==> IsWindow(cfg, ws[k])
  }

  /** The times of all switches completed in the first `n` windows, never pruned. */
  ghost function History(ws: seq<Window>, n: nat): seq<real>
    requires n <= |ws|
  {
    if n == 0 then []
    else History(ws, n - 1) + Granted(ws[n - 1])
  }

  ghost function Granted(w: Window): seq<real> {
    if w.decision.Switch? then [w.now] else []
  }

  // ----- What one decision does to the queue and the timer -----

  /** The part of a decision that the run-level arguments need. */
  ghost predicate QueueFacts(cfg: Config, w: Window) {
    && w.now >= 0.0
    && (w.decided.recent == w.before.policy.recent || w.decided.recent == Prune(w.before.policy.recent, w.now))
    && (w.decision.Switch? ==>
      w.decided.recent == Prune(w.before.policy.recent, w.now) && Guard(cfg, w.decided.recent, w.now).None?)
    && w.after == AfterDecision(w)
  }

  ghost predicate TimerFacts(cfg: Config, w: Window) {
    && (w.decided.degradedSince.Some? <==> w.degraded)
    && (w.degraded && w.before.policy.degradedSince.Some? ==> w.decided.degradedSince == w.before.policy.degradedSince)
    && (w.degraded && w.before.policy.degradedSince.None? ==> w.decided.degradedSince == Some(w.now))
    && (w.decision.Switch? ==> w.degraded && w.now - w.decided.degradedSince.value >= cfg.Hold())
    && w.after == AfterDecision(w)
  }

  lemma WindowFacts(cfg: Config, w: Window)
    requires cfg.Valid() && IsWindow(cfg, w)
    ensures QueueFacts(cfg, w) && TimerFacts(cfg, w)
  {
  }

  ghost predicate FactRun(cfg: Config, ws: seq<Window>) {
    && Linked(ws)
    && (forall k :: 0 <= k < |ws| ==> QueueFacts(cfg, ws[k]))
    && (forall k :: 0 <= k < |ws| ==> TimerFacts(cfg, ws[k]))
  }

  lemma RunFacts(cfg: Config, ws: seq<Window>)
    requires IsRun(cfg, ws)
    ensures FactRun(cfg, ws)
  {
    forall k | 0 <= k < |ws| ensures QueueFacts(cfg, ws[k]) && TimerFacts(cfg, ws[k]) {
      WindowFacts(cfg, ws[k]);
    }
  }

  // ----- The pruned queue decides as the full history would -----

  ghost predicate NonDecreasing(h: seq<real>) {
    forall j, k :: 0 <= j < k < |h| ==> h[j] <= h[k]
  }

  /** The completed switches of the hour before `now`. */
  ghost function LastHour(h: seq<real>, now: real): seq<real> {
    if h == [] then []
    else (if h[0] > now - HOUR then [h[0]] else []) + LastHour(h[1..], now)
  }

  lemma {:induction false} LastHourAll(h: seq<real>, now: real)
    requires forall k :: 0 <= k < |h| ==> h[k] > now - HOUR
    ensures LastHour(h, now) == h
  {
    if h != [] {
      LastHourAll(h[1..], now);
      assert h == [h[0]] + h[1..];
    }
  }

  lemma {:induction false} PruneIsLastHour(h: seq<real>, now: real)
    requires NonDecreasing(h)
    ensures Prune(h, now) == LastHour(h, now)
  {
    if h != [] {
      if h[0] <= now - HOUR {
        PruneIsLastHour(h[1..], now);
      } else {
        LastHourAll(h, now);
      }
    }
  }

  lemma {:induction false} LastHourDrops(dropped: seq<real>, recent: seq<real>, now: real)
    requires forall k :: 0 <= k < |dropped| ==> dropped[k] <= now - HOUR
    ensures LastHour(dropped + recent, now) == LastHour(recent, now)
  {
    if dropped == [] {
      assert dropped + recent == recent;
    } else {
      assert (dropped + recent)[1..] == dropped[1..] + recent;
      LastHourDrops(dropped[1..], recent, now);
    }
  }

  /** `recent` is the history with a prefix dropped that was already an hour old at `now`. */
  ghost predicate IsPruned(history: seq<real>, recent: seq<real>, now: real) {
    && |recent| <= |history|
    && recent == history[|history| - |recent|..]
    && (forall k :: 0 <= k < |history| - |recent| ==> history[k] <= now - HOUR)
  }

  lemma PrunedDecidesAsHistory(history: seq<real>, recent: seq<real>, then_: real, now: real)
    requires NonDecreasing(history) && IsPruned(history, recent, then_) && then_ <= now
    ensures Prune(recent, now) == LastHour(history, now)
  {
    var cut := |history| - |recent|;
    assert history == history[..cut] + recent;
    LastHourDrops(history[..cut], recent, now);
    PruneIsLastHour(recent, now);
  }

  lemma {:induction false} PruneIsSuffix(recent: seq<real>, now: real) returns (cut: nat)
    ensures cut <= |recent| && Prune(recent, now) == recent[cut..]
    ensures forall k :: 0 <= k < cut ==> recent[k] <= now - HOUR
  {
    if recent != [] && recent[0] <= now - HOUR {
      var rest := PruneIsSuffix(recent[1..], now);
      cut := rest + 1;
      assert recent[1..][rest..] == recent[cut..];
      forall k | 0 <= k < cut ensures recent[k] <= now - HOUR {
        assert k > 0 ==> recent[k] == recent[1..][k - 1];
      }
    } else {
      cut := 0;
    }
  }

  lemma PruneKeepsPruned(history: seq<real>, recent: seq<real>, then_: real, now: real)
    requires IsPruned(history, recent, then_) && then_ <= now
    ensures IsPruned(history, Prune(recent, now), now)
  {
    var cut := PruneIsSuffix(recent, now);
    var base := |history| - |recent|;
    assert history[base..][cut..] == history[base + cut..];
    forall k | 0 <= k < base + cut ensures history[k] <= now - HOUR {
      assert k >= base ==> history[k] == recent[k - base];
    }
  }

  ghost function PolicyAt(ws: seq<Window>, n: nat): PolicyState
    requires n <= |ws|
  {
    if n == 0 then FRESH else ws[n - 1].after.policy
  }

  ghost function TimeBefore(ws: seq<Window>, n: nat): real
    requires n <= |ws|
  {
    if n == 0 then 0.0 else ws[n - 1].now
  }

  /** What holds of the history and the queue after every window. */
  ghost predicate Tracks(history: seq<real>, st: PolicyState, now: real) {
    && NonDecreasing(history)
    && (history != [] ==> history[|history| - 1] <= now)
    && IsPruned(history, st.recent, now)
  }

  lemma WindowTracks(cfg: Config, w: Window, history: seq<real>, then_: real)
    requires QueueFacts(cfg, w) && Tracks(history, w.before.policy, then_) && then_ <= w.now
    ensures Tracks(history + Granted(w), w.after.policy, w.now)
  {
    PruneKeepsPruned(history, w.before.policy.recent, then_, w.now);
    if w.decision.Switch? {
      AppendTracks(history, w.decided.recent, w.now);
    } else {
      assert history + [] == history;
    }
  }

  lemma AppendTracks(history: seq<real>, recent: seq<real>, now: real)
    requires NonDecreasing(history) && (history != [] ==> history[|history| - 1] <= now)
    requires IsPruned(history, recent, now)
    ensures Tracks(history + [now], PolicyState(None, recent + [now]), now)
  {
    var h, cut := history + [now], |history| - |recent|;
    assert h[cut..] == history[cut..] + [now];
    forall j, k | 0 <= j < k < |h| ensures h[j] <= h[k] {
      if k == |history| && j < |history| - 1 {
        assert history[j] <= history[|history| - 1];
      }
    }
  }

  /** The guard evaluated on every switch ever completed, with no pruning. */
  ghost function GuardOnHistory(cfg: Config, history: seq<real>, now: real): Option<Reason> {
    if |LastHour(history, now)| >= cfg.maxPerHour then Some(SwitchRateLimit)
    else if history != [] && now - history[|history| - 1] < cfg.minInterval then Some(MinimumSwitchInterval)
    else None
  }

  /** The last switch is more than an hour old, yet the configured interval has not passed. */
  ghost predicate PruningHidesInterval(cfg: Config, history: seq<real>, now: real) {
    && |LastHour(history, now)| < cfg.maxPerHour
    && history != []
    && HOUR <= now - history[|history| - 1] < cfg.minInterval
  }

  lemma {:induction false} LastHourLast(h: seq<real>, now: real)
    requires NonDecreasing(h)
    ensures h != [] && h[|h| - 1] > now - HOUR ==>
      LastHour(h, now) != [] && LastHour(h, now)[|LastHour(h, now)| - 1] == h[|h| - 1]
    ensures h == [] || h[|h| - 1] <= now - HOUR ==> LastHour(h, now) == []
  {
    if h != [] {
      LastHourLast(h[1..], now);
      if |h| > 1 {
        assert h[1..][|h| - 2] == h[|h| - 1] && h[0] <= h[|h| - 1];
      }
    }
  }

  /** The pruned queue gives the answer of the full history, except in exactly one situation. */
  lemma PrunedGuardIsFullGuard(cfg: Config, ws: seq<Window>, n: nat, now: real)
    requires IsRun(cfg, ws) && n <= |ws| && TimeBefore(ws, n) <= now
    ensures Guard(cfg, Prune(PolicyAt(ws, n).recent, now), now) == GuardOnHistory(cfg, History(ws, n), now)
       <==> !PruningHidesInterval(cfg, History(ws, n), now)
  {
    RunFacts(cfg, ws);
    RunIsSteady(cfg, ws, n);
    PrunedDecidesAsHistory(History(ws, n), PolicyAt(ws, n).recent, TimeBefore(ws, n), now);
    LastHourLast(History(ws, n), now);
  }

  // ----- Concrete runs: a path collapses while the other is perfect -----

  /** The score is `weight` times 1 - rtt / 100; no hold time, and `interval` between switches. */
  ghost predicate ByLatency(cfg: Config, weight: real) {
    && cfg.Valid() && cfg.kind.Adaptive? && cfg.minScore == 0.5 && cfg.margin == 0.1 && cfg.adaptiveHold == 0.0
    && cfg.scorer.wLatency == weight && cfg.scorer.wJitter == 0.0 && cfg.scorer.wLoss == 0.0
    && cfg.scorer.tLatency == 100.0
  }

  lemma LatencyAlone(s: Scorer, latency: real, jitter: real, loss: real)
    requires s.wJitter == 0.0 && s.wLoss == 0.0
    ensures latency == 0.0 ==> Weighted(s, latency, jitter, loss) == 0.0
    ensures latency == 1.0 ==> Weighted(s, latency, jitter, loss) == s.wLatency
  {
  }

  lemma ExtremeComponents()
    ensures Component(100.0, 100.0) == 0.0 && Component(0.0, 100.0) == 1.0
  {
  }

  lemma ExtremeScores(cfg: Config, weight: real, o: Observation)
    requires ByLatency(cfg, weight) && o.Valid() && o.Eligible()
    ensures o.rtt == 100.0 ==> Score(cfg.scorer, o) == 0.0
    ensures o.rtt == 0.0 ==> Score(cfg.scorer, o) == weight
  {
    var s := cfg.scorer;
    ExtremeComponents();
    LatencyAlone(s, Component(o.rtt, s.tLatency), Component(o.jitter, s.tJitter), Component(o.loss, s.tLoss));
  }

  /** The path in use has collapsed and the other one is perfect. */
  ghost predicate Collapsed(snap: Snapshot, other: PathId) {
    && snap.Valid() && |snap.observations| == 2
    && snap.observations[0].path == snap.active && snap.observations[0].rtt == 100.0 && snap.observations[0].Eligible()
    && snap.observations[1].path == other && snap.observations[1].rtt == 0.0 && snap.observations[1].Eligible()
    && other != snap.active
  }

  lemma OtherIsBest(cfg: Config, weight: real, snap: Snapshot, other: PathId)
    requires ByLatency(cfg, weight) && Collapsed(snap, other)
    ensures Score(cfg.scorer, snap.observations[0]) == 0.0
    ensures BestAlternative(cfg.scorer, snap.observations, snap.active) == Some((snap.observations[1], weight))
  {
    var obs := snap.observations;
    ExtremeScores(cfg, weight, obs[0]);
    ExtremeScores(cfg, weight, obs[1]);
    BestAlternativeIsBest(cfg.scorer, obs, snap.active);
    assert IsCandidate(cfg.scorer, obs, snap.active, obs[1]);
  }

  lemma CollapseDecides(cfg: Config, weight: real, st: PolicyState, snap: Snapshot, other: PathId)
    requires ByLatency(cfg, weight) && weight >= 0.5 && Collapsed(snap, other) && st.degradedSince.None?
    requires Guard(cfg, Prune(st.recent, snap.now), snap.now).None?
    ensures ObservationFor(snap.observations, snap.active) == snap.observations[0]
    ensures IsDegraded(cfg, snap.observations[0])
    ensures Decide(cfg, st, snap) ==
      (Request(other, 0.0, weight), PolicyState(Some(snap.now), Prune(st.recent, snap.now)))
  {
    OtherIsBest(cfg, weight, snap, other);
  }

  ghost function WindowAt(before: PolicyState, snap: Snapshot, other: PathId): Window {
    var decided := PolicyState(Some(snap.now), Prune(before.recent, snap.now));
    Window(Driver(snap.active, before), snap.now, snap.observations, true, Switch(other, 0.0, 1.0), decided,
           Driver(other, PolicyState(None, decided.recent + [snap.now])))
  }

  lemma CollapseSwitches(cfg: Config, before: PolicyState, snap: Snapshot, other: PathId)
    requires ByLatency(cfg, 1.0) && Collapsed(snap, other) && before.degradedSince.None?
    requires Guard(cfg, Prune(before.recent, snap.now), snap.now).None?
    ensures IsWindow(cfg, WindowAt(before, snap, other))
  {
    CollapseDecides(cfg, 1.0, before, snap, other);
    assert SnapshotOf(WindowAt(before, snap, other)) == snap;
  }

  lemma CollapseAt(now: real, active: PathId, other: PathId) returns (snap: Snapshot)
    requires active != [] && other != [] && active != other && now >= 0.0
    ensures Collapsed(snap, other) && snap.now == now && snap.active == active
  {
    snap := Snapshot(now, active, [Observation(active, 100.0, 0.0, 0.0, Healthy),
                                   Observation(other, 0.0, 0.0, 0.0, Healthy)]);
    assert snap.observations[0].path == active;
  }

  const TWO_HOURS: Config :=
    Config(Adaptive, Scorer(1.0, 0.0, 0.0, 100.0, 100.0, 5.0), 0.5, 0.1, 7200.0, 3, 0.0, 200.0, 5.0, 10.0)

  lemma AnHourLater()
    ensures ByLatency(TWO_HOURS, 1.0)
    ensures Prune([], 0.0) == [] && Guard(TWO_HOURS, [], 0.0).None?
    ensures Prune([0.0], 4000.0) == [] && Guard(TWO_HOURS, [], 4000.0).None?
    ensures GuardOnHistory(TWO_HOURS, [0.0], 4000.0) == Some(MinimumSwitchInterval)
  {
    assert Prune([0.0], 4000.0) == Prune([], 4000.0);
    LastHourLast([0.0], 4000.0);
  }

  /** Switches at time 0 and at 4000 s, though the configured interval is two hours. */
  lemma PruningCanHideInterval() returns (ws: seq<Window>)
    ensures IsRun(TWO_HOURS, ws) && |ws| == 2 && ws[0].decision.Switch? && ws[1].decision.Switch?
    ensures ws[1].now - ws[0].now == 4000.0 < TWO_HOURS.minInterval
    ensures GuardOnHistory(TWO_HOURS, History(ws, 1), ws[1].now) == Some(MinimumSwitchInterval)
  {
    AnHourLater();
    var atZero := CollapseAt(0.0, "a", "b");
    CollapseSwitches(TWO_HOURS, FRESH, atZero, "b");
    var first := WindowAt(FRESH, atZero, "b");
    assert first.after == Driver("b", PolicyState(None, [0.0]));
    var later := CollapseAt(4000.0, "b", "a");
    CollapseSwitches(TWO_HOURS, first.after.policy, later, "a");
    ws := [first, WindowAt(first.after.policy, later, "a")];
    assert Link(ws, 0) && Link(ws, 1);
    assert History(ws, 1) == History(ws, 0) + [0.0] == [0.0];
  }

  lemma QueueIsPast(h: seq<real>, st: PolicyState, then_: real, now: real)
    requires Tracks(h, st, then_) && then_ <= now
    ensures Prune(st.recent, now) != [] ==> Prune(st.recent, now)[|Prune(st.recent, now)| - 1] <= now
  {
    var cut := PruneIsSuffix(st.recent, now);
  }

  /** Reporting a granted switch as completed never raises. */
  lemma RecordNeverRaises(cfg: Config, ws: seq<Window>, n: nat)
    requires IsRun(cfg, ws) && n < |ws| && ws[n].decision.Switch?
    ensures ws[n].now >= 0.0
    ensures ws[n].decided.recent != [] ==> ws[n].decided.recent[|ws[n].decided.recent| - 1] <= ws[n].now
  {
    RunFacts(cfg, ws);
    RunIsSteady(cfg, ws, n);
    assert QueueFacts(cfg, ws[n]) && Link(ws, n);
    QueueIsPast(History(ws, n), PolicyAt(ws, n), TimeBefore(ws, n), ws[n].now);
  }

  // ----- Rate and interval limits over the whole run -----

  /** Any switch and the one `max` places later are at least an hour apart. */
  ghost predicate Spread(h: seq<real>, max: nat) {
    forall k :: 0 <= k < |h| - max ==> h[k + max] - h[k] >= HOUR
  }

  ghost predicate Gapped(h: seq<real>, gap: real) {
    forall k :: 0 <= k < |h| - 1 ==> h[k + 1] - h[k] >= gap
  }

  lemma {:induction false} LastHourIsSuffix(h: seq<real>, now: real)
    requires NonDecreasing(h)
    ensures |LastHour(h, now)| <= |h| && LastHour(h, now) == h[|h| - |LastHour(h, now)|..]
    ensures forall k :: 0 <= k < |h| - |LastHour(h, now)| ==> h[k] <= now - HOUR
  {
    PruneIsLastHour(h, now);
    var cut := PruneIsSuffix(h, now);
  }

  lemma AppendKeepsLimits(cfg: Config, h: seq<real>, now: real)
    requires cfg.Valid() && NonDecreasing(h) && (h != [] ==> h[|h| - 1] <= now)
    requires Spread(h, cfg.maxPerHour) && Gapped(h, Min(cfg.minInterval, HOUR))
    requires Guard(cfg, LastHour(h, now), now).None?
    ensures Spread(h + [now], cfg.maxPerHour) && Gapped(h + [now], Min(cfg.minInterval, HOUR))
  {
    var g := h + [now];
    LastHourIsSuffix(h, now);
    LastHourLast(h, now);
    forall k | 0 <= k < |g| - cfg.maxPerHour ensures g[k + cfg.maxPerHour] - g[k] >= HOUR {
      if k + cfg.maxPerHour == |h| {
        assert h[k] <= now - HOUR;
      }
    }
  }

  ghost predicate Limited(cfg: Config, h: seq<real>) {
    Spread(h, cfg.maxPerHour) && Gapped(h, Min(cfg.minInterval, HOUR))
  }

  lemma WindowKeepsLimits(cfg: Config, w: Window, h: seq<real>, then_: real)
    requires cfg.Valid() && QueueFacts(cfg, w) && Tracks(h, w.before.policy, then_) && then_ <= w.now
    requires Limited(cfg, h)
    ensures Limited(cfg, h + Granted(w))
  {
    if w.decision.Switch? {
      PrunedDecidesAsHistory(h, w.before.policy.recent, then_, w.now);
      AppendKeepsLimits(cfg, h, w.now);
    } else {
      assert h + [] == h;
    }
  }

  /** After each of the first `n` windows the queue tracks the history, and the limits hold. */
  ghost predicate Steady(cfg: Config, ws: seq<Window>, n: nat)
    requires n <= |ws|
    decreases n
  {
    && (n > 0 ==> Steady(cfg, ws, n - 1))
    && Tracks(History(ws, n), PolicyAt(ws, n), TimeBefore(ws, n))
    && Limited(cfg, History(ws, n))
  }

  lemma StepSteady(cfg: Config, ws: seq<Window>, n: nat)
    requires cfg.Valid() && FactRun(cfg, ws) && 0 < n <= |ws| && Steady(cfg, ws, n - 1)
    ensures Steady(cfg, ws, n)
  {
    assert QueueFacts(cfg, ws[n - 1]) && Link(ws, n - 1);
    WindowTracks(cfg, ws[n - 1], History(ws, n - 1), TimeBefore(ws, n - 1));
    WindowKeepsLimits(cfg, ws[n - 1], History(ws, n - 1), TimeBefore(ws, n - 1));
  }

  lemma {:induction false} RunIsSteady(cfg: Config, ws: seq<Window>, n: nat)
    requires cfg.Valid() && FactRun(cfg, ws) && n <= |ws|
    ensures Steady(cfg, ws, n)
    decreases n
  {
    if n > 0 {
      RunIsSteady(cfg, ws, n - 1);
      StepSteady(cfg, ws, n);
    }
  }

  /** The number of switches in the window (t - 3600, t]. */
  ghost function CountInWindow(h: seq<real>, t: real): nat {
    if h == [] then 0
    else (if t - HOUR < h[0] <= t then 1 else 0) + CountInWindow(h[1..], t)
  }

  lemma {:induction false} CountSnoc(h: seq<real>, x: real, t: real)
    ensures CountInWindow(h + [x], t) == CountInWindow(h, t) + (if t - HOUR < x <= t then 1 else 0)
  {
    if h == [] {
      assert h + [x] == [x];
    } else {
      assert (h + [x])[1..] == h[1..] + [x];
      CountSnoc(h[1..], x, t);
    }
  }

  lemma {:induction false} CountIsLastHour(h: seq<real>, t: real)
    requires forall k :: 0 <= k < |h| ==> h[k] <= t
    ensures CountInWindow(h, t) == |LastHour(h, t)|
  {
    if h != [] {
      CountIsLastHour(h[1..], t);
    }
  }

  lemma HourIsBounded(h: seq<real>, max: nat, t: real)
    requires NonDecreasing(h) && Spread(h, max) && (h != [] ==> h[|h| - 1] <= t)
    ensures |LastHour(h, t)| <= max
    ensures forall k :: 0 <= k < |h| ==> h[k] <= t
  {
    LastHourIsSuffix(h, t);
    LastHourIsRecent(h, t);
    var first := |h| - |LastHour(h, t)|;
    assert first < |h| ==> h[first] == LastHour(h, t)[0] > t - HOUR;
    SpreadAt(h, max, first);
  }

  lemma SpreadAt(h: seq<real>, max: nat, k: nat)
    requires NonDecreasing(h) && Spread(h, max)
    ensures k < |h| - max ==> h[k] <= h[|h| - 1] - HOUR
  {
    if k < |h| - max {
      assert h[k + max] - h[k] >= HOUR && h[k + max] <= h[|h| - 1];
    }
  }

  lemma {:induction false} WindowIsBounded(h: seq<real>, max: nat, t: real)
    requires NonDecreasing(h) && Spread(h, max)
    ensures CountInWindow(h, t) <= max
    decreases |h|
  {
    if h == [] || h[|h| - 1] <= t {
      HourIsBounded(h, max, t);
      CountIsLastHour(h, t);
    } else {
      var front, last := h[..|h| - 1], h[|h| - 1];
      assert h == front + [last];
      CountSnoc(front, last, t);
      WindowIsBounded(front, max, t);
    }
  }

  lemma {:induction false} LastHourIsRecent(h: seq<real>, t: real)
    ensures forall k :: 0 <= k < |LastHour(h, t)| ==> LastHour(h, t)[k] > t - HOUR
  {
    if h != [] {
      LastHourIsRecent(h[1..], t);
    }
  }

  /** Rate limit and spacing of the completed switches of any run. */
  lemma SwitchesAreLimited(cfg: Config, ws: seq<Window>, t: real)
    requires IsRun(cfg, ws)
    ensures CountInWindow(History(ws, |ws|), t) <= cfg.maxPerHour
    ensures Gapped(History(ws, |ws|), Min(cfg.minInterval, HOUR))
  {
    RunFacts(cfg, ws);
    RunIsSteady(cfg, ws, |ws|);
    WindowIsBounded(History(ws, |ws|), cfg.maxPerHour, t);
  }

  // ----- A switch is preceded by sustained degradation of the path it leaves -----

  /** From window `j` up to but excluding `n`: path `active` in use, degraded throughout, no switch. */
  ghost predicate DegradedSince(ws: seq<Window>, j: nat, n: nat, active: PathId)
    requires n <= |ws|
  {
    forall k :: j <= k < n ==> ws[k].before.active == active && ws[k].degraded && !ws[k].decision.Switch?
  }

  /** A running timer points back at the window where the present degradation began. */
  lemma {:induction false} TimerOrigin(cfg: Config, ws: seq<Window>, n: nat) returns (j: nat)
    requires FactRun(cfg, ws) && n < |ws| && ws[n].before.policy.degradedSince.Some?
    ensures j < n && ws[j].now == ws[n].before.policy.degradedSince.value
    ensures DegradedSince(ws, j, n, ws[n].before.active)
    decreases n
  {
    var w := ws[n - 1];
    assert TimerFacts(cfg, w) && Link(ws, n);
    j := n - 1;
    if w.before.policy.degradedSince.Some? {
      j := TimerOrigin(cfg, ws, n - 1);
    }
  }

  /**
   * A granted switch: the path it leaves was in use and degraded at every decision from some
   * window at least the hold time ago until now, with no switch in between.
   */
  lemma SwitchIsJustified(cfg: Config, ws: seq<Window>, n: nat) returns (j: nat)
    requires IsRun(cfg, ws) && n < |ws| && ws[n].decision.Switch?
    ensures j <= n && ws[j].now <= ws[n].now - cfg.Hold()
    ensures DegradedSince(ws, j, n, ws[n].before.active) && ws[n].degraded
  {
    RunFacts(cfg, ws);
    assert TimerFacts(cfg, ws[n]) && Link(ws, n);
    j := n;
    if ws[n].before.policy.degradedSince.Some? {
      j := TimerOrigin(cfg, ws, n);
    }
  }

  /** The destination is the best eligible alternative and improves on the active path. */
  lemma SwitchDestination(cfg: Config, w: Window)
    requires cfg.Valid() && IsWindow(cfg, w) && w.decision.Switch?
    ensures w.decision.to != w.before.active
    ensures w.decision.fromScore == Score(cfg.scorer, ObservationFor(w.observations, w.before.active))
    ensures 0.0 <= w.decision.fromScore <= 1.0 && 0.0 <= w.decision.toScore <= 1.0
    ensures Improves(cfg, w.decision.toScore, w.decision.fromScore)
    ensures exists o: Observation ::
      o.path == w.decision.to && IsBest(cfg.scorer, w.observations, w.before.active, (o, w.decision.toScore))
  {
    var best := BestAlternative(cfg.scorer, w.observations, w.before.active).value;
    BestAlternativeIsBest(cfg.scorer, w.observations, w.before.active);
    assert IsBest(cfg.scorer, w.observations, w.before.active, (best.0, best.1));
  }

  /**
    * A decision that would switch raises instead exactly when the best score exceeds 1, which takes
    * weights that add up to more than 1.
    */
  lemma OnlyOverweightRaises(cfg: Config, w: Window)
    requires cfg.Valid() && IsWindow(cfg, w) && !w.decision.Stay?
    ensures exists best ::
      IsBest(cfg.scorer, w.observations, w.before.active, best) && (w.decision.OutOfRange? <==> best.1 > 1.0)
    ensures w.decision.OutOfRange? ==> cfg.scorer.Total() > 1.0
  {
    var best := BestAlternative(cfg.scorer, w.observations, w.before.active).value;
    BestAlternativeIsBest(cfg.scorer, w.observations, w.before.active);
    ScoreIsBounded(cfg.scorer, best.0);
    ScoreIsBounded(cfg.scorer, ObservationFor(w.observations, w.before.active));
    assert IsBest(cfg.scorer, w.observations, w.before.active, (best.0, best.1));
  }

  const OVERWEIGHT: Config :=
    Config(Adaptive, Scorer(1.0000000005, 0.0, 0.0, 100.0, 100.0, 5.0), 0.5, 0.1, 0.0, 3, 0.0, 200.0, 5.0, 10.0)

  /** Weights that are accepted as adding up to 1, and a first decision that raises. */
  lemma OverweightCanRaise() returns (snap: Snapshot)
    ensures OVERWEIGHT.Valid() && snap.Valid() && Decide(OVERWEIGHT, FRESH, snap).0 == OutOfRange
  {
    snap := CollapseAt(0.0, "a", "b");
    assert ByLatency(OVERWEIGHT, 1.0000000005);
    CollapseDecides(OVERWEIGHT, 1.0000000005, FRESH, snap, "b");
  }
}
