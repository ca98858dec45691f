/** Every decision of a run, read off what was observed and which switches were granted before it. */
module PolicyHistory {
  import opened Common
  import opened Policy
  import opened PolicyRun

  // ----- The conditions of one decision, with no timer and no queue -----

  /** The path in use failed, scores too low (adaptive), or exceeds a limit (threshold). */
  ghost predicate Unfit(cfg: Config, w: Window)
    requires cfg.Valid() && SnapshotOf(w).Valid()
  {
    exists o: Observation :: o in w.observations && o.path == w.before.active && UnfitObservation(cfg, o)
  }

  ghost predicate UnfitObservation(cfg: Config, o: Observation)
    requires cfg.Valid()
  {
    && o.Valid()
    && (|| o.state == Failed
        || (cfg.kind == Adaptive && Score(cfg.scorer, o) < cfg.minScore)
        || (cfg.kind == Threshold && (o.rtt > cfg.rttLimit || o.loss > cfg.lossLimit)))
  }

  /** For the hold time every decision so far saw this path in use and unfit, and switched nothing. */
  ghost predicate HeldFrom(cfg: Config, ws: seq<Window>, j: nat, n: nat)
    requires IsRun(cfg, ws) && j <= n < |ws|
  {
    && ws[n].now - ws[j].now >= (if cfg.kind == Adaptive then cfg.adaptiveHold else cfg.thresholdHold)
    && forall k :: j <= k <= n ==>
      ws[k].before.active == ws[n].before.active && Unfit(cfg, ws[k]) && (k < n ==> !ws[k].decision.Switch?)
  }

  ghost predicate Held(cfg: Config, ws: seq<Window>, n: nat)
    requires IsRun(cfg, ws) && n < |ws|
  {
    exists j :: 0 <= j <= n && HeldFrom(cfg, ws, j, n)
  }

  ghost predicate IsAlternative(w: Window, o: Observation) {
    o in w.observations && o.path != w.before.active && o.state != Failed
  }

  /** Better than the path in use: by the margin (adaptive), or at all (threshold). */
  ghost predicate IsBetter(cfg: Config, w: Window, o: Observation)
    requires cfg.Valid() && SnapshotOf(w).Valid()
  {
    && IsAlternative(w, o)
    && forall a: Observation :: a in w.observations && a.path == w.before.active ==>
      if cfg.kind == Adaptive then Score(cfg.scorer, o) >= Score(cfg.scorer, a) + cfg.margin
      else Score(cfg.scorer, o) > Score(cfg.scorer, a)
  }

  ghost predicate HasAlternative(w: Window) {
    exists o: Observation :: IsAlternative(w, o)
  }

  ghost predicate HasBetter(cfg: Config, w: Window)
    requires cfg.Valid() && SnapshotOf(w).Valid()
  {
    exists o: Observation :: IsBetter(cfg, w, o)
  }

  /** The windows of the last hour in which a switch was granted. */
  ghost function RecentSwitches(ws: seq<Window>, n: nat, now: real): set<nat>
    requires n <= |ws|
  {
    set i: nat | i < n && ws[i].decision.Switch? && now - ws[i].now < 3600.0
  }

  ghost predicate SpacedOut(cfg: Config, ws: seq<Window>, n: nat)
    requires n < |ws|
  {
    forall i :: i in RecentSwitches(ws, n, ws[n].now) ==> ws[n].now - ws[i].now >= cfg.minInterval
  }

  // ----- The timer and the queue say the same -----

  lemma DegradedIsUnfit(cfg: Config, w: Window)
    requires cfg.Valid() && IsWindow(cfg, w)
    ensures w.degraded <==> Unfit(cfg, w)
  {
    var active := ObservationFor(w.observations, w.before.active);
    forall o | o in w.observations && o.path == w.before.active ensures o == active {
      OnlyObservation(w.observations, active, o);
    }
  }

  lemma OnlyObservation(observations: seq<Observation>, a: Observation, b: Observation)
    requires UniquePaths(observations) && a in observations && b in observations && a.path == b.path
    ensures a == b
  {
    var i :| 0 <= i < |observations| && observations[i] == a;
    var j :| 0 <= j < |observations| && observations[j] == b;
  }

  /** While a path stays degraded the timer does not restart. */
  lemma {:induction false} TimerReaches(cfg: Config, ws: seq<Window>, j: nat, n: nat)
    requires FactRun(cfg, ws) && j < n < |ws| && DegradedSince(ws, j, n, ws[n].before.active)
    ensures ws[n].before.policy.degradedSince.Some? && ws[n].before.policy.degradedSince.value <= ws[j].now
    decreases n
  {
    var w := ws[n - 1];
    assert TimerFacts(cfg, w) && Link(ws, n);
    if j < n - 1 {
      TimerReaches(cfg, ws, j, n - 1);
    } else if w.before.policy.degradedSince.Some? {
      var k := TimerOrigin(cfg, ws, n - 1);
      TimesAscend(ws, k, n - 1);
    }
  }

  lemma {:induction false} TimesAscend(ws: seq<Window>, i: nat, j: nat)
    requires Linked(ws) && i <= j < |ws|
    ensures ws[i].now <= ws[j].now
    decreases j
  {
    if i < j {
      assert Link(ws, j);
      TimesAscend(ws, i, j - 1);
    }
  }

  /** Since when the path in use counts as degraded, at the decision of window `n`. */
  ghost function Since(w: Window): real {
    if w.before.policy.degradedSince.Some? then w.before.policy.degradedSince.value else w.now
  }

  lemma AllDegradedAreUnfit(cfg: Config, ws: seq<Window>)
    requires IsRun(cfg, ws)
    ensures forall k :: 0 <= k < |ws| ==> (ws[k].degraded <==> Unfit(cfg, ws[k]))
  {
    forall k | 0 <= k < |ws| ensures ws[k].degraded <==> Unfit(cfg, ws[k]) {
      DegradedIsUnfit(cfg, ws[k]);
    }
  }

  lemma TimerMeansHeld(cfg: Config, ws: seq<Window>, n: nat)
    requires IsRun(cfg, ws) && FactRun(cfg, ws) && n < |ws| && ws[n].degraded
    requires ws[n].now - Since(ws[n]) >= cfg.Hold()
    ensures Held(cfg, ws, n)
  {
    AllDegradedAreUnfit(cfg, ws);
    var j := n;
    if ws[n].before.policy.degradedSince.Some? {
      j := TimerOrigin(cfg, ws, n);
    }
    assert HeldFrom(cfg, ws, j, n);
  }

  lemma HeldByTimer(cfg: Config, ws: seq<Window>, n: nat)
    requires IsRun(cfg, ws) && n < |ws| && ws[n].degraded
    ensures Held(cfg, ws, n) <==> ws[n].now - Since(ws[n]) >= cfg.Hold()
  {
    RunFacts(cfg, ws);
    if Held(cfg, ws, n) {
      var j :| 0 <= j <= n && HeldFrom(cfg, ws, j, n);
      HeldMeansTimer(cfg, ws, j, n);
    }
    if ws[n].now - Since(ws[n]) >= cfg.Hold() {
      TimerMeansHeld(cfg, ws, n);
    }
  }

  lemma HeldMeansTimer(cfg: Config, ws: seq<Window>, j: nat, n: nat)
    requires IsRun(cfg, ws) && FactRun(cfg, ws) && j <= n < |ws| && ws[n].degraded && HeldFrom(cfg, ws, j, n)
    ensures ws[n].now - Since(ws[n]) >= cfg.Hold()
  {
    AllDegradedAreUnfit(cfg, ws);
    if j < n {
      assert DegradedSince(ws, j, n, ws[n].before.active);
      TimerReaches(cfg, ws, j, n);
    } else if ws[n].before.policy.degradedSince.Some? {
      var k := TimerOrigin(cfg, ws, n);
      TimesAscend(ws, k, n);
    }
  }

  lemma RecentSnoc(ws: seq<Window>, n: nat, now: real)
    requires 0 < n <= |ws|
    ensures |RecentSwitches(ws, n, now)| ==
      |RecentSwitches(ws, n - 1, now)| + if ws[n - 1].decision.Switch? && now - ws[n - 1].now < 3600.0 then 1 else 0
  {
    var before := RecentSwitches(ws, n - 1, now);
    assert RecentSwitches(ws, n, now) ==
      if ws[n - 1].decision.Switch? && now - ws[n - 1].now < 3600.0 then before + {n - 1} else before;
  }

  lemma {:induction false} CountRecent(ws: seq<Window>, n: nat, now: real)
    requires n <= |ws|
    ensures |RecentSwitches(ws, n, now)| == |LastHour(History(ws, n), now)|
    decreases n
  {
    if n == 0 {
      assert RecentSwitches(ws, 0, now) == {};
    } else {
      var w := ws[n - 1];
      CountRecent(ws, n - 1, now);
      LastHourAppends(History(ws, n - 1), Granted(w), now);
      RecentSnoc(ws, n, now);
    }
  }

  lemma {:induction false} LastHourAppends(a: seq<real>, b: seq<real>, now: real)
    ensures LastHour(a + b, now) == LastHour(a, now) + LastHour(b, now)
  {
    if a == [] {
      assert a + b == b;
    } else {
      assert (a + b)[1..] == a[1..] + b;
      LastHourAppends(a[1..], b, now);
    }
  }

  lemma {:induction false} HistoryTimes(ws: seq<Window>, n: nat)
    requires n <= |ws|
    ensures forall t :: t in History(ws, n) <==> exists i: nat :: i < n && ws[i].decision.Switch? && ws[i].now == t
    decreases n
  {
    if n > 0 {
      HistoryTimes(ws, n - 1);
      forall t ensures t in History(ws, n) <==> exists i: nat :: i < n && ws[i].decision.Switch? && ws[i].now == t {
        if t in History(ws, n - 1) {
          var i: nat :| i < n - 1 && ws[i].decision.Switch? && ws[i].now == t;
        }
      }
    }
  }

  lemma {:induction false} LastHourMembers(h: seq<real>, now: real)
    ensures forall t :: t in LastHour(h, now) <==> t in h && now - t < 3600.0
  {
    if h != [] {
      LastHourMembers(h[1..], now);
    }
  }

  lemma RecentTimes(ws: seq<Window>, n: nat, now: real)
    requires n <= |ws|
    ensures forall t :: t in LastHour(History(ws, n), now) <==>
      exists i :: i in RecentSwitches(ws, n, now) && ws[i].now == t
  {
    HistoryTimes(ws, n);
    LastHourMembers(History(ws, n), now);
    forall t ensures t in LastHour(History(ws, n), now) <==>
      exists i :: i in RecentSwitches(ws, n, now) && ws[i].now == t
    {
      if t in History(ws, n) && now - t < 3600.0 {
        var i: nat :| i < n && ws[i].decision.Switch? && ws[i].now == t;
        assert i in RecentSwitches(ws, n, now);
      }
    }
  }

  lemma SuffixAscends(h: seq<real>, recent: seq<real>)
    requires NonDecreasing(h) && |recent| <= |h| && recent == h[|h| - |recent|..]
    ensures forall t :: t in recent ==> t <= recent[|recent| - 1]
  {
    var cut, last := |h| - |recent|, |recent| - 1;
    forall k | 0 <= k < |recent| ensures recent[k] <= recent[last] {
      assert h[cut + k] <= h[cut + last];
    }
  }

  /** The last of the recent switches is the one the interval is counted from. */
  lemma SpacedByLast(cfg: Config, ws: seq<Window>, n: nat)
    requires n < |ws| && NonDecreasing(History(ws, n))
    ensures
      var recent := LastHour(History(ws, n), ws[n].now);
      SpacedOut(cfg, ws, n) <==> (recent == [] || ws[n].now - recent[|recent| - 1] >= cfg.minInterval)
  {
    var recent := LastHour(History(ws, n), ws[n].now);
    RecentTimes(ws, n, ws[n].now);
    LastHourIsSuffix(History(ws, n), ws[n].now);
    SuffixAscends(History(ws, n), recent);
    if recent != [] {
      assert recent[|recent| - 1] in recent;
    }
    forall i | i in RecentSwitches(ws, n, ws[n].now) ensures ws[i].now in recent {
    }
  }

  lemma GuardByHistory(cfg: Config, ws: seq<Window>, n: nat)
    requires IsRun(cfg, ws) && n < |ws|
    ensures Guard(cfg, Prune(ws[n].before.policy.recent, ws[n].now), ws[n].now) ==
      if |RecentSwitches(ws, n, ws[n].now)| >= cfg.maxPerHour then Some(SwitchRateLimit)
      else if !SpacedOut(cfg, ws, n) then Some(MinimumSwitchInterval)
      else None
  {
    RunFacts(cfg, ws);
    RunIsSteady(cfg, ws, n);
    assert Link(ws, n);
    PrunedDecidesAsHistory(History(ws, n), PolicyAt(ws, n).recent, TimeBefore(ws, n), ws[n].now);
    CountRecent(ws, n, ws[n].now);
    SpacedByLast(cfg, ws, n);
  }

  // ----- One decision by its conditions -----

  lemma BestDecidesBetter(cfg: Config, w: Window)
    requires cfg.Valid() && IsWindow(cfg, w)
    ensures
      var active := ObservationFor(w.observations, w.before.active);
      var best := BestAlternative(cfg.scorer, w.observations, w.before.active);
      && (best.Some? <==> HasAlternative(w))
      && (best.Some? ==> (Improves(cfg, best.value.1, Score(cfg.scorer, active)) <==> HasBetter(cfg, w)))
  {
    var active := ObservationFor(w.observations, w.before.active);
    var best := BestAlternative(cfg.scorer, w.observations, w.before.active);
    BestAlternativeIsBest(cfg.scorer, w.observations, w.before.active);
    forall o: Observation ensures IsAlternative(w, o) <==> IsCandidate(cfg.scorer, w.observations, w.before.active, o) {
    }
    if best.Some? {
      assert IsAlternative(w, best.value.0);
      forall a: Observation | a in w.observations && a.path == w.before.active ensures a == active {
        OnlyObservation(w.observations, active, a);
      }
      if Improves(cfg, best.value.1, Score(cfg.scorer, active)) {
        assert IsBetter(cfg, w, best.value.0);
      }
      if HasBetter(cfg, w) {
        var o :| IsBetter(cfg, w, o);
        assert IsCandidate(cfg.scorer, w.observations, w.before.active, o);
      }
    }
  }

  /** What a window answers, given how long its path has been degraded and what the queue allows. */
  lemma DecisionByParts(cfg: Config, w: Window)
    requires cfg.Valid() && IsWindow(cfg, w)
    ensures
      var best := BestAlternative(cfg.scorer, w.observations, w.before.active);
      var active := Score(cfg.scorer, ObservationFor(w.observations, w.before.active));
      var guard := Guard(cfg, Prune(w.before.policy.recent, w.now), w.now);
      && (w.decision == Stay(if cfg.kind == Adaptive then ActivePathHealthy else BelowThresholds) <==> !w.degraded)
      && (w.decision == Stay(if cfg.kind == Adaptive then DegradationNotSustained else ThresholdNotSustained) <==>
            w.degraded && w.now - Since(w) < cfg.Hold())
      && (w.degraded && w.now - Since(w) >= cfg.Hold() ==>
            && (w.decision == Stay(NoEligiblePath) <==> best.None?)
            && (w.decision == Stay(if cfg.kind == Adaptive then InsufficientImprovement else NoBetterAlternative) <==>
                  best.Some? && !Improves(cfg, best.value.1, active))
            && (best.Some? && Improves(cfg, best.value.1, active) ==>
                  if guard.Some? then w.decision == Stay(guard.value) else !w.decision.Stay?))
  {
  }

  /**
    * The answer of every decision of every run, by what was observed and granted up to it: the first
    * of these conditions that holds decides, and a switch is requested exactly if none does.
    */
  lemma DecisionOfHistory(cfg: Config, ws: seq<Window>, n: nat)
    requires IsRun(cfg, ws) && n < |ws|
    ensures
      var w := ws[n];
      var adaptive := cfg.kind == Adaptive;
      if !Unfit(cfg, w) then w.decision == Stay(if adaptive then ActivePathHealthy else BelowThresholds)
      else if !Held(cfg, ws, n) then
        w.decision == Stay(if adaptive then DegradationNotSustained else ThresholdNotSustained)
      else if !HasAlternative(w) then w.decision == Stay(NoEligiblePath)
      else if !HasBetter(cfg, w) then
        w.decision == Stay(if adaptive then InsufficientImprovement else NoBetterAlternative)
      else if |RecentSwitches(ws, n, w.now)| >= cfg.maxPerHour then w.decision == Stay(SwitchRateLimit)
      else if !SpacedOut(cfg, ws, n) then w.decision == Stay(MinimumSwitchInterval)
      else !w.decision.Stay?
  {
    DegradedIsUnfit(cfg, ws[n]);
    DecisionByParts(cfg, ws[n]);
    BestDecidesBetter(cfg, ws[n]);
    GuardByHistory(cfg, ws, n);
    if ws[n].degraded {
      HeldByTimer(cfg, ws, n);
    }
  }
}
