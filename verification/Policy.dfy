/** Path scoring and the two switching policies, driven one decision at a time. */
module Policy {
  import opened Common
  import opened Sorting
  import opened Strings

  type PathId = string

  const HOUR := 3600.0

  datatype PathState = Healthy | Degraded | Failed

  datatype Observation = Observation(path: PathId, rtt: real, jitter: real, loss: real, state: PathState) {
    predicate Valid() {
      path != [] && rtt >= 0.0 && jitter >= 0.0 && 0.0 <= loss <= 100.0
    }

    predicate Eligible() {
      !state.Failed?
    }
  }

  const TOLERANCE := 0.000000001

  /** `math.isclose` with its default relative and the given absolute tolerance. */
  predicate IsCloseToOne(x: real) {
    if x < 1.0 then 1.0 - x <= TOLERANCE else x - 1.0 <= TOLERANCE * x
  }

  /** The sums accepted as 1 are an interval around it, a little longer above than below. */
  lemma CloseMeansWithin(x: real)
    ensures IsCloseToOne(x) <==> 1.0 - 0.000000001 <= x && x * (1.0 - 0.000000001) <= 1.0
  {
  }

  datatype Scorer = Scorer(wLatency: real, wJitter: real, wLoss: real, tLatency: real, tJitter: real, tLoss: real) {
    function Total(): real {
      wLatency + wJitter + wLoss
    }

    predicate Valid() {
      && wLatency >= 0.0 && wJitter >= 0.0 && wLoss >= 0.0 && IsCloseToOne(Total())
      && tLatency > 0.0 && tJitter > 0.0 && tLoss > 0.0
    }
  }

  datatype Kind = Adaptive | Threshold

  datatype Config = Config(kind: Kind, scorer: Scorer, minScore: real, margin: real, minInterval: real,
                           maxPerHour: nat, adaptiveHold: real, rttLimit: real, lossLimit: real, thresholdHold: real) {
    predicate Valid() {
      && scorer.Valid() && 0.0 <= minScore <= 1.0 && 0.0 <= margin <= 1.0
      && minInterval >= 0.0 && maxPerHour >= 1 && adaptiveHold >= 0.0 && thresholdHold >= 0.0
      && rttLimit > 0.0 && lossLimit > 0.0
    }

    function Hold(): real {
      if kind.Adaptive? then adaptiveHold else thresholdHold
    }
  }

  datatype Snapshot = Snapshot(now: real, active: PathId, observations: seq<Observation>) {
    ghost predicate Valid() {
      && now >= 0.0
      && (forall o :: o in observations ==> o.Valid())
      && UniquePaths(observations)
      && Observed(observations, active)
    }
  }

  ghost predicate UniquePaths(observations: seq<Observation>) {
    forall i, j :: 0 <= i < j < |observations| ==> observations[i].path != observations[j].path
  }

  predicate Observed(observations: seq<Observation>, path: PathId) {
    exists i :: 0 <= i < |observations| && observations[i].path == path
  }

  // ----- Scores -----

  function Component(value: real, threshold: real): (r: real)
    requires value >= 0.0 && threshold > 0.0
    ensures 0.0 <= r <= 1.0
  {
    Max(0.0, Min(1.0, 1.0 - value / threshold))
  }

  function Score(s: Scorer, o: Observation): real
    requires s.Valid() && o.Valid()
  {
    if !o.Eligible() then 0.0
    else Weighted(s, Component(o.rtt, s.tLatency), Component(o.jitter, s.tJitter), Component(o.loss, s.tLoss))
  }

  function Weighted(s: Scorer, latency: real, jitter: real, loss: real): real {
    s.wLatency * latency + s.wJitter * jitter + s.wLoss * loss
  }

  lemma WeightedIsBounded(s: Scorer, latency: real, jitter: real, loss: real)
    requires s.Valid() && 0.0 <= latency <= 1.0 && 0.0 <= jitter <= 1.0 && 0.0 <= loss <= 1.0
    ensures 0.0 <= Weighted(s, latency, jitter, loss) <= s.Total()
  {
    var a := ShareIsBounded(s.wLatency, latency);
    var b := ShareIsBounded(s.wJitter, jitter);
    var c := ShareIsBounded(s.wLoss, loss);
    assert Weighted(s, latency, jitter, loss) == a + b + c;
  }

  lemma ShareIsBounded(w: real, c: real) returns (share: real)
    requires 0.0 <= w && 0.0 <= c <= 1.0
    ensures share == w * c && 0.0 <= share <= w
  {
    share := w * c;
  }

  /** A score is at most the total of the weights, which may exceed 1 by the tolerance. */
  lemma ScoreIsBounded(s: Scorer, o: Observation)
    requires s.Valid() && o.Valid()
    ensures 0.0 <= Score(s, o) <= s.Total()
  {
    WeightedIsBounded(s, Component(o.rtt, s.tLatency), Component(o.jitter, s.tJitter), Component(o.loss, s.tLoss));
  }

  // ----- What a score means, measure by measure -----

  /** What a measure takes off its weight: its share of the threshold, at most all of it. */
  function Shortfall(weight: real, value: real, threshold: real): real
    requires threshold > 0.0
  {
    if value >= threshold then weight else weight * (value / threshold)
  }

  lemma ShareAndShortfall(weight: real, value: real, threshold: real)
    requires value >= 0.0 && threshold > 0.0
    ensures weight * Component(value, threshold) == weight - Shortfall(weight, value, threshold)
  {
    var q := value / threshold;
    assert q * threshold == value;
    assert value >= threshold <==> q >= 1.0;
    assert q >= 0.0;
  }

  /** A score is the total of the weights less the three shortfalls; a failed path scores nothing. */
  lemma ScoreByShortfalls(s: Scorer, o: Observation)
    requires s.Valid() && o.Valid()
    ensures !o.Eligible() ==> Score(s, o) == 0.0
    ensures o.Eligible() ==>
      Score(s, o) + Shortfall(s.wLatency, o.rtt, s.tLatency) + Shortfall(s.wJitter, o.jitter, s.tJitter)
      + Shortfall(s.wLoss, o.loss, s.tLoss) == s.wLatency + s.wJitter + s.wLoss
  {
    ShareAndShortfall(s.wLatency, o.rtt, s.tLatency);
    ShareAndShortfall(s.wJitter, o.jitter, s.tJitter);
    ShareAndShortfall(s.wLoss, o.loss, s.tLoss);
  }

  lemma ShortfallIsMonotone(weight: real, a: real, b: real, threshold: real)
    requires weight >= 0.0 && 0.0 <= a <= b && threshold > 0.0
    ensures 0.0 <= Shortfall(weight, a, threshold) <= Shortfall(weight, b, threshold) <= weight
  {
    if b < threshold {
      ShareIsOrdered(weight, a, b, threshold);
    } else if a < threshold {
      ShareIsOrdered(weight, a, a, threshold);
    }
  }

  lemma ShareIsOrdered(weight: real, a: real, b: real, threshold: real)
    requires weight >= 0.0 && 0.0 <= a <= b <= threshold && threshold > 0.0
    ensures 0.0 <= weight * (a / threshold) <= weight * (b / threshold) <= weight
  {
    var x, y := a / threshold, b / threshold;
    assert x * threshold == a && y * threshold == b;
    assert x >= 0.0;
    assert (y - x) * threshold == b - a;
    assert y >= x;
    assert (1.0 - y) * threshold == threshold - b;
    assert y <= 1.0;
    ScaleBy(weight, x, y);
  }

  lemma ScaleBy(weight: real, x: real, y: real)
    requires weight >= 0.0 && 0.0 <= x <= y <= 1.0
    ensures 0.0 <= weight * x <= weight * y <= weight
  {
    assert weight * (y - x) >= 0.0 && weight * (1.0 - y) >= 0.0;
  }

  /** A path that is no better in any measure never scores higher. */
  lemma WorseNeverScoresHigher(s: Scorer, better: Observation, worse: Observation)
    requires s.Valid() && better.Valid() && worse.Valid() && (worse.Eligible() ==> better.Eligible())
    requires better.rtt <= worse.rtt && better.jitter <= worse.jitter && better.loss <= worse.loss
    ensures Score(s, worse) <= Score(s, better)
  {
    ScoreIsBounded(s, better);
    ScoreByShortfalls(s, better);
    ScoreByShortfalls(s, worse);
    ShortfallIsMonotone(s.wLatency, better.rtt, worse.rtt, s.tLatency);
    ShortfallIsMonotone(s.wJitter, better.jitter, worse.jitter, s.tJitter);
    ShortfallIsMonotone(s.wLoss, better.loss, worse.loss, s.tLoss);
  }

  /** With two of the measures at 0, the third alone is what the score falls short by. */
  lemma ScoreOfOneMeasure(s: Scorer, o: Observation)
    requires s.Valid() && o.Valid() && o.Eligible()
    ensures o.jitter == 0.0 && o.loss == 0.0 ==>
      Score(s, o) == s.Total() - s.wLatency * (if o.rtt >= s.tLatency then 1.0 else o.rtt / s.tLatency)
    ensures o.rtt == 0.0 && o.loss == 0.0 ==>
      Score(s, o) == s.Total() - s.wJitter * (if o.jitter >= s.tJitter then 1.0 else o.jitter / s.tJitter)
    ensures o.rtt == 0.0 && o.jitter == 0.0 ==>
      Score(s, o) == s.Total() - s.wLoss * (if o.loss >= s.tLoss then 1.0 else o.loss / s.tLoss)
  {
    ScoreByShortfalls(s, o);
    assert 0.0 / s.tLatency == 0.0 && 0.0 / s.tJitter == 0.0 && 0.0 / s.tLoss == 0.0;
  }

  function ObservationFor(observations: seq<Observation>, path: PathId): (o: Observation)
    requires Observed(observations, path)
    ensures o in observations && o.path == path
  {
    if observations[0].path == path then observations[0] else ObservationFor(observations[1..], path)
  }

  // ----- The best alternative -----

  type Scored = (Observation, real)

  /** Sort key (-score, path id). */
  function BestFirst(): (Scored, Scored) -> bool {
    (a: Scored, b: Scored) => a.1 > b.1 || (a.1 == b.1 && LexLe(a.0.path, b.0.path))
  }

  lemma BestFirstIsOrder()
    ensures TotalPreorder(BestFirst())
  {
    var le := BestFirst();
    forall a, b ensures le(a, b) || le(b, a) {
      LexTotal(a.0.path, b.0.path);
    }
    forall a, b, c | le(a, b) && le(b, c) ensures le(a, c) {
      if a.1 == b.1 == c.1 {
        LexTransitive(a.0.path, b.0.path, c.0.path);
      }
    }
  }

  function Alternatives(s: Scorer, observations: seq<Observation>, active: PathId): (r: seq<Scored>)
    requires s.Valid() && forall o :: o in observations ==> o.Valid()
    ensures forall x :: x in r <==>
      x.0 in observations && x.0.path != active && x.0.Eligible() && x.1 == Score(s, x.0)
  {
    if observations == [] then []
    else
      var o := observations[0];
      (if o.path != active && o.Eligible() then [(o, Score(s, o))] else [])
      + Alternatives(s, observations[1..], active)
  }

  function BestAlternative(s: Scorer, observations: seq<Observation>, active: PathId): Option<Scored>
    requires s.Valid() && forall o :: o in observations ==> o.Valid()
  {
    var scored := Sort(Alternatives(s, observations, active), BestFirst());
    if scored == [] then None else Some(scored[0])
  }

  ghost predicate IsCandidate(s: Scorer, observations: seq<Observation>, active: PathId, o: Observation) {
    o in observations && o.path != active && o.Eligible()
  }

  /** `best` beats every other eligible alternative, the smaller path id deciding ties. */
  ghost predicate IsBest(s: Scorer, observations: seq<Observation>, active: PathId, best: Scored)
    requires s.Valid() && forall o :: o in observations ==> o.Valid()
  {
    && IsCandidate(s, observations, active, best.0)
    && best.1 == Score(s, best.0)
    && (forall o :: IsCandidate(s, observations, active, o) ==>
      Score(s, o) < best.1 || (Score(s, o) == best.1 && LexLe(best.0.path, o.path)))
  }

  lemma BestAlternativeIsBest(s: Scorer, observations: seq<Observation>, active: PathId)
    requires s.Valid() && forall o :: o in observations ==> o.Valid()
    ensures var r := BestAlternative(s, observations, active);
      && (r.None? <==> forall o :: !IsCandidate(s, observations, active, o))
      && (r.Some? ==> IsBest(s, observations, active, r.value))
  {
    var all := Alternatives(s, observations, active);
    var scored := Sort(all, BestFirst());
    BestFirstIsOrder();
    SortSorts(all, BestFirst());
    SameElements(all, scored);
    assert scored != [] ==> scored[0] in all;
    forall o | IsCandidate(s, observations, active, o)
      ensures scored != [] && BestFirst()(scored[0], (o, Score(s, o)))
    {
      assert (o, Score(s, o)) in scored by {
        assert (o, Score(s, o)) in all;
      }
      HeadPrecedes(scored, (o, Score(s, o)));
    }
  }

  lemma HeadPrecedes(scored: seq<Scored>, x: Scored)
    requires Sorted(scored, BestFirst()) && x in scored
    ensures BestFirst()(scored[0], x)
  {
    LexTotal(x.0.path, x.0.path);
    var i :| 0 <= i < |scored| && scored[i] == x;
  }

  /** The choice does not depend on the order of the observations. */
  lemma BestIsUnique(s: Scorer, a: seq<Observation>, b: seq<Observation>, active: PathId)
    requires s.Valid() && UniquePaths(a) && (forall o :: o in a ==> o.Valid())
    requires forall o :: o in a <==> o in b
    ensures BestAlternative(s, a, active) == BestAlternative(s, b, active)
  {
    BestAlternativeIsBest(s, a, active);
    BestAlternativeIsBest(s, b, active);
    var x, y := BestAlternative(s, a, active), BestAlternative(s, b, active);
    if x.Some? {
      assert IsCandidate(s, b, active, x.value.0);
    }
    if y.Some? {
      assert IsCandidate(s, a, active, y.value.0);
    }
    if x.Some? && y.Some? {
      LexAntisymmetric(x.value.0.path, y.value.0.path);
    }
  }

  // ----- One decision -----

  datatype Reason =
    | ActivePathHealthy | DegradationNotSustained | NoEligiblePath | InsufficientImprovement
    | BelowThresholds | ThresholdNotSustained | NoBetterAlternative
    | SwitchRateLimit | MinimumSwitchInterval

  /** Building a switch request raises for a score outside the unit interval. */
  datatype Decision = Stay(reason: Reason) | Switch(to: PathId, fromScore: real, toScore: real) | OutOfRange

  function Request(to: PathId, fromScore: real, toScore: real): Decision {
    if 0.0 <= fromScore <= 1.0 && 0.0 <= toScore <= 1.0 then Switch(to, fromScore, toScore) else OutOfRange
  }

  /** The mutable state of a policy: the hold timer and the pruned queue of completed switches. */
  datatype PolicyState = PolicyState(degradedSince: Option<real>, recent: seq<real>)

  ghost predicate IsDegraded(cfg: Config, o: Observation)
    requires cfg.Valid() && o.Valid()
  {
    match cfg.kind
    case Adaptive => !(o.Eligible() && Score(cfg.scorer, o) >= cfg.minScore)
    case Threshold => !o.Eligible() || o.rtt > cfg.rttLimit || o.loss > cfg.lossLimit
  }

  ghost predicate Improves(cfg: Config, best: real, active: real) {
    match cfg.kind
    case Adaptive => best >= active + cfg.margin
    case Threshold => best > active
  }

  ghost function Prune(recent: seq<real>, now: real): seq<real> {
    if recent != [] && recent[0] <= now - HOUR then Prune(recent[1..], now) else recent
  }

  ghost function Guard(cfg: Config, pruned: seq<real>, now: real): Option<Reason> {
    if |pruned| >= cfg.maxPerHour then Some(SwitchRateLimit)
    else if pruned != [] && now - pruned[|pruned| - 1] < cfg.minInterval then Some(MinimumSwitchInterval)
    else None
  }

  ghost function Decide(cfg: Config, st: PolicyState, snap: Snapshot): (Decision, PolicyState)
    requires cfg.Valid() && snap.Valid()
  {
    var active := ObservationFor(snap.observations, snap.active);
    var adaptive := cfg.kind.Adaptive?;
    if !IsDegraded(cfg, active) then
      (Stay(if adaptive then ActivePathHealthy else BelowThresholds), st.(degradedSince := None))
    else
      var since := if st.degradedSince.Some? then st.degradedSince.value else snap.now;
      var held := st.(degradedSince := Some(since));
      if snap.now - since < cfg.Hold() then
        (Stay(if adaptive then DegradationNotSustained else ThresholdNotSustained), held)
      else
        var best := BestAlternative(cfg.scorer, snap.observations, snap.active);
        if best.None? then (Stay(NoEligiblePath), held)
        else if !Improves(cfg, best.value.1, Score(cfg.scorer, active)) then
          (Stay(if adaptive then InsufficientImprovement else NoBetterAlternative), held)
        else
          var pruned := Prune(st.recent, snap.now);
          var guard := Guard(cfg, pruned, snap.now);
          (if guard.Some? then Stay(guard.value)
           else Request(best.value.0.path, Score(cfg.scorer, active), best.value.1),
           held.(recent := pruned))
  }

  datatype PolicyError = NegativeTime | NotMonotonic

  class SwitchingPolicy {
    const cfg: Config
    var degradedSince: Option<real>
    var completed: seq<real>

    constructor (cfg: Config)
      ensures this.cfg == cfg && State() == PolicyState(None, [])
    {
      this.cfg := cfg;
      degradedSince, completed := None, [];
    }

    ghost function State(): PolicyState
      reads this
    {
      PolicyState(degradedSince, completed)
    }

    method RecordCompletedSwitch(at: real) returns (r: Result<(), PolicyError>)
      modifies this
      ensures r.Ok? <==> at >= 0.0 && (old(completed) == [] || at >= old(completed)[|old(completed)| - 1])
      ensures State() == if r.Ok? then PolicyState(None, old(completed) + [at]) else old(State())
    {
      if at < 0.0 {
        return Err(NegativeTime);
      }
      if completed != [] && at < completed[|completed| - 1] {
        return Err(NotMonotonic);
      }
      completed := completed + [at];
      degradedSince := None;
      return Ok(());
    }

    method SwitchGuard(now: real) returns (guard: Option<Reason>)
      modifies this`completed
      ensures completed == Prune(old(completed), now)
      ensures guard == Guard(cfg, completed, now)
    {
      var cutoff := now - HOUR;
      while completed != [] && completed[0] <= cutoff
        invariant Prune(completed, now) == Prune(old(completed), now)
        decreases |completed|
      {
        completed := completed[1..];
      }
      if |completed| >= cfg.maxPerHour {
        return Some(SwitchRateLimit);
      }
      if completed != [] && now - completed[|completed| - 1] < cfg.minInterval {
        return Some(MinimumSwitchInterval);
      }
      return None;
    }

    method HoldElapsed(now: real, hold: real) returns (elapsed: bool)
      modifies this`degradedSince
      ensures degradedSince == Some(if old(degradedSince).Some? then old(degradedSince).value else now)
      ensures elapsed <==> now - degradedSince.value >= hold
    {
      if degradedSince.None? {
        degradedSince := Some(now);
      }
      return now - degradedSince.value >= hold;
    }

    method DecideAdaptive(snap: Snapshot) returns (d: Decision)
      requires cfg.Valid() && cfg.kind.Adaptive? && snap.Valid()
      modifies this
      ensures (d, State()) == Decide(cfg, old(State()), snap)
    {
      var active := ObservationFor(snap.observations, snap.active);
      var activeScore := Score(cfg.scorer, active);
      if active.Eligible() && activeScore >= cfg.minScore {
        degradedSince := None;
        return Stay(ActivePathHealthy);
      }
      var elapsed := HoldElapsed(snap.now, cfg.adaptiveHold);
      if !elapsed {
        return Stay(DegradationNotSustained);
      }
      var alternative := BestAlternative(cfg.scorer, snap.observations, snap.active);
      if alternative.None? {
        return Stay(NoEligiblePath);
      }
      var (best, bestScore) := alternative.value;
      if bestScore < activeScore + cfg.margin {
        return Stay(InsufficientImprovement);
      }
      var guard := SwitchGuard(snap.now);
      if guard.Some? {
        return Stay(guard.value);
      }
      return Request(best.path, activeScore, bestScore);
    }

    method DecideThreshold(snap: Snapshot) returns (d: Decision)
      requires cfg.Valid() && cfg.kind.Threshold? && snap.Valid()
      modifies this
      ensures (d, State()) == Decide(cfg, old(State()), snap)
    {
      var active := ObservationFor(snap.observations, snap.active);
      var exceeded := !active.Eligible() || active.rtt > cfg.rttLimit || active.loss > cfg.lossLimit;
      if !exceeded {
        degradedSince := None;
        return Stay(BelowThresholds);
      }
      var elapsed := HoldElapsed(snap.now, cfg.thresholdHold);
      if !elapsed {
        return Stay(ThresholdNotSustained);
      }
      var alternative := BestAlternative(cfg.scorer, snap.observations, snap.active);
      if alternative.None? {
        return Stay(NoEligiblePath);
      }
      var (best, bestScore) := alternative.value;
      var activeScore := Score(cfg.scorer, active);
      if bestScore <= activeScore {
        return Stay(NoBetterAlternative);
      }
      var guard := SwitchGuard(snap.now);
      if guard.Some? {
        return Stay(guard.value);
      }
      return Request(best.path, activeScore, bestScore);
    }

    method DecideSwitch(snap: Snapshot) returns (d: Decision)
      requires cfg.Valid() && snap.Valid()
      modifies this
      ensures (d, State()) == Decide(cfg, old(State()), snap)
    {
      if cfg.kind.Adaptive? {
        d := DecideAdaptive(snap);
      } else {
        d := DecideThreshold(snap);
      }
    }
  }
}
