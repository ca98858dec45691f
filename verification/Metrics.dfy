/** Quantiles, jitter, and the two summaries of one packet table. */
module Metrics {
  import opened Common
  import opened Sorting
  import opened Sums
  import opened Ledger

  // ----- The interpolated quantile -----

  function RealOrder(): (real, real) -> bool {
    (a: real, b: real) => a <= b
  }

  function Between(low: real, high: real, fraction: real): real {
    low + fraction * (high - low)
  }

  /** The value at a fractional index of a list. */
  function Interpolate(s: seq<real>, position: real): real
    requires s != [] && 0.0 <= position <= (|s| - 1) as real
  {
    Between(s[position.Floor], s[Ceil(position)], position - position.Floor as real)
  }

  lemma ScaleIsMonotone(a: real, b: real, d: real)
    requires 0.0 <= a <= b && 0.0 <= d
    ensures 0.0 <= a * d <= b * d
  {
    assert (b - a) * d >= 0.0;
  }

  lemma BetweenMonotone(low: real, high: real, f: real, g: real)
    requires low <= high && 0.0 <= f <= g <= 1.0
    ensures low <= Between(low, high, f) <= Between(low, high, g) <= high
  {
    ScaleIsMonotone(f, g, high - low);
    ScaleIsMonotone(g, 1.0, high - low);
  }

  lemma InterpolateBetween(s: seq<real>, x: real)
    requires s != [] && Sorted(s, RealOrder()) && 0.0 <= x <= (|s| - 1) as real
    ensures s[x.Floor] <= Interpolate(s, x) <= s[Ceil(x)]
  {
    var lower, upper := x.Floor, Ceil(x);
    assert lower == upper || RealOrder()(s[lower], s[upper]);
    BetweenMonotone(s[lower], s[upper], x - lower as real, x - lower as real);
  }

  lemma InterpolateMonotone(s: seq<real>, x: real, y: real)
    requires s != [] && Sorted(s, RealOrder()) && 0.0 <= x <= y <= (|s| - 1) as real
    ensures Interpolate(s, x) <= Interpolate(s, y)
  {
    InterpolateBetween(s, x);
    InterpolateBetween(s, y);
    var k := x.Floor;
    if k < y.Floor {
      assert Ceil(x) <= y.Floor;
      assert Ceil(x) == y.Floor || RealOrder()(s[Ceil(x)], s[y.Floor]);
    } else if x != k as real {
      assert Ceil(x) == Ceil(y) == k + 1;
      assert RealOrder()(s[k], s[k + 1]);
      BetweenMonotone(s[k], s[k + 1], x - k as real, y - k as real);
    } else {
      assert Ceil(x) == k;
    }
  }

  /** The probe's quantile of a sorted list; nan is `None`. */
  function LinearQuantile(s: seq<real>, probability: real): Option<real>
    requires 0.0 <= probability <= 1.0
  {
    if s == [] then None
    else if |s| == 1 then Some(s[0])
    else
      PositionInRange(|s| - 1, probability);
      Some(Interpolate(s, (|s| - 1) as real * probability))
  }

  lemma PositionInRange(n: nat, probability: real)
    requires 0.0 <= probability <= 1.0
    ensures 0.0 <= n as real * probability <= n as real
  {
    ScaleIsMonotone(probability, 1.0, n as real);
  }

  lemma QuantileMonotone(s: seq<real>, p: real, q: real)
    requires s != [] && Sorted(s, RealOrder()) && 0.0 <= p <= q <= 1.0
    ensures LinearQuantile(s, p).value <= LinearQuantile(s, q).value
  {
    if |s| > 1 {
      ScaleIsMonotone(p, q, (|s| - 1) as real);
      PositionInRange(|s| - 1, q);
      InterpolateMonotone(s, (|s| - 1) as real * p, (|s| - 1) as real * q);
    }
  }

  lemma QuantileInRange(s: seq<real>, p: real)
    requires s != [] && Sorted(s, RealOrder()) && 0.0 <= p <= 1.0
    ensures s[0] <= LinearQuantile(s, p).value <= s[|s| - 1]
    ensures LinearQuantile(s, 0.0).value == s[0] && LinearQuantile(s, 1.0).value == s[|s| - 1]
  {
    QuantileMonotone(s, 0.0, p);
    QuantileMonotone(s, p, 1.0);
  }

  /** `statistics.median` of a sorted list. */
  function Median(s: seq<real>): real
    requires s != []
  {
    var m := |s| / 2;
    if |s| % 2 == 1 then s[m] else (s[m - 1] + s[m]) / 2.0
  }

  lemma QuantileAtHalfIsMedian(s: seq<real>)
    requires s != []
    ensures LinearQuantile(s, 0.5) == Some(Median(s))
  {
    var n := |s|;
    var position := (n - 1) as real * 0.5;
    var m := n / 2;
    if n % 2 == 1 {
      assert position == m as real && position.Floor == Ceil(position) == m;
      assert n > 1 ==> Interpolate(s, position) == s[m];
    } else {
      assert position == (m - 1) as real + 0.5;
      assert position.Floor == m - 1 && Ceil(position) == m;
      assert Interpolate(s, position) == s[m - 1] + 0.5 * (s[m] - s[m - 1]);
    }
  }

  /** On the straight line from one value to the next. */
  function OnTheLine(s: seq<real>, i: nat, rest: real): real
    requires i < |s| && (rest > 0.0 ==> i + 1 < |s|)
  {
    if rest > 0.0 then s[i] + rest * (s[i + 1] - s[i]) else s[i]
  }

  /** Between two ranks the quantile goes straight from one value to the next. */
  lemma QuantileAtRank(s: seq<real>, probability: real, i: nat, rest: real)
    requires i + 1 < |s| && 0.0 <= rest < 1.0 && 0.0 <= probability <= 1.0
    requires (|s| - 1) as real * probability == i as real + rest
    ensures LinearQuantile(s, probability) == Some(OnTheLine(s, i, rest))
  {
    InterpolateAt(s, (|s| - 1) as real * probability, i, rest);
  }

  lemma InterpolateAt(s: seq<real>, position: real, i: nat, rest: real)
    requires i + 1 < |s| && 0.0 <= rest < 1.0 && position == i as real + rest
    ensures Interpolate(s, position) == OnTheLine(s, i, rest)
  {
    assert position.Floor == i;
    assert Ceil(position) == if rest > 0.0 then i + 1 else i;
  }

  /** The analysis quantile sorts its input first, and refuses an empty one. */
  function SampleQuantile(values: seq<real>, probability: real): Option<real>
    requires 0.0 <= probability <= 1.0
  {
    LinearQuantile(Sort(values, RealOrder()), probability)
  }

  lemma SortForgetsOrder(a: seq<real>, b: seq<real>)
    requires multiset(a) == multiset(b)
    ensures Sort(a, RealOrder()) == Sort(b, RealOrder())
  {
    SortSorts(a, RealOrder());
    SortSorts(b, RealOrder());
    SortedUnique(Sort(a, RealOrder()), Sort(b, RealOrder()), RealOrder());
  }

  /** The sample quantile depends on the values alone: not on their order. */
  lemma SampleQuantileForgetsOrder(a: seq<real>, b: seq<real>, p: real)
    requires multiset(a) == multiset(b) && 0.0 <= p <= 1.0
    ensures SampleQuantile(a, p) == SampleQuantile(b, p)
  {
    SortForgetsOrder(a, b);
  }

  // ----- Jitter, section 6.4.1 of RFC 3550 applied to round-trip times -----

  function Abs(x: real): (r: real)
    ensures r >= 0.0
  {
    if x < 0.0 then -x else x
  }

  /** One step of the recurrence: a sixteenth of the way to the new difference. */
  function Smoothed(jitter: real, difference: real): real {
    jitter + (difference - jitter) / 16.0
  }

  function JitterOf(rtts: seq<real>): real {
    var n := |rtts|;
    if n < 2 then 0.0 else Smoothed(JitterOf(rtts[..n - 1]), Abs(rtts[n - 1] - rtts[n - 2]))
  }

  method Jitter(rtts: seq<real>) returns (jitter: real)
    ensures jitter == JitterOf(rtts)
  {
    jitter := 0.0;
    var pairs := if rtts == [] then 0 else |rtts| - 1;
    for i := 0 to pairs
      invariant jitter == if rtts == [] then 0.0 else JitterOf(rtts[..i + 1])
    {
      assert rtts[..i + 2][..i + 1] == rtts[..i + 1];
      jitter := jitter + (Abs(rtts[i + 1] - rtts[i]) - jitter) / 16.0;
    }
    assert rtts != [] ==> rtts[..pairs + 1] == rtts;
  }

  /** Jitter lies between 0 and the largest difference of adjacent round-trip times. */
  lemma {:induction false} JitterBounded(rtts: seq<real>, bound: real)
    requires 0.0 <= bound
    requires forall i :: 0 < i < |rtts| ==> Abs(rtts[i] - rtts[i - 1]) <= bound
    ensures 0.0 <= JitterOf(rtts) <= bound
  {
    if |rtts| >= 2 {
      JitterBounded(rtts[..|rtts| - 1], bound);
    }
  }

  function Decay(n: nat): real {
    if n == 0 then 1.0 else Decay(n - 1) * 15.0 / 16.0
  }

  /** What is reached of `limit` when the fraction `gap` is still missing. */
  function Approached(limit: real, gap: real): real {
    limit * (1.0 - gap)
  }

  lemma SixteenthOfGap(limit: real, gap: real)
    ensures Smoothed(Approached(limit, gap), limit) == Approached(limit, gap * 15.0 / 16.0)
  {
  }

  /** Steady differences are approached from below, each sample closing a sixteenth of the gap. */
  lemma {:induction false} JitterConverges(rtts: seq<real>, step: real)
    requires |rtts| >= 1 && forall i :: 0 < i < |rtts| ==> Abs(rtts[i] - rtts[i - 1]) == step
    ensures JitterOf(rtts) == Approached(step, Decay(|rtts| - 1))
  {
    if |rtts| >= 2 {
      var n := |rtts| - 1;
      JitterConverges(rtts[..n], step);
      SixteenthOfGap(step, Decay(n - 1));
      assert Abs(rtts[n] - rtts[n - 1]) == step;
    }
  }

  /** Each difference counts a sixteenth, less a sixteenth of that for every later one. */
  function DecayedDifferences(rtts: seq<real>): real {
    if |rtts| < 2 then 0.0
    else Abs(rtts[1] - rtts[0]) / 16.0 * Decay(|rtts| - 2) + DecayedDifferences(rtts[1..])
  }

  lemma {:induction false} DecayedSnoc(rtts: seq<real>, x: real)
    requires rtts != []
    ensures DecayedDifferences(rtts + [x]) ==
      DecayedDifferences(rtts) * 15.0 / 16.0 + Abs(x - rtts[|rtts| - 1]) / 16.0
  {
    var after := rtts + [x];
    if |rtts| == 1 {
      assert after[1..] == [x];
    } else {
      DecayedSnoc(rtts[1..], x);
      assert after[1..] == rtts[1..] + [x];
      var first := Abs(rtts[1] - rtts[0]) / 16.0;
      assert first * Decay(|rtts| - 1) == first * Decay(|rtts| - 2) * 15.0 / 16.0;
    }
  }

  /** The recurrence in closed form. */
  lemma {:induction false} JitterInClosedForm(rtts: seq<real>)
    ensures JitterOf(rtts) == DecayedDifferences(rtts)
  {
    if |rtts| >= 2 {
      var n := |rtts| - 1;
      JitterInClosedForm(rtts[..n]);
      DecayedSnoc(rtts[..n], rtts[n]);
      assert rtts[..n] + [rtts[n]] == rtts;
    }
  }

  // ----- The probe's own summary -----

  function Sum(s: seq<real>): real {
    Total(s, Itself())
  }

  function Itself(): real -> real {
    (x: real) => x
  }

  function Mean(s: seq<real>): Option<real> {
    if s == [] then None else Some(Sum(s) / |s| as real)
  }

  /** Loss keeps every packet sent in the denominator. */
  function LossPct(sent: nat, received: nat): real
    requires sent > 0
  {
    (sent - received) as real / sent as real * 100.0
  }

  datatype ProbeMetrics = ProbeMetrics(sent: nat, received: nat, lossPct: real, mean: Option<real>,
                                       median: Option<real>, p95: Option<real>, jitter: real)

  datatype MetricsError = NoRows | NotFinal

  function ReceivedRtts(rows: seq<PacketResult>): seq<real> {
    if rows == [] then []
    else if rows[|rows| - 1].rttMs.Some? then ReceivedRtts(rows[..|rows| - 1]) + [rows[|rows| - 1].rttMs.value]
    else ReceivedRtts(rows[..|rows| - 1])
  }

  function MedianOf(values: seq<real>): Option<real> {
    LengthOfSort(values);
    if values == [] then None else Some(Median(Sort(values, RealOrder())))
  }

  lemma LengthOfSort(values: seq<real>)
    ensures |Sort(values, RealOrder())| == |values|
  {
    SortSorts(values, RealOrder());
  }

  predicate AnyPending(rows: seq<PacketResult>) {
    exists i :: 0 <= i < |rows| && rows[i].status == Pending
  }

  function CalculateProbeMetrics(rows: seq<PacketResult>): Result<ProbeMetrics, MetricsError> {
    if rows == [] then Err(NoRows)
    else if AnyPending(rows) then Err(NotFinal)
    else
      var rtts := ReceivedRtts(rows);
      Ok(ProbeMetrics(|rows|, |rtts|, LossPct(|rows|, |rtts|), Mean(rtts), MedianOf(rtts),
                      SampleQuantile(rtts, 0.95), JitterOf(rtts)))
  }

  predicate NonNegative(s: seq<real>) {
    forall i :: 0 <= i < |s| ==> s[i] >= 0.0
  }

  lemma {:induction false} ReceivedAreNonNegative(rows: seq<PacketResult>)
    requires forall i :: 0 <= i < |rows| && rows[i].rttMs.Some? ==> rows[i].rttMs.value >= 0.0
    ensures NonNegative(ReceivedRtts(rows)) && |ReceivedRtts(rows)| <= |rows|
  {
    if rows != [] {
      ReceivedAreNonNegative(rows[..|rows| - 1]);
    }
  }

  lemma {:induction false} SumIsNonNegative(s: seq<real>)
    requires NonNegative(s)
    ensures Sum(s) >= 0.0
  {
    if s != [] {
      SumIsNonNegative(s[..|s| - 1]);
    }
  }

  lemma {:induction false} JitterIsNonNegative(s: seq<real>)
    ensures JitterOf(s) >= 0.0
  {
    if |s| >= 2 {
      JitterIsNonNegative(s[..|s| - 1]);
    }
  }

  lemma QuotientNonNegative(a: real, n: nat)
    requires a >= 0.0 && n > 0
    ensures a / n as real >= 0.0
  {
    var q := a / n as real;
    assert q * n as real == a;
  }

  lemma LossInRange(sent: nat, received: nat)
    requires 0 < sent && received <= sent
    ensures 0.0 <= LossPct(sent, received) <= 100.0
  {
    var share := (sent - received) as real / sent as real;
    assert share * sent as real == (sent - received) as real;
  }

  /** What a consumer of the metrics relies on. */
  predicate InRange(m: ProbeMetrics) {
    && m.jitter >= 0.0 && 0.0 <= m.lossPct <= 100.0
    && (m.received > 0 ==> m.mean.Some? && m.mean.value >= 0.0)
  }

  lemma MetricsInRange(rows: seq<PacketResult>)
    requires CalculateProbeMetrics(rows).Ok?
    requires forall i :: 0 <= i < |rows| && rows[i].rttMs.Some? ==> rows[i].rttMs.value >= 0.0
    ensures InRange(CalculateProbeMetrics(rows).value)
  {
    var rtts := ReceivedRtts(rows);
    ReceivedAreNonNegative(rows);
    SumIsNonNegative(rtts);
    JitterIsNonNegative(rtts);
    LossInRange(|rows|, |rtts|);
    if rtts != [] {
      QuotientNonNegative(Sum(rtts), |rtts|);
    }
  }

  // ----- The analysis summary of the recorded table -----

  type Sample = (nat, real)

  /** Python's order of the pairs (sent time, round-trip time). */
  function SampleOrder(): (Sample, Sample) -> bool {
    (a: Sample, b: Sample) => a.0 < b.0 || (a.0 == b.0 && a.1 <= b.1)
  }

  datatype PacketSummary = PacketSummary(sent: nat, received: nat, lossPct: real, mean: Option<real>,
                                         median: Option<real>, p95: Option<real>, jitter: Option<real>)

  datatype TableError =
    | DuplicateSequence | ShortDatagram | MissingField | ReceivedBeforeSent | InconsistentRtt
    | TimeoutHasFields | NonFinalStatus | NoPackets

  /** `math.isclose` with a relative tolerance of 1e-9 and an absolute one of 1e-6. */
  predicate IsClose(a: real, b: real) {
    Abs(a - b) <= Max(0.000000001 * Max(Abs(a), Abs(b)), 0.000001)
  }

  function MeasuredRtt(row: PacketResult): real
    requires row.receivedNs.Some?
  {
    (row.receivedNs.value - row.sentNs) as real / 1000000.0
  }

  predicate RowOk(row: PacketResult) {
    && row.datagramBytes >= 32
    && match row.status
       case Received =>
         && row.receivedNs.Some? && row.receivedNs.value >= row.sentNs
         && row.rttMs.Some? && IsClose(row.rttMs.value, MeasuredRtt(row))
       case TimedOut => row.receivedNs.None? && row.rttMs.None?
       case Pending => false
  }

  ghost predicate Acceptable(rows: seq<PacketResult>) {
    && rows != []
    && (forall i :: 0 <= i < |rows| ==> RowOk(rows[i]))
    && (forall i, j :: 0 <= i < j < |rows| ==> rows[i].sequence != rows[j].sequence)
  }

  function Samples(rows: seq<PacketResult>): seq<Sample> {
    if rows == [] then []
    else if rows[|rows| - 1].rttMs.Some? then
      Samples(rows[..|rows| - 1]) + [(rows[|rows| - 1].sentNs, rows[|rows| - 1].rttMs.value)]
    else Samples(rows[..|rows| - 1])
  }

  function RttsOf(samples: seq<Sample>): (r: seq<real>)
    ensures |r| == |samples| && forall i :: 0 <= i < |r| ==> r[i] == samples[i].1
  {
    if samples == [] then [] else [samples[0].1] + RttsOf(samples[1..])
  }

  function SummaryOf(sent: nat, received: seq<Sample>): PacketSummary
    requires sent > 0
  {
    var rtts := RttsOf(Sort(received, SampleOrder()));
    PacketSummary(sent, |rtts|, LossPct(sent, |rtts|), Mean(rtts), MedianOf(rtts), SampleQuantile(rtts, 0.95),
                  if rtts == [] then None else Some(JitterOf(rtts)))
  }

  method CheckRow(row: PacketResult) returns (e: Option<TableError>)
    ensures e.None? <==> RowOk(row)
  {
    if row.datagramBytes < 32 {
      return Some(ShortDatagram);
    }
    match row.status
    case Received =>
      if row.receivedNs.None? || row.rttMs.None? {
        return Some(MissingField);
      }
      if row.receivedNs.value < row.sentNs {
        return Some(ReceivedBeforeSent);
      }
      return if IsClose(row.rttMs.value, MeasuredRtt(row)) then None else Some(InconsistentRtt);
    case TimedOut =>
      return if row.receivedNs.Some? || row.rttMs.Some? then Some(TimeoutHasFields) else None;
    case Pending =>
      return Some(NonFinalStatus);
  }

  // ----- What the counted figures mean, row by row -----

  function WithStatus(rows: seq<PacketResult>, status: PacketStatus): set<nat> {
    set i: nat | i < |rows| && rows[i].status == status
  }

  /** The round-trip times of the answered packets, added up. */
  function AnsweredTotal(rows: seq<PacketResult>): real {
    if rows == [] then 0.0
    else
      var last := rows[|rows| - 1];
      AnsweredTotal(rows[..|rows| - 1])
      + if last.status == Received && last.rttMs.Some? then last.rttMs.value else 0.0
  }

  /** Loss is the percentage of rows that timed out. */
  ghost predicate LossCounts(rows: seq<PacketResult>, lossPct: real) {
    lossPct * |rows| as real == 100.0 * |WithStatus(rows, TimedOut)| as real
  }

  /** The mean is that of the answered rows, if there are any. */
  ghost predicate MeanCounts(rows: seq<PacketResult>, mean: Option<real>) {
    var answered := |WithStatus(rows, Received)|;
    && (mean.Some? <==> answered > 0)
    && (mean.Some? ==> mean.value * answered as real == AnsweredTotal(rows))
  }

  ghost predicate Counts(rows: seq<PacketResult>, sent: nat, received: nat, lossPct: real, mean: Option<real>) {
    && sent == |rows| && received == |WithStatus(rows, Received)|
    && LossCounts(rows, lossPct) && MeanCounts(rows, mean)
  }

  lemma StatusSnoc(rows: seq<PacketResult>, status: PacketStatus)
    requires rows != []
    ensures |WithStatus(rows, status)| ==
      |WithStatus(rows[..|rows| - 1], status)| + if rows[|rows| - 1].status == status then 1 else 0
  {
    var n := |rows| - 1;
    var before := WithStatus(rows[..n], status);
    assert WithStatus(rows, status) == if rows[n].status == status then before + {n} else before;
  }

  lemma {:induction false} AnswersAreCounted(rows: seq<PacketResult>)
    requires forall i :: 0 <= i < |rows| ==> RowOk(rows[i])
    ensures |ReceivedRtts(rows)| == |WithStatus(rows, Received)|
    ensures |WithStatus(rows, Received)| + |WithStatus(rows, TimedOut)| == |rows|
    ensures Sum(ReceivedRtts(rows)) == AnsweredTotal(rows)
  {
    if rows != [] {
      var n := |rows| - 1;
      AnswersAreCounted(rows[..n]);
      StatusSnoc(rows, Received);
      StatusSnoc(rows, TimedOut);
      assert RowOk(rows[n]);
      if rows[n].status == Received {
        TotalSnoc(ReceivedRtts(rows[..n]), rows[n].rttMs.value, Itself());
      }
    } else {
      assert WithStatus(rows, Received) == {} && WithStatus(rows, TimedOut) == {};
    }
  }

  lemma LossTimesSent(sent: nat, received: nat)
    requires 0 < sent && received <= sent
    ensures LossPct(sent, received) * sent as real == 100.0 * (sent - received) as real
  {
    var share := (sent - received) as real / sent as real;
    assert share * sent as real == (sent - received) as real;
    assert LossPct(sent, received) == share * 100.0;
  }

  lemma MeanTimesCount(s: seq<real>, n: nat, total: real)
    requires n == |s| && total == Sum(s)
    ensures Mean(s).Some? <==> n > 0
    ensures Mean(s).Some? ==> Mean(s).value * n as real == total
  {
  }

  lemma RttsLoss(rows: seq<PacketResult>)
    requires Acceptable(rows)
    ensures |ReceivedRtts(rows)| <= |rows| && LossCounts(rows, LossPct(|rows|, |ReceivedRtts(rows)|))
  {
    AnswersAreCounted(rows);
    LossTimesSent(|rows|, |ReceivedRtts(rows)|);
  }

  lemma RttsMean(rows: seq<PacketResult>)
    requires Acceptable(rows)
    ensures |ReceivedRtts(rows)| == |WithStatus(rows, Received)| && MeanCounts(rows, Mean(ReceivedRtts(rows)))
  {
    AnswersAreCounted(rows);
    MeanOfAnswers(rows, ReceivedRtts(rows));
  }

  lemma MeanOfAnswers(rows: seq<PacketResult>, rtts: seq<real>)
    requires |rtts| == |WithStatus(rows, Received)| && Sum(rtts) == AnsweredTotal(rows)
    ensures MeanCounts(rows, Mean(rtts))
  {
    MeanTimesCount(rtts, |WithStatus(rows, Received)|, AnsweredTotal(rows));
  }

  /** The probe's own figures count the rows. */
  lemma ProbeCounts(rows: seq<PacketResult>)
    requires Acceptable(rows)
    ensures CalculateProbeMetrics(rows).Ok?
    ensures
      var m := CalculateProbeMetrics(rows).value;
      Counts(rows, m.sent, m.received, m.lossPct, m.mean)
  {
    FinalRows(rows);
    RttsLoss(rows);
    RttsMean(rows);
  }

  /** So do those of the analysis. */
  lemma SummaryCounts(rows: seq<PacketResult>)
    requires Acceptable(rows)
    ensures
      var s := SummaryOf(|rows|, Samples(rows));
      Counts(rows, s.sent, s.received, s.lossPct, s.mean)
  {
    ProbeCounts(rows);
    SummariesShareCounts(rows);
  }

  /** No loss exactly if everything was answered, total loss exactly if nothing was. */
  lemma LossAtTheEnds(rows: seq<PacketResult>, lossPct: real)
    requires Acceptable(rows) && LossCounts(rows, lossPct)
    ensures lossPct == 0.0 <==> forall i :: 0 <= i < |rows| ==> rows[i].status == Received
    ensures lossPct == 100.0 <==> forall i :: 0 <= i < |rows| ==> rows[i].status == TimedOut
  {
    var answered, lost := |WithStatus(rows, Received)|, |WithStatus(rows, TimedOut)|;
    assert answered + lost == |rows| by {
      AnswersAreCounted(rows);
    }
    ShareOfWhole(lossPct, lost, |rows|);
    FinalStatuses(rows);
    NoneWithStatus(rows, TimedOut);
    NoneWithStatus(rows, Received);
  }

  lemma FinalStatuses(rows: seq<PacketResult>)
    requires Acceptable(rows)
    ensures forall i :: 0 <= i < |rows| ==> (rows[i].status == Received <==> rows[i].status != TimedOut)
  {
    forall i | 0 <= i < |rows| ensures rows[i].status == Received <==> rows[i].status != TimedOut {
      assert RowOk(rows[i]);
    }
  }

  lemma NoneWithStatus(rows: seq<PacketResult>, status: PacketStatus)
    ensures |WithStatus(rows, status)| == 0 <==> forall i :: 0 <= i < |rows| ==> rows[i].status != status
  {
    forall i: nat | i < |rows| ensures i in WithStatus(rows, status) <==> rows[i].status == status {
    }
  }

  lemma ShareOfWhole(percent: real, part: nat, whole: nat)
    requires 0 < whole && part <= whole && percent * whole as real == 100.0 * part as real
    ensures percent == 0.0 <==> part == 0
    ensures percent == 100.0 <==> part == whole
  {
    var w, p := whole as real, part as real;
    if percent != 0.0 {
      assert percent * w != 0.0;
    }
    assert (percent - 100.0) * w == 100.0 * (p - w);
    if percent != 100.0 {
      assert (percent - 100.0) * w != 0.0;
    }
  }

  /** The value at nineteen twentieths of the way through the sorted list. */
  ghost predicate IsNinetyFifth(s: seq<real>, value: Option<real>) {
    if s == [] then value.None?
    else
      var reach := 19 * (|s| - 1);
      var i, rest := reach / 20, (reach % 20) as real / 20.0;
      i < |s| && (rest > 0.0 ==> i + 1 < |s|) && value == Some(OnTheLine(s, i, rest))
  }

  lemma NinetyFifth(s: seq<real>)
    ensures IsNinetyFifth(s, LinearQuantile(s, 0.95))
  {
    if |s| > 1 {
      var reach := 19 * (|s| - 1);
      var i, rest := reach / 20, (reach % 20) as real / 20.0;
      assert reach == 20 * i + reach % 20;
      assert i < |s| - 1;
      assert (|s| - 1) as real * 0.95 == i as real + rest;
      QuantileAtRank(s, 0.95, i, rest);
    }
  }

  /** Both readers report the median and the 95th percentile of the sorted round-trip times. */
  lemma FiguresByRank(rows: seq<PacketResult>)
    requires Acceptable(rows)
    ensures
      var probe := CalculateProbeMetrics(rows);
      var analysis := SummaryOf(|rows|, Samples(rows));
      var sorted := Sort(ReceivedRtts(rows), RealOrder());
      && probe.Ok?
      && IsNinetyFifth(sorted, probe.value.p95) && IsNinetyFifth(sorted, analysis.p95)
      && probe.value.median == LinearQuantile(sorted, 0.5) && analysis.median == LinearQuantile(sorted, 0.5)
  {
    SummariesShareCounts(rows);
    NinetyFifth(Sort(ReceivedRtts(rows), RealOrder()));
    LengthOfSort(ReceivedRtts(rows));
    if ReceivedRtts(rows) != [] {
      QuantileAtHalfIsMedian(Sort(ReceivedRtts(rows), RealOrder()));
    }
  }

  /** The tolerance is a nanosecond up to 1000 ms, and a billionth of the larger time above. */
  lemma ToleranceOfRtt(a: real, b: real)
    requires a >= 0.0 && b >= 0.0
    ensures a <= 1000.0 && b <= 1000.0 ==> (IsClose(a, b) <==> -0.000001 <= a - b <= 0.000001)
    ensures a >= b && a > 1000.0 ==> (IsClose(a, b) <==> 1000000000.0 * (a - b) <= a)
    ensures b >= a && b > 1000.0 ==> (IsClose(a, b) <==> 1000000000.0 * (b - a) <= b)
  {
  }

  method SummarisePacketRows(rows: seq<PacketResult>) returns (r: Result<PacketSummary, TableError>)
    ensures r.Ok? <==> Acceptable(rows)
    ensures r.Ok? ==> r.value == SummaryOf(|rows|, Samples(rows))
    ensures r.Ok? ==> Counts(rows, r.value.sent, r.value.received, r.value.lossPct, r.value.mean)
  {
    var seen: set<nat> := {};
    var received: seq<Sample> := [];
    for i := 0 to |rows|
      invariant seen == set k | 0 <= k < i :: rows[k].sequence
      invariant received == Samples(rows[..i])
      invariant forall k :: 0 <= k < i ==> RowOk(rows[k])
      invariant forall j, k :: 0 <= j < k < i ==> rows[j].sequence != rows[k].sequence
    {
      var row := rows[i];
      if row.sequence in seen {
        return Err(DuplicateSequence);
      }
      seen := seen + {row.sequence};
      var e := CheckRow(row);
      if e.Some? {
        return Err(e.value);
      }
      if row.status == Received {
        received := received + [(row.sentNs, row.rttMs.value)];
      }
      assert rows[..i + 1][..i] == rows[..i];
    }
    assert rows[..|rows|] == rows;
    if rows == [] {
      return Err(NoPackets);
    }
    SummaryCounts(rows);
    return Ok(SummaryOf(|rows|, received));
  }

  // ----- Where the two summaries agree -----

  lemma {:induction false} SamplesCarryRtts(rows: seq<PacketResult>)
    ensures RttsOf(Samples(rows)) == ReceivedRtts(rows)
  {
    if rows != [] {
      SamplesCarryRtts(rows[..|rows| - 1]);
    }
  }

  lemma {:induction false} InsertKeepsRtts(x: Sample, s: seq<Sample>)
    ensures multiset(RttsOf(Insert(x, s, SampleOrder()))) == multiset(RttsOf(s)) + multiset{x.1}
  {
    if s != [] {
      assert RttsOf(s) == [s[0].1] + RttsOf(s[1..]);
      if SampleOrder()(x, s[0]) {
        assert RttsOf([x] + s) == [x.1] + RttsOf(s);
      } else {
        InsertKeepsRtts(x, s[1..]);
        var rest := Insert(x, s[1..], SampleOrder());
        assert RttsOf([s[0]] + rest) == [s[0].1] + RttsOf(rest);
      }
    }
  }

  lemma {:induction false} SortKeepsRtts(s: seq<Sample>)
    ensures multiset(RttsOf(Sort(s, SampleOrder()))) == multiset(RttsOf(s))
  {
    if s != [] {
      SortKeepsRtts(s[1..]);
      InsertKeepsRtts(s[0], Sort(s[1..], SampleOrder()));
      assert RttsOf(s) == [s[0].1] + RttsOf(s[1..]);
    }
  }

  lemma {:induction false} SumOfInsert(x: real, s: seq<real>)
    ensures Sum(Insert(x, s, RealOrder())) == x + Sum(s)
  {
    if s != [] {
      if x <= s[0] {
        TotalCons(x, s, Itself());
      } else {
        SumOfInsert(x, s[1..]);
        TotalCons(s[0], Insert(x, s[1..], RealOrder()), Itself());
        TotalCons(s[0], s[1..], Itself());
        assert s == [s[0]] + s[1..];
      }
    }
  }

  lemma {:induction false} SumOfSort(s: seq<real>)
    ensures Sum(Sort(s, RealOrder())) == Sum(s)
  {
    if s != [] {
      SumOfSort(s[1..]);
      SumOfInsert(s[0], Sort(s[1..], RealOrder()));
      TotalCons(s[0], s[1..], Itself());
      assert s == [s[0]] + s[1..];
    }
  }

  lemma OrderFreeMetrics(a: seq<real>, b: seq<real>)
    requires multiset(a) == multiset(b)
    ensures Mean(a) == Mean(b) && MedianOf(a) == MedianOf(b) && SampleQuantile(a, 0.95) == SampleQuantile(b, 0.95)
  {
    SameElements(a, b);
    SumOfSort(a);
    SumOfSort(b);
    SortForgetsOrder(a, b);
  }

  /** The analysis reads the samples in the probe's order exactly when they are sorted by time, then value. */
  lemma OrderIsKept(s: seq<Sample>)
    ensures Sort(s, SampleOrder()) == s <==> Sorted(s, SampleOrder())
  {
    SortSorts(s, SampleOrder());
    if Sorted(s, SampleOrder()) {
      SortedStays(s, SampleOrder());
    }
  }

  predicate SendsIncrease(rows: seq<PacketResult>) {
    forall i, j :: 0 <= i < j < |rows| ==> rows[i].sentNs < rows[j].sentNs
  }

  /** Strictly increasing send times are one way for the samples to be in order. */
  lemma {:induction false} SamplesIncrease(rows: seq<PacketResult>)
    requires SendsIncrease(rows)
    ensures Sorted(Samples(rows), SampleOrder())
    ensures rows != [] ==> forall i :: 0 <= i < |Samples(rows)| ==> Samples(rows)[i].0 <= rows[|rows| - 1].sentNs
  {
    if rows != [] {
      SamplesIncrease(rows[..|rows| - 1]);
    }
  }

  /** Send times do not decrease. */
  ghost predicate SendsInOrder(rows: seq<PacketResult>) {
    forall i, j :: 0 <= i < j < |rows| ==> rows[i].sentNs <= rows[j].sentNs
  }

  function TimesOf(samples: seq<Sample>): (times: seq<int>)
    ensures |times| == |samples| && forall i :: 0 <= i < |times| ==> times[i] == samples[i].0
  {
    if samples == [] then [] else [samples[0].0] + TimesOf(samples[1..])
  }

  lemma {:induction false} SamplesInOrder(rows: seq<PacketResult>)
    requires SendsInOrder(rows)
    ensures forall i, j :: 0 <= i < j < |Samples(rows)| ==> Samples(rows)[i].0 <= Samples(rows)[j].0
    ensures rows != [] ==> forall i :: 0 <= i < |Samples(rows)| ==> Samples(rows)[i].0 <= rows[|rows| - 1].sentNs
  {
    if rows != [] {
      SamplesInOrder(rows[..|rows| - 1]);
    }
  }

  /** A sample sent no later than the others goes to the front, or among those sent with it. */
  lemma {:induction false} InsertFirstKeepsTimes(x: Sample, s: seq<Sample>)
    requires forall i :: 0 <= i < |s| ==> x.0 <= s[i].0
    ensures TimesOf(Insert(x, s, SampleOrder())) == [x.0] + TimesOf(s)
  {
    if s != [] && !SampleOrder()(x, s[0]) {
      InsertFirstKeepsTimes(x, s[1..]);
      assert TimesOf([s[0]] + Insert(x, s[1..], SampleOrder())) == [s[0].0] + ([x.0] + TimesOf(s[1..]));
      assert s[0].0 == x.0;
    }
  }

  lemma {:induction false} SortKeepsTimes(s: seq<Sample>)
    requires forall i, j :: 0 <= i < j < |s| ==> s[i].0 <= s[j].0
    ensures TimesOf(Sort(s, SampleOrder())) == TimesOf(s)
  {
    if s != [] {
      var rest := Sort(s[1..], SampleOrder());
      SortKeepsTimes(s[1..]);
      forall i | 0 <= i < |rest| ensures s[0].0 <= rest[i].0 {
        assert TimesOf(rest)[i] == TimesOf(s[1..])[i];
      }
      InsertFirstKeepsTimes(s[0], rest);
    }
  }

  /** Packets recorded in the order they were sent: the analysis can only reorder packets of one send time. */
  lemma RecordedOrderIsKept(rows: seq<PacketResult>)
    requires SendsInOrder(rows)
    ensures TimesOf(Sort(Samples(rows), SampleOrder())) == TimesOf(Samples(rows))
  {
    SamplesInOrder(rows);
    SortKeepsTimes(Samples(rows));
  }

  lemma FinalRows(rows: seq<PacketResult>)
    requires Acceptable(rows)
    ensures CalculateProbeMetrics(rows).Ok?
  {
    forall i | 0 <= i < |rows| ensures rows[i].status != Pending {
      assert RowOk(rows[i]);
    }
  }

  /** Everything but jitter agrees for any table both accept. */
  lemma SummariesShareCounts(rows: seq<PacketResult>)
    requires Acceptable(rows)
    ensures
      var probe := CalculateProbeMetrics(rows);
      var analysis := SummaryOf(|rows|, Samples(rows));
      && probe.Ok?
      && analysis.sent == probe.value.sent && analysis.received == probe.value.received
      && analysis.lossPct == probe.value.lossPct && analysis.mean == probe.value.mean
      && analysis.median == probe.value.median && analysis.p95 == probe.value.p95
  {
    FinalRows(rows);
    SamplesCarryRtts(rows);
    SortKeepsRtts(Samples(rows));
    var ordered := RttsOf(Sort(Samples(rows), SampleOrder()));
    OrderFreeMetrics(ordered, ReceivedRtts(rows));
    SameElements(ordered, ReceivedRtts(rows));
  }

  /**
    * Jitter agrees when the samples are in order, ties by value, and something came back; with no answer
    * it never does.
    */
  lemma JitterAgrees(rows: seq<PacketResult>)
    requires Acceptable(rows) && Sorted(Samples(rows), SampleOrder())
    ensures
      var probe := CalculateProbeMetrics(rows);
      var analysis := SummaryOf(|rows|, Samples(rows));
      probe.Ok? && (analysis.jitter == Some(probe.value.jitter) <==> probe.value.received > 0)
  {
    FinalRows(rows);
    SamplesCarryRtts(rows);
    OrderIsKept(Samples(rows));
  }

  /** With strictly increasing send times the two summaries agree in everything once something came back. */
  lemma IncreasingSendsAgree(rows: seq<PacketResult>)
    requires Acceptable(rows) && SendsIncrease(rows)
    ensures
      var probe := CalculateProbeMetrics(rows);
      var analysis := SummaryOf(|rows|, Samples(rows));
      && probe.Ok? && (analysis.jitter == Some(probe.value.jitter) <==> probe.value.received > 0)
      && analysis.received == probe.value.received && analysis.lossPct == probe.value.lossPct
      && analysis.mean == probe.value.mean && analysis.median == probe.value.median && analysis.p95 == probe.value.p95
  {
    SamplesIncrease(rows);
    JitterAgrees(rows);
    SummariesShareCounts(rows);
  }

  function TiedRow(sequence: nat, rttNs: nat): PacketResult {
    PacketResult(sequence, 0, 0, 64, Received, Some(rttNs), Some(rttNs as real / 1000000.0))
  }

  function TiedRows(): seq<PacketResult> {
    [TiedRow(0, 1000000), TiedRow(1, 3000000), TiedRow(2, 1000000)]
  }

  lemma TiedSamples()
    ensures Samples(TiedRows()) == [(0, 1.0), (0, 3.0), (0, 1.0)]
    ensures RttsOf(Sort(Samples(TiedRows()), SampleOrder())) == [1.0, 1.0, 3.0]
  {
    var rows := TiedRows();
    assert rows[..2][..1] == [rows[0]] && [rows[0]][..0] == [];
    assert Samples([rows[0]]) == [(0, 1.0)];
    assert Samples(rows[..2]) == [(0, 1.0), (0, 3.0)];
    var a: Sample, b: Sample := (0, 1.0), (0, 3.0);
    assert [a, b, a][1..] == [b, a] && [b, a][1..] == [a] && [a][1..] == [];
    assert Sort([a], SampleOrder()) == [a];
    assert [a, b][1..] == [b];
    assert Sort([b, a], SampleOrder()) == [a] + Insert(b, [], SampleOrder());
    assert Sort([a, b, a], SampleOrder()) == [a, a, b];
    assert RttsOf([a, a, b]) == [1.0, 1.0, 3.0];
  }

  /** Three packets sent in the same nanosecond: the analysis reorders them and reports another jitter. */
  lemma TiedSendsDisagree()
    ensures Acceptable(TiedRows())
    ensures SummaryOf(3, Samples(TiedRows())).jitter != Some(CalculateProbeMetrics(TiedRows()).value.jitter)
  {
    TiedSamples();
    FinalRows(TiedRows());
    SamplesCarryRtts(TiedRows());
    assert ReceivedRtts(TiedRows()) == [1.0, 3.0, 1.0];
    JitterOfThree(1.0, 3.0, 1.0);
    JitterOfThree(1.0, 1.0, 3.0);
  }

  lemma JitterOfThree(a: real, b: real, c: real)
    ensures JitterOf([a, b, c]) == Abs(b - a) / 16.0 + (Abs(c - b) - Abs(b - a) / 16.0) / 16.0
  {
    assert [a, b, c][..2] == [a, b] && [a, b][..1] == [a];
    assert JitterOf([a]) == 0.0;
  }
}
