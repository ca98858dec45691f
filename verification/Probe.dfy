/** One probe exchange: a paced sender, a receiver thread, a deadline, and the table between them. */
module Probe {
  import opened Common
  import opened Sorting
  import opened Codec
  import opened Ledger
  import opened Metrics

  datatype ProbeError =
    | BadCount | ReceiverFailed | BadPacket | CannotRecord | SendFailed | CleanupFailed | CannotFinalize

  datatype ProbeRun = ProbeRun(rows: seq<PacketResult>, metrics: ProbeMetrics, attributionErrors: nat,
                               duplicateEchoes: nat)

  // ----- The table while both threads use it -----

  /** Sequences 0..n-1 were sent, in order of time, none after `clock`. */
  ghost predicate Sent(s: State, n: nat, clock: nat) {
    && (forall q: nat :: q in s.entries <==> q < n)
    && (forall q :: q in s.entries ==> s.entries[q].sentNs <= clock)
    && (forall p, q :: p in s.entries && q in s.entries && p < q ==> s.entries[p].sentNs <= s.entries[q].sentNs)
  }

  /** What the receiver can do: settle entries and count, never send or forget. */
  ghost predicate Advances(before: State, after: State) {
    && after.runToken == before.runToken && after.pathIndex == before.pathIndex
    && after.entries.Keys == before.entries.Keys
    && forall q :: q in before.entries ==> Evolves(before.entries[q], after.entries[q])
  }

  /** When sending may begin, how far packets are apart, and how large each is. */
  datatype Pace = Pace(start: nat, interval: nat, size: nat) {
    function Due(sequence: nat): nat {
      start + sequence * interval
    }
  }

  /** No packet was sent before its turn, and each has the size asked for. */
  ghost predicate SentFrom(s: State, pace: Pace) {
    forall q :: q in s.entries ==> pace.Due(q) <= s.entries[q].sentNs && s.entries[q].datagramBytes == pace.size
  }

  lemma SentKept(before: State, after: State, n: nat, clock: nat, later: nat)
    requires Sent(before, n, clock) && Advances(before, after) && clock <= later
    ensures Sent(after, n, later)
    ensures forall pace {:trigger SentFrom(after, pace)} :: SentFrom(before, pace) ==> SentFrom(after, pace)
  {
    forall q | q in after.entries ensures after.entries[q].sentNs == before.entries[q].sentNs {
      assert q in before.entries && Evolves(before.entries[q], after.entries[q]);
    }
  }

  lemma SendExtends(s: State, n: nat, clock: nat, e: Entry)
    requires Sent(s, n, clock) && e.sentNs == clock
    ensures Sent(s.(entries := s.entries[n := e]), n + 1, clock)
    ensures forall pace {:trigger SentFrom(s, pace)} ::
      SentFrom(s, pace) && pace.Due(n) <= clock && e.datagramBytes == pace.size ==>
        SentFrom(s.(entries := s.entries[n := e]), pace)
  {
  }

  lemma EchoAdvances(s: State, p: Packet, receivedNs: int)
    ensures Advances(s, Apply(s, Echo(p, receivedNs)))
  {
  }

  lemma SentSize(s: State, n: nat, clock: nat)
    requires Sent(s, n, clock)
    ensures |s.entries| == n
  {
    assert s.entries.Keys == Below(n);
  }

  ghost predicate SentBy(s: State, time: int) {
    forall q :: q in s.entries ==> s.entries[q].sentNs <= time
  }

  lemma SentByKept(before: State, after: State, time: int)
    requires SentBy(before, time) && Advances(before, after)
    ensures SentBy(after, time)
  {
    forall q | q in after.entries ensures after.entries[q].sentNs <= time {
      assert q in before.entries && Evolves(before.entries[q], after.entries[q]);
    }
  }

  /** Every packet was answered or has had its full timeout. */
  ghost predicate Ready(s: State, clock: nat, timeoutNs: nat) {
    forall q :: q in s.entries ==> StatusOf(s.entries[q]) != Pending || clock - s.entries[q].sentNs >= timeoutNs
  }

  lemma ReadyKept(before: State, after: State, clock: nat, later: nat, timeoutNs: nat)
    requires Ready(before, clock, timeoutNs) && Advances(before, after) && clock <= later
    ensures Ready(after, later, timeoutNs)
  {
    forall q | q in after.entries
      ensures StatusOf(after.entries[q]) != Pending || later - after.entries[q].sentNs >= timeoutNs
    {
      assert q in before.entries && Evolves(before.entries[q], after.entries[q]);
    }
  }

  // ----- What the rows of a settled table say -----

  lemma {:induction false} IncreasingGap(rows: seq<PacketResult>, i: nat, j: nat)
    requires i <= j < |rows|
    requires forall a, b :: 0 <= a < b < |rows| ==> rows[a].sequence < rows[b].sequence
    ensures rows[j].sequence - rows[i].sequence >= j - i
    decreases j
  {
    if i < j {
      IncreasingGap(rows, i, j - 1);
    }
  }

  /** The rows are numbered 0..n-1. */
  lemma RowsAreNumbered(rows: seq<PacketResult>, s: State, n: nat, clock: nat)
    requires RowsOf(rows, s) && Sent(s, n, clock)
    ensures |rows| == n && forall i :: 0 <= i < n ==> rows[i].sequence == i
  {
    SentSize(s, n, clock);
    forall i | 0 <= i < n ensures rows[i].sequence == i {
      IncreasingGap(rows, 0, i);
      IncreasingGap(rows, i, n - 1);
      assert rows[n - 1].sequence in s.entries;
    }
  }

  ghost predicate Numbered(rows: seq<PacketResult>, s: State) {
    && |rows| == |s.entries|
    && forall i :: 0 <= i < |rows| ==> i in s.entries && rows[i] == RowOf(s, i)
  }

  function ReceivedBelow(s: State, k: nat): set<nat> {
    set q | q in s.entries && q < k && StatusOf(s.entries[q]) == Received
  }

  lemma {:induction false} ReceivedRttsCount(rows: seq<PacketResult>, s: State, k: nat)
    requires Numbered(rows, s) && k <= |rows|
    ensures |ReceivedRtts(rows[..k])| == |ReceivedBelow(s, k)|
  {
    if k == 0 {
      assert ReceivedBelow(s, 0) == {};
    } else {
      ReceivedRttsCount(rows, s, k - 1);
      assert rows[..k][..k - 1] == rows[..k - 1];
      assert rows[k - 1] == RowOf(s, k - 1);
      assert ReceivedBelow(s, k) ==
        if StatusOf(s.entries[k - 1]) == Received then ReceivedBelow(s, k - 1) + {k - 1} else ReceivedBelow(s, k - 1);
    }
  }

  /** What a datagram was taken for: the first answer of a packet, another answer of it, or anything else. */
  datatype Verdict = First | Repeat | Stray

  ghost function Tally(verdicts: seq<Verdict>, v: Verdict): nat {
    if verdicts == [] then 0
    else Tally(verdicts[..|verdicts| - 1], v) + if verdicts[|verdicts| - 1] == v then 1 else 0
  }

  lemma TallyNext(verdicts: seq<Verdict>, next: Verdict)
    ensures forall v :: Tally(verdicts + [next], v) == Tally(verdicts, v) + if next == v then 1 else 0
  {
    assert (verdicts + [next])[..|verdicts|] == verdicts;
  }

  lemma {:induction false} TallyAll(verdicts: seq<Verdict>)
    ensures Tally(verdicts, First) + Tally(verdicts, Repeat) + Tally(verdicts, Stray) == |verdicts|
  {
    if verdicts != [] {
      TallyAll(verdicts[..|verdicts| - 1]);
    }
  }

  /** The three counts are those of the datagrams so far. */
  ghost predicate Judged(s: State, verdicts: seq<Verdict>) {
    && |ReceivedSet(s)| == Tally(verdicts, First)
    && s.duplicateEchoes == Tally(verdicts, Repeat)
    && s.attributionErrors == Tally(verdicts, Stray)
  }

  /** How an answer is judged by the packets sent and answered before it. */
  ghost function Judge(s: State, response: Packet, receivedNs: int): Verdict {
    if !Answers(s, response, receivedNs) then Stray
    else if s.entries[response.sequence].receivedNs.Some? || s.entries[response.sequence].timedOut then Repeat
    else First
  }

  lemma EchoIsCounted(s: State, response: Packet, receivedNs: int, verdicts: seq<Verdict>)
    requires Judged(s, verdicts) && IsUint(receivedNs)
    ensures Judged(Apply(s, Echo(response, receivedNs)), verdicts + [Judge(s, response, receivedNs)])
  {
    EchoIsJudged(s, response, receivedNs);
    TallyNext(verdicts, Judge(s, response, receivedNs));
    ApplyAccounts(s, Echo(response, receivedNs));
    assert [Echo(response, receivedNs)][1..] == [];
  }

  /** What the exchange reports is complete, well ordered, and counts every packet and datagram once. */
  ghost predicate Reported(run: ProbeRun, count: nat, verdicts: seq<Verdict>) {
    && |run.rows| == count
    && (forall i :: 0 <= i < count ==> run.rows[i].sequence == i)
    && SendsInOrder(run.rows)
    && Acceptable(run.rows)
    && CalculateProbeMetrics(run.rows) == Ok(run.metrics)
    && Counts(run.rows, run.metrics.sent, run.metrics.received, run.metrics.lossPct, run.metrics.mean)
    && run.metrics.sent == count && InRange(run.metrics)
    && run.metrics.received == Tally(verdicts, First)
    && run.duplicateEchoes == Tally(verdicts, Repeat)
    && run.attributionErrors == Tally(verdicts, Stray)
    && run.metrics.received + run.duplicateEchoes + run.attributionErrors == |verdicts|
  }

  lemma RowIsOk(s: State, q: nat)
    requires q in s.entries && EntrySane(s.entries[q]) && StatusOf(s.entries[q]) != Pending
    ensures RowOk(RowOf(s, q))
  {
  }

  lemma SettledRowsAcceptable(rows: seq<PacketResult>, s: State)
    requires Numbered(rows, s) && Sane(s) && Settled(s) && rows != []
    ensures Acceptable(rows)
  {
    forall i | 0 <= i < |rows| ensures RowOk(rows[i]) {
      RowIsOk(s, i);
    }
  }

  lemma MeasuredRowsInRange(rows: seq<PacketResult>, s: State)
    requires Numbered(rows, s) && Sane(s) && CalculateProbeMetrics(rows).Ok?
    ensures InRange(CalculateProbeMetrics(rows).value)
  {
    forall i | 0 <= i < |rows| && rows[i].rttMs.Some? ensures rows[i].rttMs.value >= 0.0 {
      assert EntrySane(s.entries[i]);
    }
    MetricsInRange(rows);
  }

  lemma SettledReport(rows: seq<PacketResult>, s: State, count: nat, clock: nat, verdicts: seq<Verdict>)
    requires RowsOf(rows, s) && Sent(s, count, clock) && Sane(s) && Settled(s) && count > 0 && Judged(s, verdicts)
    ensures CalculateProbeMetrics(rows).Ok?
    ensures
      var metrics := CalculateProbeMetrics(rows).value;
      Reported(ProbeRun(rows, metrics, s.attributionErrors, s.duplicateEchoes), count, verdicts)
  {
    RowsAreNumbered(rows, s, count, clock);
    SettledRowsAcceptable(rows, s);
    ProbeCounts(rows);
    MeasuredRowsInRange(rows, s);
    AllReceivedCount(rows, s, count);
    TallyAll(verdicts);
    RowsSentInOrder(rows, s, count, clock);
  }

  lemma AllReceivedCount(rows: seq<PacketResult>, s: State, count: nat)
    requires Numbered(rows, s) && |rows| == count && (forall q: nat :: q in s.entries <==> q < count)
    ensures |ReceivedRtts(rows)| == |ReceivedSet(s)|
  {
    ReceivedRttsCount(rows, s, |rows|);
    assert rows[..|rows|] == rows;
    assert ReceivedBelow(s, count) == ReceivedSet(s);
  }

  lemma RowsSentInOrder(rows: seq<PacketResult>, s: State, count: nat, clock: nat)
    requires Numbered(rows, s) && Sent(s, count, clock) && |rows| == count
    ensures SendsInOrder(rows)
  {
    forall i, j | 0 <= i < j < count ensures rows[i].sentNs <= rows[j].sentNs {
      assert i in s.entries && j in s.entries;
    }
  }

  lemma ReceivedAtMostSent(s: State, n: nat, clock: nat)
    requires Sent(s, n, clock)
    ensures |ReceivedSet(s)| <= n
    ensures |ReceivedSet(s)| == n ==> ReceivedSet(s) == s.entries.Keys
  {
    SentSize(s, n, clock);
    SubsetSize(ReceivedSet(s), s.entries.Keys);
    if |ReceivedSet(s)| == n {
      assert |s.entries.Keys - ReceivedSet(s)| == 0;
    }
  }

  predicate SentWithin(rows: seq<PacketResult>, from: nat, to: nat) {
    forall i :: 0 <= i < |rows| ==> from <= rows[i].sentNs <= to
  }

  /** Each row was sent in its turn, with the size asked for. */
  predicate Paced(rows: seq<PacketResult>, pace: Pace) {
    forall i :: 0 <= i < |rows| ==> pace.Due(i) <= rows[i].sentNs && rows[i].datagramBytes == pace.size
  }

  predicate OnPath(rows: seq<PacketResult>, pathIndex: nat) {
    forall i :: 0 <= i < |rows| ==> rows[i].pathIndex == pathIndex
  }

  lemma RowsWithin(rows: seq<PacketResult>, s: State, n: nat, pace: Pace, clock: nat)
    requires RowsOf(rows, s) && Sent(s, n, clock) && SentFrom(s, pace)
    ensures SentWithin(rows, pace.start, clock) && Paced(rows, pace) && OnPath(rows, s.pathIndex)
  {
    RowsAreNumbered(rows, s, n, clock);
    forall i | 0 <= i < |rows|
      ensures pace.start <= pace.Due(i) <= rows[i].sentNs <= clock && rows[i].datagramBytes == pace.size
    {
      assert rows[i].sequence == i && i in s.entries;
      NeverBeforeStart(pace, i);
    }
  }

  lemma NeverBeforeStart(pace: Pace, sequence: nat)
    ensures pace.start <= pace.Due(sequence)
  {
  }

  class Exchange {
    const ledger: PacketLedger
    const pace: Pace
    var clock: nat
    ghost var verdicts: seq<Verdict>
    var receiverFailed: bool
    /** The receiver thread has not been joined. */
    var receiving: bool

    /** Every datagram was counted as what it was; entries are sane; `n` packets were sent by now. */
    ghost predicate Valid(n: nat)
      reads this, ledger
    {
      && Sane(ledger.Contents())
      && Sent(ledger.Contents(), n, clock)
      && pace.start <= clock && SentFrom(ledger.Contents(), pace)
      && Judged(ledger.Contents(), verdicts)
    }

    constructor (runToken: nat, pathIndex: nat, now: nat, interval: nat, size: nat)
      ensures Valid(0) && pace == Pace(now, interval, size) && clock == now && !receiverFailed && receiving &&
        fresh(ledger) && ledger.Contents() == State(runToken, pathIndex, 0, 0, map[])
    {
      ledger := new PacketLedger(runToken, pathIndex);
      pace := Pace(now, interval, size);
      clock, verdicts, receiverFailed, receiving := now, [], false, true;
      new;
      assert ReceivedSet(ledger.Contents()) == {};
    }

    /** Time passes, at least `least`. */
    method Tick(least: nat, ghost n: nat)
      requires Valid(n)
      modifies this`clock
      ensures Valid(n) && clock >= old(clock) + least
    {
      var more: int := *;
      clock := clock + least + (if more > 0 then more else 0);
      SentKept(ledger.Contents(), ledger.Contents(), n, old(clock), clock);
    }

    /** A datagram that is not a probe answer from the peer. */
    method Reject(ghost n: nat)
      requires Valid(n)
      modifies this`verdicts, ledger
      ensures verdicts == old(verdicts) + [Stray]
      ensures Valid(n) && Advances(old(ledger.Contents()), ledger.Contents())
    {
      ghost var before := ledger.Contents();
      ledger.attributionErrors := ledger.attributionErrors + 1;
      TallyNext(verdicts, Stray);
      verdicts := verdicts + [Stray];
      assert ReceivedSet(ledger.Contents()) == ReceivedSet(before);
      SentKept(before, ledger.Contents(), n, clock, clock);
    }

    /** An answer that decodes; the table refuses one with impossible times. */
    method TakeEcho(response: Packet, receivedNs: int, ghost n: nat)
      requires Valid(n)
      modifies this`verdicts, this`receiverFailed, ledger
      ensures
        if !IsUint(receivedNs) then receiverFailed && verdicts == old(verdicts)
        else verdicts == old(verdicts) + [Judge(old(ledger.Contents()), response, receivedNs)]
      ensures Valid(n) && Advances(old(ledger.Contents()), ledger.Contents())
    {
      ghost var before, op := ledger.Contents(), Echo(response, receivedNs);
      var recorded := ledger.RecordEcho(response, receivedNs);
      EchoAdvances(before, response, receivedNs);
      SentKept(before, ledger.Contents(), n, clock, clock);
      RunsStaySane(before, [op]);
      assert [op][1..] == [];
      if recorded.Err? {
        receiverFailed := true;
      } else {
        EchoIsCounted(before, response, receivedNs, verdicts);
        verdicts := verdicts + [Judge(before, response, receivedNs)];
      }
    }

    /** One turn of the receive loop, on whatever arrives from wherever. */
    method HandleDatagram(ghost n: nat) returns (data: Bytes, fromPeer: bool)
      requires Valid(n)
      modifies this`clock, this`verdicts, this`receiverFailed, ledger
      ensures Valid(n) && clock >= old(clock) && Advances(old(ledger.Contents()), ledger.Contents())
      ensures
        if !fromPeer || Decode(data).Err? then verdicts == old(verdicts) + [Stray]
        else if !IsUint(clock) then receiverFailed && verdicts == old(verdicts)
        else verdicts == old(verdicts) + [Judge(old(ledger.Contents()), Decode(data).value, clock)]
    {
      data, fromPeer := *, *;
      Tick(0, n);
      if !fromPeer {
        Reject(n);
        return;
      }
      var receivedNs := clock;
      var response := Decode(data);
      if response.Err? {
        Reject(n);
      } else {
        TakeEcho(response.value, receivedNs, n);
      }
    }

    /** The receiver thread runs for a while between two steps of the sender; it may fail. */
    method Receive(ghost n: nat)
      requires Valid(n) && receiving
      modifies this`clock, this`verdicts, this`receiverFailed, ledger
      ensures Valid(n) && clock >= old(clock) && Advances(old(ledger.Contents()), ledger.Contents())
      ensures old(receiverFailed) ==> receiverFailed
    {
      var turns: int, fails: bool := *, *;
      var failed := receiverFailed || fails;
      for i := 0 to if turns > 0 then turns else 0
        invariant Valid(n) && clock >= old(clock) && Advances(old(ledger.Contents()), ledger.Contents())
      {
        var data, fromPeer := HandleDatagram(n);
      }
      receiverFailed := receiverFailed || failed;
    }

    method RecordNext(sequence: nat, datagramBytes: nat) returns (ok: bool)
      requires Valid(sequence) && datagramBytes >= HEADER_SIZE && clock < UINT64
      requires pace.Due(sequence) <= clock && datagramBytes == pace.size
      modifies ledger
      ensures ok ==> Valid(sequence + 1)
      ensures !ok ==> Valid(sequence)
    {
      ghost var before := ledger.Contents();
      var recorded := ledger.RecordSend(sequence, clock, datagramBytes);
      var op := Send(sequence, clock, datagramBytes);
      RunsStaySane(before, [op]);
      assert [op][1..] == [];
      if recorded.Ok? {
        SendReceived(before, sequence, Entry(clock, datagramBytes, None, false));
        SendExtends(before, sequence, clock, Entry(clock, datagramBytes, None, false));
      }
      return recorded.Ok?;
    }

    /** Wait for the next packet's turn, unless the receiver fails. */
    method WaitTurn(sequence: nat, nextSendNs: int) returns (failed: bool)
      requires Valid(sequence) && receiving
      modifies this`clock, this`verdicts, this`receiverFailed, ledger
      ensures Valid(sequence) && clock >= old(clock) && (!failed ==> clock >= nextSendNs)
    {
      Receive(sequence);
      if receiverFailed {
        return true;
      }
      if clock < nextSendNs {
        Tick(nextSendNs - clock, sequence);
        Receive(sequence);
      }
      return receiverFailed;
    }

    /** The paced send loop. */
    method SendAll(count: nat, intervalNs: nat, payloadSize: nat) returns (e: Option<ProbeError>)
      requires Valid(0) && receiving && !receiverFailed
      requires pace.interval == intervalNs && pace.size == HEADER_SIZE + payloadSize
      modifies this`clock, this`verdicts, this`receiverFailed, ledger
      ensures clock >= old(clock) && (e.None? ==> Valid(count) && !receiverFailed)
    {
      var nextSendNs := clock;
      for sequence := 0 to count
        invariant Valid(sequence) && !receiverFailed && clock >= old(clock) && nextSendNs >= pace.Due(sequence)
      {
        var failed := WaitTurn(sequence, nextSendNs);
        if failed {
          return Some(ReceiverFailed);
        }
        Tick(0, sequence);
        var packet := Packet(ledger.runToken, ledger.pathIndex, sequence, clock,
                             seq(payloadSize, _ => (sequence % 256) as Byte));
        if !packet.Valid() {
          return Some(BadPacket);
        }
        var encoded := Encode(packet);
        var recorded := RecordNext(sequence, |encoded|);
        if !recorded {
          return Some(CannotRecord);
        }
        Receive(sequence + 1);
        if receiverFailed {
          return Some(ReceiverFailed);
        }
        var sendFails: bool := *;
        if sendFails {
          return Some(SendFailed);
        }
        nextSendNs := nextSendNs + intervalNs;
        assert pace.Due(sequence + 1) == pace.Due(sequence) + intervalNs;
      }
      return None;
    }

    /** Wait for every answer, or for the deadline. */
    method Await(count: nat, timeoutNs: nat) returns (e: Option<ProbeError>)
      requires Valid(count) && receiving && !receiverFailed
      modifies this`clock, this`verdicts, this`receiverFailed, ledger
      ensures Valid(count) && clock >= old(clock) && (e.None? <==> !receiverFailed)
      ensures e.None? ==> Ready(ledger.Contents(), clock, timeoutNs)
    {
      var deadline := clock + timeoutNs;
      while |ReceivedSet(ledger.Contents())| < count && clock < deadline
        invariant Valid(count) && !receiverFailed && clock >= old(clock)
        invariant SentBy(ledger.Contents(), deadline - timeoutNs)
        decreases deadline - clock
      {
        Tick(1, count);
        ghost var before := ledger.Contents();
        Receive(count);
        SentByKept(before, ledger.Contents(), deadline - timeoutNs);
        if receiverFailed {
          return Some(ReceiverFailed);
        }
      }
      ReceivedAtMostSent(ledger.Contents(), count, clock);
      return None;
    }

    /** Late duplicates are counted for a while after the last first answer. */
    method Drain(count: nat, drainNs: nat) returns (e: Option<ProbeError>)
      requires Valid(count) && receiving && !receiverFailed
      modifies this`clock, this`verdicts, this`receiverFailed, ledger
      ensures e.None? <==> !receiverFailed
      ensures e.None? ==> clock >= old(clock) + drainNs
      ensures Valid(count) && clock >= old(clock) && Advances(old(ledger.Contents()), ledger.Contents())
    {
      var deadline := clock + drainNs;
      while clock < deadline
        invariant Valid(count) && clock >= old(clock) && Advances(old(ledger.Contents()), ledger.Contents())
        invariant !receiverFailed
        decreases deadline - clock
      {
        Tick(1, count);
        Receive(count);
        if receiverFailed {
          return Some(ReceiverFailed);
        }
      }
      return None;
    }

    /** Everything the sender does before it stops the receiver. */
    method Converse(count: nat, intervalNs: nat, payloadSize: nat, timeoutNs: nat, drainNs: nat)
      returns (e: Option<ProbeError>)
      requires Valid(0) && receiving && !receiverFailed
      requires pace.interval == intervalNs && pace.size == HEADER_SIZE + payloadSize
      modifies this`clock, this`verdicts, this`receiverFailed, ledger
      ensures clock >= old(clock)
      ensures e.None? ==> Valid(count) && !receiverFailed && Ready(ledger.Contents(), clock, timeoutNs)
      ensures e.None? && |ReceivedSet(ledger.Contents())| == count ==> clock >= old(clock) + drainNs
    {
      e := SendAll(count, intervalNs, payloadSize);
      if e.Some? {
        return e;
      }
      e := Await(count, timeoutNs);
      if e.Some? {
        return e;
      }
      if |ReceivedSet(ledger.Contents())| == count {
        ghost var before, was := ledger.Contents(), clock;
        e := Drain(count, drainNs);
        ReadyKept(before, ledger.Contents(), was, clock, timeoutNs);
      }
    }

    method Settle(count: nat, timeoutNs: nat) returns (ok: bool)
      requires Valid(count) && Ready(ledger.Contents(), clock, timeoutNs)
      modifies ledger
      ensures ok ==> Valid(count) && Settled(ledger.Contents())
    {
      ghost var before := ledger.Contents();
      var op := Finalize(clock, timeoutNs);
      var finalized := ledger.Finalize(clock, timeoutNs);
      if finalized.Ok? {
        FinalizeSettles(before, clock, timeoutNs);
        FinalizeReceived(before, clock, timeoutNs);
        RunsStaySane(before, [op]);
        assert [op][1..] == [];
        SentKept(before, ledger.Contents(), count, clock, clock);
      }
      return finalized.Ok?;
    }

    /** The receiver may still take a few datagrams before it is joined. */
    method Stop(count: nat, timeoutNs: nat) returns (e: Option<ProbeError>)
      requires Valid(count) && receiving && !receiverFailed && Ready(ledger.Contents(), clock, timeoutNs)
      modifies this, ledger
      ensures clock >= old(clock)
      ensures e.None? ==> Valid(count) && !receiving && !receiverFailed && Ready(ledger.Contents(), clock, timeoutNs)
    {
      ghost var before, was := ledger.Contents(), clock;
      Receive(count);
      ReadyKept(before, ledger.Contents(), was, clock, timeoutNs);
      receiving := false;
      var cleanupFails: bool := *;
      return if cleanupFails then Some(CleanupFailed) else if receiverFailed then Some(ReceiverFailed) else None;
    }

    method Report(count: nat, timeoutNs: nat) returns (r: Result<ProbeRun, ProbeError>)
      requires Valid(count) && !receiving && !receiverFailed && Ready(ledger.Contents(), clock, timeoutNs) && count > 0
      modifies ledger
      ensures r.Ok? ==> Reported(r.value, count, verdicts)
      ensures r.Ok? ==> SentWithin(r.value.rows, pace.start, clock) && Paced(r.value.rows, pace)
      ensures r.Ok? ==> OnPath(r.value.rows, ledger.pathIndex)
    {
      var settled := Settle(count, timeoutNs);
      if !settled {
        return Err(CannotFinalize);
      }
      var rows := ledger.Rows();
      SettledReport(rows, ledger.Contents(), count, clock, verdicts);
      RowsWithin(rows, ledger.Contents(), count, pace, clock);
      var metrics := CalculateProbeMetrics(rows);
      return Ok(ProbeRun(rows, metrics.value, ledger.attributionErrors, ledger.duplicateEchoes));
    }
  }

  /**
    * `run_packets`, from `now` to `end` on the monotonic clock. `verdicts` says of each datagram the receiver
    * took off the socket what it was.
    */
  method RunPackets(runToken: nat, pathIndex: nat, count: int, intervalNs: nat, payloadSize: nat, timeoutNs: nat,
                    drainNs: nat, now: nat)
    returns (r: Result<ProbeRun, ProbeError>, end: nat, ghost verdicts: seq<Verdict>)
    ensures now <= end
    ensures r.Ok? ==> count >= 1 && Reported(r.value, count, verdicts) && SentWithin(r.value.rows, now, end)
    ensures r.Ok? ==> Paced(r.value.rows, Pace(now, intervalNs, 32 + payloadSize)) && OnPath(r.value.rows, pathIndex)
  {
    verdicts := [];
    if count < 1 {
      return Err(BadCount), now, verdicts;
    }
    var exchange := new Exchange(runToken, pathIndex, now, intervalNs, HEADER_SIZE + payloadSize);
    var failed := exchange.Converse(count, intervalNs, payloadSize, timeoutNs, drainNs);
    if failed.None? {
      failed := exchange.Stop(count, timeoutNs);
    }
    if failed.Some? {
      return Err(failed.value), exchange.clock, verdicts;
    }
    r := exchange.Report(count, timeoutNs);
    end, verdicts := exchange.clock, exchange.verdicts;
  }
}
