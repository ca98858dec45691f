/** The correlation table of one probe run: what was sent, and what became of it. */
module Ledger {
  import opened Common
  import opened Sorting
  import opened Codec

  datatype Entry = Entry(sentNs: nat, datagramBytes: nat, receivedNs: Option<nat>, timedOut: bool)

  datatype PacketStatus = Pending | Received | TimedOut

  datatype LedgerError = OutOfRange | HeaderMissing | AlreadySent

  datatype State = State(runToken: nat, pathIndex: nat, attributionErrors: nat, duplicateEchoes: nat,
                         entries: map<nat, Entry>)

  function StatusOf(e: Entry): PacketStatus {
    if e.receivedNs.Some? then Received else if e.timedOut then TimedOut else Pending
  }

  predicate IsUint(n: int) {
    0 <= n < UINT64
  }

  // ----- One call -----

  function AfterSend(s: State, sequence: int, sentNs: int, datagramBytes: int): Result<State, LedgerError> {
    if !IsUint(sequence) || !IsUint(sentNs) then Err(OutOfRange)
    else if datagramBytes < HEADER_SIZE then Err(HeaderMissing)
    else if sequence in s.entries then Err(AlreadySent)
    else Ok(s.(entries := s.entries[sequence := Entry(sentNs, datagramBytes, None, false)]))
  }

  /** The echo answers this very packet of this run. */
  predicate Attributed(s: State, p: Packet, receivedNs: nat) {
    && p.runToken == s.runToken && p.pathIndex == s.pathIndex
    && p.sequence in s.entries
    && p.sentNs == s.entries[p.sequence].sentNs && receivedNs >= p.sentNs
  }

  function AfterEcho(s: State, p: Packet, receivedNs: int): Result<State, LedgerError> {
    if !IsUint(receivedNs) then Err(OutOfRange)
    else if !Attributed(s, p, receivedNs) then Ok(s.(attributionErrors := s.attributionErrors + 1))
    else if StatusOf(s.entries[p.sequence]) != Pending then Ok(s.(duplicateEchoes := s.duplicateEchoes + 1))
    else Ok(s.(entries := s.entries[p.sequence := s.entries[p.sequence].(receivedNs := Some(receivedNs))]))
  }

  function Expired(e: Entry, nowNs: nat, timeoutNs: nat): Entry {
    if StatusOf(e) == Pending && nowNs - e.sentNs >= timeoutNs then e.(timedOut := true) else e
  }

  function AfterFinalize(s: State, nowNs: int, timeoutNs: int): Result<State, LedgerError> {
    if !IsUint(nowNs) || !IsUint(timeoutNs) then Err(OutOfRange)
    else Ok(s.(entries := map q | q in s.entries :: Expired(s.entries[q], nowNs, timeoutNs)))
  }

  // ----- Every interleaving of calls -----

  datatype Op =
    | Send(sequence: int, sentNs: int, datagramBytes: int)
    | Echo(packet: Packet, receivedNs: int)
    | Finalize(nowNs: int, timeoutNs: int)

  /** A call that raises leaves the table as it was. */
  function Apply(s: State, op: Op): State {
    var r := match op
      case Send(sequence, sentNs, datagramBytes) => AfterSend(s, sequence, sentNs, datagramBytes)
      case Echo(packet, receivedNs) => AfterEcho(s, packet, receivedNs)
      case Finalize(nowNs, timeoutNs) => AfterFinalize(s, nowNs, timeoutNs);
    if r.Ok? then r.value else s
  }

  function Run(s: State, ops: seq<Op>): State
    decreases |ops|
  {
    if ops == [] then s else Run(Apply(s, ops[0]), ops[1..])
  }

  function ReceivedSet(s: State): set<nat> {
    set q | q in s.entries && StatusOf(s.entries[q]) == Received
  }

  function TimedOutSet(s: State): set<nat> {
    set q | q in s.entries && StatusOf(s.entries[q]) == TimedOut
  }

  /** Everything the table has attributed an echo to. */
  function Accounted(s: State): nat {
    |ReceivedSet(s)| + s.duplicateEchoes + s.attributionErrors
  }

  function InRangeEchoes(ops: seq<Op>): nat {
    if ops == [] then 0
    else (if ops[0].Echo? && IsUint(ops[0].receivedNs) then 1 else 0) + InRangeEchoes(ops[1..])
  }

  lemma FinalizeReceived(s: State, nowNs: int, timeoutNs: int)
    requires IsUint(nowNs) && IsUint(timeoutNs)
    ensures ReceivedSet(AfterFinalize(s, nowNs, timeoutNs).value) == ReceivedSet(s)
  {
  }

  lemma SendReceived(s: State, sequence: nat, e: Entry)
    requires sequence !in s.entries && StatusOf(e) != Received
    ensures ReceivedSet(s.(entries := s.entries[sequence := e])) == ReceivedSet(s)
  {
  }

  lemma EchoReceived(s: State, sequence: nat, e: Entry)
    requires sequence in s.entries && StatusOf(s.entries[sequence]) == Pending && StatusOf(e) == Received
    ensures |ReceivedSet(s.(entries := s.entries[sequence := e]))| == |ReceivedSet(s)| + 1
  {
    assert ReceivedSet(s.(entries := s.entries[sequence := e])) == ReceivedSet(s) + {sequence};
  }

  lemma ApplyAccounts(s: State, op: Op)
    ensures Accounted(Apply(s, op)) == Accounted(s) + InRangeEchoes([op])
  {
    assert InRangeEchoes([op][1..]) == 0;
    match op
    case Send(sequence, sentNs, datagramBytes) =>
      if AfterSend(s, sequence, sentNs, datagramBytes).Ok? {
        SendReceived(s, sequence, Entry(sentNs, datagramBytes, None, false));
      }
    case Echo(p, receivedNs) =>
      if IsUint(receivedNs) && Attributed(s, p, receivedNs) && StatusOf(s.entries[p.sequence]) == Pending {
        EchoReceived(s, p.sequence, s.entries[p.sequence].(receivedNs := Some(receivedNs)));
      }
    case Finalize(nowNs, timeoutNs) =>
      if IsUint(nowNs) && IsUint(timeoutNs) {
        FinalizeReceived(s, nowNs, timeoutNs);
      }
  }

  /** Every in-range echo is counted once: as a first answer, a duplicate or an attribution error. */
  lemma {:induction false} EchoesAreAccounted(s: State, ops: seq<Op>)
    ensures Accounted(Run(s, ops)) == Accounted(s) + InRangeEchoes(ops)
    decreases |ops|
  {
    if ops != [] {
      ApplyAccounts(s, ops[0]);
      EchoesAreAccounted(Apply(s, ops[0]), ops[1..]);
      assert [ops[0]][1..] == [];
    }
  }

  /** An entry keeps what was sent, and once it has left Pending nothing about it changes. */
  predicate Evolves(before: Entry, after: Entry) {
    && after.sentNs == before.sentNs && after.datagramBytes == before.datagramBytes
    && (StatusOf(before) != Pending ==> after == before)
  }

  lemma {:induction false} EntriesSettleOnce(s: State, ops: seq<Op>, sequence: nat)
    requires sequence in s.entries
    ensures sequence in Run(s, ops).entries && Evolves(s.entries[sequence], Run(s, ops).entries[sequence])
    decreases |ops|
  {
    if ops != [] {
      var t := Apply(s, ops[0]);
      assert sequence in t.entries && Evolves(s.entries[sequence], t.entries[sequence]);
      EntriesSettleOnce(t, ops[1..], sequence);
    }
  }

  predicate EntrySane(e: Entry) {
    && e.datagramBytes >= HEADER_SIZE
    && (e.receivedNs.Some? ==> e.receivedNs.value >= e.sentNs && !e.timedOut)
  }

  /** No answer precedes its packet, no entry is both answered and timed out, none is shorter than a header. */
  predicate Sane(s: State) {
    forall q :: q in s.entries ==> EntrySane(s.entries[q])
  }

  lemma {:induction false} RunsStaySane(s: State, ops: seq<Op>)
    requires Sane(s)
    ensures Sane(Run(s, ops))
    decreases |ops|
  {
    if ops != [] {
      assert Sane(Apply(s, ops[0]));
      RunsStaySane(Apply(s, ops[0]), ops[1..]);
    }
  }

  predicate Settled(s: State) {
    forall q :: q in s.entries ==> StatusOf(s.entries[q]) != Pending
  }

  /** Finalising settles the table exactly when every unanswered packet is old enough. */
  lemma FinalizeSettles(s: State, nowNs: nat, timeoutNs: nat)
    requires IsUint(nowNs) && IsUint(timeoutNs)
    ensures Settled(AfterFinalize(s, nowNs, timeoutNs).value) <==>
      forall q :: q in s.entries && StatusOf(s.entries[q]) == Pending ==> nowNs - s.entries[q].sentNs >= timeoutNs
  {
    var t := AfterFinalize(s, nowNs, timeoutNs).value;
    forall q | q in s.entries
      ensures StatusOf(t.entries[q]) == Pending <==>
        StatusOf(s.entries[q]) == Pending && nowNs - s.entries[q].sentNs < timeoutNs
    {
    }
    if Settled(t) {
      forall q | q in s.entries && StatusOf(s.entries[q]) == Pending ensures nowNs - s.entries[q].sentNs >= timeoutNs {
        assert StatusOf(t.entries[q]) != Pending;
      }
    }
  }

  /** Loss has one denominator: what was sent is what was received plus what timed out. */
  lemma SettledCounts(s: State)
    requires Settled(s)
    ensures |s.entries| == |ReceivedSet(s)| + |TimedOutSet(s)|
  {
    assert s.entries.Keys == ReceivedSet(s) + TimedOutSet(s);
    assert ReceivedSet(s) !! TimedOutSet(s);
    assert |s.entries| == |s.entries.Keys|;
  }

  // ----- One call, field by field -----

  /** The echo carries the token, path and send time of a packet of this table, and does not precede it. */
  ghost predicate Answers(s: State, p: Packet, receivedNs: int) {
    && p.runToken == s.runToken && p.pathIndex == s.pathIndex && p.sequence in s.entries
    && p.sentNs == s.entries[p.sequence].sentNs <= receivedNs
  }

  /**
    * What one echo changes: nothing if its time is out of range; otherwise one attribution error if it
    * answers no packet, one duplicate if its packet was answered or given up, and else the time of the
    * first answer of that packet, and nothing more.
    */
  lemma EchoIsJudged(s: State, p: Packet, receivedNs: int)
    ensures
      var t := Apply(s, Echo(p, receivedNs));
      && t.runToken == s.runToken && t.pathIndex == s.pathIndex && t.entries.Keys == s.entries.Keys
      && (if !(0 <= receivedNs <= 0xFFFF_FFFF_FFFF_FFFF) then t == s
          else if !Answers(s, p, receivedNs) then
            && t.attributionErrors == s.attributionErrors + 1
            && t.duplicateEchoes == s.duplicateEchoes && t.entries == s.entries
          else if s.entries[p.sequence].receivedNs.Some? || s.entries[p.sequence].timedOut then
            && t.duplicateEchoes == s.duplicateEchoes + 1
            && t.attributionErrors == s.attributionErrors && t.entries == s.entries
          else
            && t.attributionErrors == s.attributionErrors && t.duplicateEchoes == s.duplicateEchoes
            && t.entries[p.sequence].receivedNs == Some(receivedNs)
            && (forall q :: q in s.entries ==>
                  && (q != p.sequence ==> t.entries[q] == s.entries[q])
                  && t.entries[q].sentNs == s.entries[q].sentNs && t.entries[q].timedOut == s.entries[q].timedOut
                  && t.entries[q].datagramBytes == s.entries[q].datagramBytes))
  {
  }

  /** A packet is recorded pending, as it was sent, exactly if it is new, in range and has a whole header. */
  lemma SendIsRecorded(s: State, sequence: int, sentNs: int, datagramBytes: int)
    ensures
      var t := Apply(s, Send(sequence, sentNs, datagramBytes));
      if && 0 <= sequence <= 0xFFFF_FFFF_FFFF_FFFF && 0 <= sentNs <= 0xFFFF_FFFF_FFFF_FFFF
         && datagramBytes >= 32 && sequence !in s.entries
      then
        && t.attributionErrors == s.attributionErrors && t.duplicateEchoes == s.duplicateEchoes
        && t.entries.Keys == s.entries.Keys + {sequence}
        && (forall q :: q in s.entries ==> t.entries[q] == s.entries[q])
        && t.entries[sequence] == Entry(sentNs, datagramBytes, None, false)
      else t == s
  {
  }

  /** Finalising gives up exactly the unanswered packets that are old enough, and changes nothing else. */
  lemma FinalizeGivesUp(s: State, nowNs: int, timeoutNs: int)
    requires 0 <= nowNs <= 0xFFFF_FFFF_FFFF_FFFF && 0 <= timeoutNs <= 0xFFFF_FFFF_FFFF_FFFF
    ensures
      var t := Apply(s, Op.Finalize(nowNs, timeoutNs));
      && t.attributionErrors == s.attributionErrors && t.duplicateEchoes == s.duplicateEchoes
      && t.entries.Keys == s.entries.Keys
      && forall q :: q in s.entries ==>
           && t.entries[q].sentNs == s.entries[q].sentNs && t.entries[q].datagramBytes == s.entries[q].datagramBytes
           && t.entries[q].receivedNs == s.entries[q].receivedNs
           && (t.entries[q].timedOut <==>
                 s.entries[q].timedOut || (s.entries[q].receivedNs.None? && nowNs - s.entries[q].sentNs >= timeoutNs))
  {
  }

  // ----- The table itself -----

  datatype PacketResult = PacketResult(sequence: nat, pathIndex: nat, sentNs: nat, datagramBytes: nat,
                                       status: PacketStatus, receivedNs: Option<nat>, rttMs: Option<real>)

  function RowOf(s: State, sequence: nat): PacketResult
    requires sequence in s.entries
  {
    var e := s.entries[sequence];
    PacketResult(sequence, s.pathIndex, e.sentNs, e.datagramBytes, StatusOf(e), e.receivedNs,
        if e.receivedNs.Some? then Some((e.receivedNs.value - e.sentNs) as real / 1000000.0) else None)
  }

  /** One row per entry, in sequence order. */
  ghost predicate RowsOf(rows: seq<PacketResult>, s: State) {
    && |rows| == |s.entries|
    && (forall i :: 0 <= i < |rows| ==> rows[i].sequence in s.entries && rows[i] == RowOf(s, rows[i].sequence))
    && (forall i, j :: 0 <= i < j < |rows| ==> rows[i].sequence < rows[j].sequence)
  }

  method SortedKeys(entries: map<nat, Entry>) returns (keys: seq<nat>)
    ensures |keys| == |entries| && forall q :: q in keys <==> q in entries
    ensures forall i, j :: 0 <= i < j < |keys| ==> keys[i] < keys[j]
  {
    keys := SortedList(entries.Keys, NatOrder());
    forall i, j | 0 <= i < j < |keys| ensures keys[i] < keys[j] {
      assert NatOrder()(keys[i], keys[j]);
    }
  }

  /** A row says of its packet what the table does, with the time to the answer in milliseconds. */
  lemma RowSays(s: State, q: nat)
    requires q in s.entries
    ensures
      var row, e := RowOf(s, q), s.entries[q];
      && row.sequence == q && row.pathIndex == s.pathIndex
      && row.sentNs == e.sentNs && row.datagramBytes == e.datagramBytes && row.receivedNs == e.receivedNs
      && (row.status == Received <==> e.receivedNs.Some?)
      && (row.status == TimedOut <==> e.receivedNs.None? && e.timedOut)
      && (row.rttMs.Some? <==> e.receivedNs.Some?)
      && (row.rttMs.Some? ==> row.rttMs.value * 1000000.0 == (e.receivedNs.value - e.sentNs) as real)
  {
  }

  class PacketLedger {
    const runToken: nat
    const pathIndex: nat
    var attributionErrors: nat
    var duplicateEchoes: nat
    var entries: map<nat, Entry>

    function Contents(): State
      reads this
    {
      State(runToken, pathIndex, attributionErrors, duplicateEchoes, entries)
    }

    constructor (runToken: nat, pathIndex: nat)
      ensures Contents() == State(runToken, pathIndex, 0, 0, map[])
    {
      this.runToken, this.pathIndex := runToken, pathIndex;
      attributionErrors, duplicateEchoes, entries := 0, 0, map[];
    }

    method RecordSend(sequence: int, sentNs: int, datagramBytes: int) returns (r: Result<(), LedgerError>)
      modifies this
      ensures Contents() == Apply(old(Contents()), Send(sequence, sentNs, datagramBytes))
      ensures r.Ok? <==> AfterSend(old(Contents()), sequence, sentNs, datagramBytes).Ok?
    {
      if !IsUint(sequence) || !IsUint(sentNs) {
        return Err(OutOfRange);
      }
      if datagramBytes < HEADER_SIZE {
        return Err(HeaderMissing);
      }
      if sequence in entries {
        return Err(AlreadySent);
      }
      entries := entries[sequence := Entry(sentNs, datagramBytes, None, false)];
      return Ok(());
    }

    /** True exactly when this echo is the first answer to its packet. */
    method RecordEcho(p: Packet, receivedNs: int) returns (r: Result<bool, LedgerError>)
      modifies this
      ensures Contents() == Apply(old(Contents()), Echo(p, receivedNs))
      ensures r.Ok? <==> IsUint(receivedNs)
      ensures r.Ok? ==> (r.value <==> ReceivedSet(Contents()) != ReceivedSet(old(Contents())))
    {
      if !IsUint(receivedNs) {
        return Err(OutOfRange);
      }
      if p.runToken != runToken || p.pathIndex != pathIndex || p.sequence !in entries {
        attributionErrors := attributionErrors + 1;
        return Ok(false);
      }
      var entry := entries[p.sequence];
      if p.sentNs != entry.sentNs || receivedNs < entry.sentNs {
        attributionErrors := attributionErrors + 1;
        return Ok(false);
      }
      if entry.receivedNs.Some? || entry.timedOut {
        duplicateEchoes := duplicateEchoes + 1;
        return Ok(false);
      }
      EchoReceived(Contents(), p.sequence, entry.(receivedNs := Some(receivedNs)));
      entries := entries[p.sequence := entry.(receivedNs := Some(receivedNs))];
      return Ok(true);
    }

    method Finalize(nowNs: int, timeoutNs: int) returns (r: Result<(), LedgerError>)
      modifies this
      ensures Contents() == Apply(old(Contents()), Op.Finalize(nowNs, timeoutNs))
      ensures r.Ok? <==> IsUint(nowNs) && IsUint(timeoutNs)
    {
      if !IsUint(nowNs) || !IsUint(timeoutNs) {
        return Err(OutOfRange);
      }
      ghost var before := entries;
      var rest := entries.Keys;
      while rest != {}
        invariant rest <= before.Keys && entries.Keys == before.Keys
        invariant attributionErrors == old(attributionErrors) && duplicateEchoes == old(duplicateEchoes)
        invariant forall q :: q in before ==>
          entries[q] == if q in rest then before[q] else Expired(before[q], nowNs, timeoutNs)
        decreases |rest|
      {
        var q :| q in rest;
        rest := rest - {q};
        var entry := entries[q];
        if entry.receivedNs.None? && !entry.timedOut && nowNs - entry.sentNs >= timeoutNs {
          entries := entries[q := entry.(timedOut := true)];
        }
      }
      assert entries == map q | q in before :: Expired(before[q], nowNs, timeoutNs);
      return Ok(());
    }

    method Rows() returns (rows: seq<PacketResult>)
      ensures RowsOf(rows, Contents())
    {
      var keys := SortedKeys(entries);
      rows := [];
      for i := 0 to |keys|
        invariant |rows| == i
        invariant forall k :: 0 <= k < i ==>
          rows[k].sequence == keys[k] && keys[k] in entries && rows[k] == RowOf(Contents(), keys[k])
      {
        assert keys[i] in keys;
        rows := rows + [RowOf(Contents(), keys[i])];
      }
    }
  }
}
