/** The confirmatory matrix, its paired differences, and their block means. */
module Pairing {
  import opened Common
  import opened Sorting

  datatype Key = Key(block: nat, scenario: string, profile: string)

  /** One run; `metric` is the metric under comparison, if the run has a finite one. */
  datatype Run = Run(runId: string, key: Key, strategy: string, metric: Option<real>)

  datatype Pair = Pair(key: Key, baselineRun: string, alternativeRun: string, baseline: real, alternative: real,
                       difference: real)

  datatype BlockDifference = BlockDifference(block: nat, difference: real, cellCount: nat)

  datatype InputError =
    | BadStrategies | WrongRunCount | DuplicateRunId | UnexpectedStrategy | BadCell | LayoutDiffers | EmptyTable
    | DuplicateRun | UnmatchedCell | NoMetric | NoPairs

  // ----- What a confirmatory matrix is -----

  ghost predicate IsRunOf(records: seq<Run>, key: Key, strategy: string, i: nat) {
    i < |records| && records[i].key == key && records[i].strategy == strategy
  }

  /** Exactly one run of the strategy in the cell. */
  ghost predicate OneRun(records: seq<Run>, key: Key, strategy: string) {
    && (exists i :: IsRunOf(records, key, strategy, i))
    && (forall i, j :: IsRunOf(records, key, strategy, i) && IsRunOf(records, key, strategy, j) ==> i == j)
  }

  function KeysOf(records: seq<Run>): set<Key> {
    set r | r in records :: r.key
  }

  ghost predicate DistinctRunIds(records: seq<Run>) {
    forall i, j :: 0 <= i < j < |records| ==> records[i].runId != records[j].runId
  }

  /** Two blocks have the same cells, the number of the block aside. */
  ghost predicate SameLayout(keys: set<Key>, a: nat, b: nat) {
    forall scenario, profile :: Key(a, scenario, profile) in keys <==> Key(b, scenario, profile) in keys
  }

  function LayoutOf(keys: set<Key>, block: nat): set<(string, string)> {
    set k | k in keys && k.block == block :: (k.scenario, k.profile)
  }

  lemma LayoutsCompare(keys: set<Key>, a: nat, b: nat)
    ensures LayoutOf(keys, a) == LayoutOf(keys, b) <==> SameLayout(keys, a, b)
  {
    forall block, scenario, profile
      ensures (scenario, profile) in LayoutOf(keys, block) <==> Key(block, scenario, profile) in keys
    {
    }
    if LayoutOf(keys, a) == LayoutOf(keys, b) {
      forall scenario, profile ensures Key(a, scenario, profile) in keys <==> Key(b, scenario, profile) in keys {
        assert (scenario, profile) in LayoutOf(keys, a) <==> (scenario, profile) in LayoutOf(keys, b);
      }
    }
    if SameLayout(keys, a, b) {
      forall c ensures c in LayoutOf(keys, a) <==> c in LayoutOf(keys, b) {
        assert Key(a, c.0, c.1) in keys <==> Key(b, c.0, c.1) in keys;
      }
    }
  }

  function BlocksOf(keys: set<Key>): set<nat> {
    set k | k in keys :: k.block
  }

  ghost predicate KnownStrategies(records: seq<Run>, strategies: seq<string>) {
    forall r :: r in records ==> r.strategy in strategies
  }

  ghost predicate OneOfEach(records: seq<Run>, key: Key, strategies: seq<string>) {
    forall s :: s in strategies ==> OneRun(records, key, s)
  }

  ghost predicate FullCells(records: seq<Run>, strategies: seq<string>) {
    forall key :: key in KeysOf(records) ==> OneOfEach(records, key, strategies)
  }

  ghost predicate LayoutsAgree(keys: set<Key>) {
    forall a, b :: a in BlocksOf(keys) && b in BlocksOf(keys) ==> SameLayout(keys, a, b)
  }

  ghost predicate IsMatrix(records: seq<Run>, strategies: seq<string>) {
    && strategies != [] && Distinct(strategies)
    && records != [] && DistinctRunIds(records)
    && KnownStrategies(records, strategies)
    && FullCells(records, strategies)
    && LayoutsAgree(KeysOf(records))
  }

  // ----- Its validator -----

  function RunIds(records: seq<Run>): (ids: seq<string>)
    ensures |ids| == |records| && forall i :: 0 <= i < |ids| ==> ids[i] == records[i].runId
  {
    if records == [] then [] else RunIds(records[..|records| - 1]) + [records[|records| - 1].runId]
  }

  /** The strategies seen in a cell, in table order. */
  function StrategiesAt(records: seq<Run>, key: Key): seq<string> {
    if records == [] then []
    else
      var n := |records| - 1;
      if records[n].key == key then StrategiesAt(records[..n], key) + [records[n].strategy]
        else StrategiesAt(records[..n], key)
  }

  type Cells = map<Key, seq<string>>

  ghost predicate Collects(cells: Cells, records: seq<Run>) {
    && cells.Keys == KeysOf(records)
    && forall k :: k in cells ==> cells[k] == StrategiesAt(records, k)
  }

  method CollectCells(records: seq<Run>, strategies: seq<string>) returns (r: Result<Cells, InputError>)
    ensures r.Ok? <==> KnownStrategies(records, strategies)
    ensures r.Err? ==> r.error == UnexpectedStrategy
    ensures r.Ok? ==> Collects(r.value, records)
  {
    var cells: Cells := map[];
    for i := 0 to |records|
      invariant Collects(cells, records[..i])
      invariant KnownStrategies(records[..i], strategies)
    {
      var record := records[i];
      if record.strategy !in strategies {
        assert record in records;
        return Err(UnexpectedStrategy);
      }
      var observed := if record.key in cells then cells[record.key] else [];
      AbsentIsEmpty(records[..i], record.key);
      cells := cells[record.key := observed + [record.strategy]];
      assert records[..i + 1] == records[..i] + [record];
      assert records[..i + 1][..i] == records[..i];
    }
    assert records[..|records|] == records;
    return Ok(cells);
  }

  lemma {:induction false} AbsentIsEmpty(records: seq<Run>, key: Key)
    ensures key !in KeysOf(records) ==> StrategiesAt(records, key) == []
  {
    if records != [] && key !in KeysOf(records) {
      var n := |records| - 1;
      assert records[n] in records;
      forall r | r in records[..n] ensures r in records {}
      AbsentIsEmpty(records[..n], key);
    }
  }

  function RunsIn(records: seq<Run>, key: Key, strategy: string): nat {
    if records == [] then 0
    else
      var n := |records| - 1;
      RunsIn(records[..n], key, strategy) + if records[n].key == key && records[n].strategy == strategy then 1 else 0
  }

  ghost predicate NoRun(records: seq<Run>, key: Key, strategy: string) {
    forall i :: !IsRunOf(records, key, strategy, i)
  }

  lemma FrontRuns(records: seq<Run>, key: Key, strategy: string)
    requires records != []
    ensures forall i: nat :: i < |records| - 1 ==>
      (IsRunOf(records, key, strategy, i) <==> IsRunOf(records[..|records| - 1], key, strategy, i))
  {
  }

  lemma {:induction false} NoRunIffZero(records: seq<Run>, key: Key, strategy: string)
    ensures RunsIn(records, key, strategy) == 0 <==> NoRun(records, key, strategy)
  {
    if records != [] {
      var n := |records| - 1;
      NoRunIffZero(records[..n], key, strategy);
      FrontRuns(records, key, strategy);
      assert IsRunOf(records, key, strategy, n) <==> records[n].key == key && records[n].strategy == strategy;
      if RunsIn(records, key, strategy) == 0 {
        forall i: nat ensures !IsRunOf(records, key, strategy, i) {
          assert i < n ==> !IsRunOf(records[..n], key, strategy, i);
        }
      } else if RunsIn(records[..n], key, strategy) != 0 {
        var i :| IsRunOf(records[..n], key, strategy, i);
        assert IsRunOf(records, key, strategy, i);
      }
    }
  }

  lemma {:induction false} OneRunIffOne(records: seq<Run>, key: Key, strategy: string)
    ensures OneRun(records, key, strategy) <==> RunsIn(records, key, strategy) == 1
  {
    NoRunIffZero(records, key, strategy);
    if records != [] {
      var n := |records| - 1;
      OneRunIffOne(records[..n], key, strategy);
      NoRunIffZero(records[..n], key, strategy);
      FrontRuns(records, key, strategy);
      if IsRunOf(records, key, strategy, n) {
        LastRunIsOnly(records, key, strategy);
      } else {
        LastIsNoRun(records, key, strategy);
      }
    }
  }

  lemma LastRunIsOnly(records: seq<Run>, key: Key, strategy: string)
    requires records != [] && IsRunOf(records, key, strategy, |records| - 1)
    ensures OneRun(records, key, strategy) <==> NoRun(records[..|records| - 1], key, strategy)
  {
    FrontRuns(records, key, strategy);
    var n := |records| - 1;
    if OneRun(records, key, strategy) {
      forall i: nat ensures !IsRunOf(records[..n], key, strategy, i) {
        assert i < n && IsRunOf(records[..n], key, strategy, i) ==> IsRunOf(records, key, strategy, i) && i == n;
      }
    }
    if NoRun(records[..n], key, strategy) {
      forall i: nat | IsRunOf(records, key, strategy, i) ensures i == n {
        assert !IsRunOf(records[..n], key, strategy, i);
      }
    }
  }

  lemma LastIsNoRun(records: seq<Run>, key: Key, strategy: string)
    requires records != [] && !IsRunOf(records, key, strategy, |records| - 1)
    ensures OneRun(records, key, strategy) <==> OneRun(records[..|records| - 1], key, strategy)
  {
    FrontRuns(records, key, strategy);
    var n := |records| - 1;
    forall i: nat ensures IsRunOf(records, key, strategy, i) <==> IsRunOf(records[..n], key, strategy, i) {
    }
  }

  lemma {:induction false} ObservedCounts(records: seq<Run>, key: Key, strategy: string)
    ensures multiset(StrategiesAt(records, key))[strategy] == RunsIn(records, key, strategy)
  {
    if records != [] {
      ObservedCounts(records[..|records| - 1], key, strategy);
    }
  }

  predicate CompleteCell(observed: seq<string>, strategies: seq<string>) {
    |observed| == |strategies| && SetOf(observed) == SetOf(strategies)
  }

  lemma {:induction false} ObservedAreKnown(records: seq<Run>, key: Key, strategies: seq<string>)
    requires KnownStrategies(records, strategies)
    ensures forall s :: s in StrategiesAt(records, key) ==> s in strategies
  {
    if records != [] {
      var n := |records| - 1;
      assert records[n] in records;
      forall r | r in records[..n] ensures r in records {}
      ObservedAreKnown(records[..n], key, strategies);
    }
  }

  /** The validator's size-and-set test says: each strategy ran exactly once in the cell. */
  lemma CompleteCellIffOneEach(records: seq<Run>, key: Key, strategies: seq<string>)
    requires Distinct(strategies) && KnownStrategies(records, strategies)
    ensures CompleteCell(StrategiesAt(records, key), strategies) <==> OneOfEach(records, key, strategies)
  {
    var observed := StrategiesAt(records, key);
    ObservedAreKnown(records, key, strategies);
    DistinctBySize(strategies);
    DistinctBySize(observed);
    DistinctCounts(strategies);
    forall s ensures OneRun(records, key, s) <==> multiset(observed)[s] == 1 {
      OneRunIffOne(records, key, s);
      ObservedCounts(records, key, s);
    }
    if CompleteCell(observed, strategies) {
      DistinctCounts(observed);
      forall s | s in strategies ensures OneRun(records, key, s) {
        assert s in SetOf(observed);
        assert s in multiset(observed);
      }
    }
    if OneOfEach(records, key, strategies) {
      forall s ensures multiset(observed)[s] == multiset(strategies)[s] {
        assert s in strategies <==> s in multiset(strategies);
        assert s in observed <==> s in multiset(observed);
      }
      assert multiset(observed) == multiset(strategies);
      SameElements(observed, strategies);
    }
  }

  method MissingCells(cells: Cells, strategies: seq<string>) returns (problems: set<Key>)
    ensures forall k :: k in problems <==> k in cells && !CompleteCell(cells[k], strategies)
  {
    problems := {};
    var rest := cells.Keys;
    while rest != {}
      invariant rest <= cells.Keys
      invariant forall k :: k in problems <==> k in cells && k !in rest && !CompleteCell(cells[k], strategies)
      decreases |rest|
    {
      var key :| key in rest;
      rest := rest - {key};
      if !CompleteCell(cells[key], strategies) {
        problems := problems + {key};
      }
    }
  }

  lemma SameLayoutJoins(keys: set<Key>, a: nat, reference: nat, b: nat)
    requires SameLayout(keys, a, reference) && SameLayout(keys, b, reference)
    ensures SameLayout(keys, a, b)
  {
    LayoutsCompare(keys, a, reference);
    LayoutsCompare(keys, b, reference);
    LayoutsCompare(keys, a, b);
  }

  method FirstBlock(blocks: set<nat>) returns (first: nat)
    requires blocks != {}
    ensures first in blocks && forall b :: b in blocks ==> first <= b
  {
    first :| first in blocks;
    var rest := blocks;
    while rest != {}
      invariant rest <= blocks && first in blocks && forall b :: b in blocks && b !in rest ==> first <= b
      decreases |rest|
    {
      var b :| b in rest;
      rest := rest - {b};
      if b < first {
        first := b;
      }
    }
  }

  /** Every block must have the layout of the lowest one. */
  method MismatchedBlocks(keys: set<Key>) returns (mismatched: set<nat>)
    requires keys != {}
    ensures mismatched == {} <==> LayoutsAgree(keys)
    ensures exists lowest ::
      && lowest in BlocksOf(keys) && (forall b :: b in BlocksOf(keys) ==> lowest <= b)
      && forall b :: b in mismatched <==> b in BlocksOf(keys) && !SameLayout(keys, b, lowest)
  {
    var blocks := BlocksOf(keys);
    ghost var key :| key in keys;
    assert key.block in blocks;
    var reference := FirstBlock(blocks);
    mismatched := {};
    var rest := blocks;
    while rest != {}
      invariant rest <= blocks
      invariant forall b :: b in mismatched <==> b in blocks && b !in rest && !SameLayout(keys, b, reference)
      decreases |rest|
    {
      var b :| b in rest;
      rest := rest - {b};
      LayoutsCompare(keys, b, reference);
      if LayoutOf(keys, b) != LayoutOf(keys, reference) {
        mismatched := mismatched + {b};
      }
    }
    if mismatched == {} {
      assert forall b :: b in blocks ==> SameLayout(keys, b, reference);
      forall a, b | a in blocks && b in blocks ensures SameLayout(keys, a, b) {
        SameLayoutJoins(keys, a, reference, b);
      }
    }
  }

  method CheckCells(records: seq<Run>, strategies: seq<string>) returns (e: Option<InputError>)
    requires Distinct(strategies)
    ensures e.None? <==> KnownStrategies(records, strategies) && FullCells(records, strategies)
    ensures e.Some? ==> e.value == if KnownStrategies(records, strategies) then BadCell else UnexpectedStrategy
  {
    var cells := CollectCells(records, strategies);
    if cells.Err? {
      return Some(cells.error);
    }
    forall k | k in cells.value
      ensures CompleteCell(cells.value[k], strategies) <==> OneOfEach(records, k, strategies)
    {
      CompleteCellIffOneEach(records, k, strategies);
    }
    var problems := MissingCells(cells.value, strategies);
    return if problems == {} then None else Some(BadCell);
  }

  lemma RunIdsDistinct(records: seq<Run>)
    ensures DistinctRunIds(records) <==> |RunIds(records)| == |SetOf(RunIds(records))|
  {
    DistinctBySize(RunIds(records));
    assert Distinct(RunIds(records)) <==> DistinctRunIds(records);
  }

  /** Rejects exactly the tables that are not a matrix of the expected size. */
  method ValidateConfirmatoryMatrix(records: seq<Run>, expectedRunCount: int, strategies: seq<string>)
    returns (e: Option<InputError>)
    ensures e.None? <==> |records| == expectedRunCount && IsMatrix(records, strategies)
    ensures e == Some(BadStrategies) <==> strategies == [] || !Distinct(strategies)
    ensures strategies != [] && Distinct(strategies) ==>
      (e == Some(WrongRunCount) <==> |records| != expectedRunCount)
  {
    DistinctBySize(strategies);
    if strategies == [] || |strategies| != |SetOf(strategies)| {
      return Some(BadStrategies);
    }
    if |records| != expectedRunCount {
      return Some(WrongRunCount);
    }
    RunIdsDistinct(records);
    if |RunIds(records)| != |SetOf(RunIds(records))| {
      return Some(DuplicateRunId);
    }
    var bad := CheckCells(records, strategies);
    if bad.Some? {
      return bad;
    }
    if records == [] {
      return Some(EmptyTable);
    }
    assert records[0].key in KeysOf(records);
    var mismatched := MismatchedBlocks(KeysOf(records));
    return if mismatched == {} then None else Some(LayoutDiffers);
  }
}
