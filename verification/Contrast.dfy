/** What a contrast over a valid confirmatory matrix computes. */
module Contrast {
  import opened Common
  import opened Sorting
  import opened Sums
  import opened Pairing
  import opened Differences
  import opened Blocks

  // ----- Pairing over a matrix -----

  predicate AllMeasured(records: seq<Run>, baseline: string, alternative: string) {
    forall r :: r in records && Relevant(r, baseline, alternative) ==> r.metric.Some?
  }

  lemma MatrixHasRun(records: seq<Run>, strategies: seq<string>, r: Run, strategy: string)
    requires IsMatrix(records, strategies) && r in records && strategy in strategies
    ensures Present(records, r.key, strategy)
  {
    assert r.key in KeysOf(records);
    assert OneOfEach(records, r.key, strategies);
    assert OneRun(records, r.key, strategy);
    var i: nat :| IsRunOf(records, r.key, strategy, i);
    assert records[i] in records;
  }

  lemma MatrixHasNoDuplicates(records: seq<Run>, strategies: seq<string>, baseline: string, alternative: string)
    requires IsMatrix(records, strategies) && baseline in strategies && alternative in strategies
    ensures NoDuplicateRuns(records, baseline, alternative)
  {
    forall i, j |
      0 <= i < j < |records|
      && Relevant(records[i], baseline, alternative) && Relevant(records[j], baseline, alternative)
      ensures (records[i].key, records[i].strategy) != (records[j].key, records[j].strategy)
    {
      var key, s := records[i].key, records[i].strategy;
      assert key in KeysOf(records) && OneOfEach(records, key, strategies) && OneRun(records, key, s);
      assert IsRunOf(records, key, s, i) && (IsRunOf(records, key, s, j) ==> i == j);
    }
  }

  /** Over a valid matrix, pairing any two expected strategies fails only for a missing metric. */
  lemma MatrixPairs(records: seq<Run>, strategies: seq<string>, baseline: string, alternative: string)
    requires IsMatrix(records, strategies) && baseline in strategies && alternative in strategies
    ensures Pairable(records, baseline, alternative) <==> AllMeasured(records, baseline, alternative)
  {
    MatrixHasNoDuplicates(records, strategies, baseline, alternative);
    MatrixHasRun(records, strategies, records[0], baseline);
    forall r | r in records && Relevant(r, baseline, alternative)
      ensures r.metric.Some? <==> Matched(records, r, baseline, alternative)
    {
      MatrixHasRun(records, strategies, r, baseline);
      MatrixHasRun(records, strategies, r, alternative);
    }
  }

  lemma OneCellIsMatrix(a: Run, b: Run)
    requires a.key == b.key && a.runId != b.runId && a.strategy != b.strategy
    ensures IsMatrix([a, b], [a.strategy, b.strategy])
  {
    var records, strategies := [a, b], [a.strategy, b.strategy];
    assert records[0] == a && records[1] == b;
    assert IsRunOf(records, a.key, a.strategy, 0) && IsRunOf(records, a.key, b.strategy, 1);
    assert KeysOf(records) == {a.key};
    assert OneOfEach(records, a.key, strategies);
  }

  /** One cell, both strategies, nothing received in the second run: a valid matrix that cannot be paired. */
  lemma MatrixCanFailPairing() returns (records: seq<Run>)
    ensures IsMatrix(records, ["static", "adaptive"]) && !Pairable(records, "static", "adaptive")
  {
    var key := Key(1, "urban", "video");
    var a, b := Run("1", key, "static", Some(40.0)), Run("2", key, "adaptive", None);
    records := [a, b];
    OneCellIsMatrix(a, b);
    assert records[1] == b && Relevant(b, "static", "adaptive");
    MatrixPairs(records, ["static", "adaptive"], "static", "adaptive");
  }

  function PairKeys(pairs: seq<Pair>): set<Key> {
    set p | p in pairs :: p.key
  }

  /** One pair for each cell of the matrix. */
  lemma MatrixPairKeys(records: seq<Run>, strategies: seq<string>, baseline: string, alternative: string,
                       pairs: seq<Pair>)
    requires IsMatrix(records, strategies) && baseline in strategies && alternative in strategies
    requires IsPairing(pairs, records, baseline, alternative)
    ensures PairKeys(pairs) == KeysOf(records)
  {
    forall key | key in KeysOf(records) ensures key in PairKeys(pairs) {
      var r :| r in records && r.key == key;
      MatrixHasRun(records, strategies, r, baseline);
      var x :| x in records && x.key == key && x.strategy == baseline;
      assert Relevant(x, baseline, alternative);
    }
    forall p | p in pairs ensures p.key in KeysOf(records) {
      assert PairsRuns(p, records, baseline, alternative);
      var b, a :| IsPairOf(p, records, b, a, baseline, alternative);
    }
  }

  // ----- Every block has the same number of pairs -----

  function CellsOfGroup(group: seq<Pair>): (cells: seq<(string, string)>)
    ensures |cells| == |group|
    ensures forall i :: 0 <= i < |cells| ==> cells[i] == (group[i].key.scenario, group[i].key.profile)
  {
    if group == [] then []
    else CellsOfGroup(group[..|group| - 1]) + [(group[|group| - 1].key.scenario, group[|group| - 1].key.profile)]
  }

  ghost predicate DistinctKeys(pairs: seq<Pair>) {
    forall i, j :: 0 <= i < j < |pairs| ==> pairs[i].key != pairs[j].key
  }

  lemma {:induction false} GroupKeysDistinct(pairs: seq<Pair>, block: nat)
    requires DistinctKeys(pairs)
    ensures DistinctKeys(Group(pairs, BlockOf(), block))
  {
    if pairs != [] {
      var front, last := pairs[..|pairs| - 1], pairs[|pairs| - 1];
      GroupKeysDistinct(front, block);
      GroupMembers(front, BlockOf(), block);
      var g := Group(front, BlockOf(), block);
      forall i | 0 <= i < |g| ensures g[i].key != last.key {
        assert g[i] in front;
        var j :| 0 <= j < |front| && front[j] == g[i];
        assert pairs[j].key != pairs[|pairs| - 1].key;
      }
    }
  }

  lemma GroupSizeIsLayout(pairs: seq<Pair>, block: nat)
    requires DistinctKeys(pairs)
    ensures |Group(pairs, BlockOf(), block)| == |LayoutOf(PairKeys(pairs), block)|
  {
    var group := Group(pairs, BlockOf(), block);
    var cells := CellsOfGroup(group);
    GroupKeysDistinct(pairs, block);
    GroupMembers(pairs, BlockOf(), block);
    forall i, j | 0 <= i < j < |cells| ensures cells[i] != cells[j] {
      assert group[i] in group && group[j] in group;
      assert group[i].key != group[j].key;
    }
    DistinctBySize(cells);
    forall c | c in LayoutOf(PairKeys(pairs), block) ensures c in cells {
      var k :| k in PairKeys(pairs) && k.block == block && (k.scenario, k.profile) == c;
      var p :| p in pairs && p.key == k;
      assert p in group;
      var i :| 0 <= i < |group| && group[i] == p;
      assert cells[i] == c;
    }
    forall c | c in cells ensures c in LayoutOf(PairKeys(pairs), block) {
      var i :| 0 <= i < |cells| && cells[i] == c;
      assert group[i] in group;
      assert group[i].key in PairKeys(pairs);
    }
    assert SetOf(cells) == LayoutOf(PairKeys(pairs), block);
  }

  lemma MatrixBlocksAreBalanced(records: seq<Run>, strategies: seq<string>, pairs: seq<Pair>,
                                blocks: seq<BlockDifference>)
    requires IsMatrix(records, strategies) && PairKeys(pairs) == KeysOf(records) && DistinctKeys(pairs)
    requires IsAggregate(blocks, pairs) && blocks != []
    ensures blocks[0].cellCount > 0 && forall b :: b in blocks ==> b.cellCount == blocks[0].cellCount
  {
    forall b | b in blocks
      ensures b.cellCount == |LayoutOf(KeysOf(records), b.block)| && b.block in BlocksOf(KeysOf(records))
    {
      GroupSizeIsLayout(pairs, b.block);
      GroupMembers(pairs, BlockOf(), b.block);
      var p := Group(pairs, BlockOf(), b.block)[0];
      assert p in Group(pairs, BlockOf(), b.block);
      assert p.key in PairKeys(pairs);
    }
    assert blocks[0] in blocks;
    forall b | b in blocks ensures b.cellCount == blocks[0].cellCount {
      LayoutsCompare(KeysOf(records), b.block, blocks[0].block);
    }
  }

  // ----- The mean difference is a difference of means -----

  function StrategyOf(): Run -> string {
    (r: Run) => r.strategy
  }

  function KeyOf(): Run -> Key {
    (r: Run) => r.key
  }

  function MetricOf(): Run -> real {
    (r: Run) => if r.metric.Some? then r.metric.value else 0.0
  }

  function RunsOf(records: seq<Run>, strategy: string): seq<Run> {
    Group(records, StrategyOf(), strategy)
  }

  function SideOf(alternative: bool): Pair -> real {
    (p: Pair) => if alternative then p.alternative else p.baseline
  }

  lemma {:induction false} CellRunsCount(records: seq<Run>, strategy: string, key: Key)
    ensures |Group(RunsOf(records, strategy), KeyOf(), key)| == RunsIn(records, key, strategy)
  {
    if records != [] {
      CellRunsCount(records[..|records| - 1], strategy, key);
      GroupSnoc(RunsOf(records[..|records| - 1], strategy), records[|records| - 1], KeyOf(), key);
    }
  }

  /** The group of a strategy's only run in a cell is that run. */
  lemma CellRunIs(records: seq<Run>, r: Run)
    requires r in records && OneRun(records, r.key, r.strategy)
    ensures Group(RunsOf(records, r.strategy), KeyOf(), r.key) == [r]
  {
    OneRunIffOne(records, r.key, r.strategy);
    CellRunsCount(records, r.strategy, r.key);
    GroupMembers(records, StrategyOf(), r.strategy);
    GroupMembers(RunsOf(records, r.strategy), KeyOf(), r.key);
    assert r in Group(RunsOf(records, r.strategy), KeyOf(), r.key);
  }

  function KeysInOrder(pairs: seq<Pair>): (keys: seq<Key>)
    ensures |keys| == |pairs| && forall i :: 0 <= i < |keys| ==> keys[i] == pairs[i].key
  {
    if pairs == [] then [] else KeysInOrder(pairs[..|pairs| - 1]) + [pairs[|pairs| - 1].key]
  }

  /** Each pair holds, on the given side, the only run of `strategy` in its cell. */
  ghost predicate HoldsRuns(pairs: seq<Pair>, records: seq<Run>, strategy: string, alternative: bool) {
    forall i :: 0 <= i < |pairs| ==> HoldsRun(pairs[i], records, strategy, alternative)
  }

  ghost predicate HoldsRun(p: Pair, records: seq<Run>, strategy: string, alternative: bool) {
    exists r :: IsHeld(p, records, r, strategy, alternative)
  }

  ghost predicate IsHeld(p: Pair, records: seq<Run>, r: Run, strategy: string, alternative: bool) {
    && r in records && r.key == p.key && r.strategy == strategy && OneRun(records, r.key, strategy)
    && r.metric == Some(SideOf(alternative)(p))
  }

  lemma HeldTotals(p: Pair, records: seq<Run>, strategy: string, alternative: bool)
    requires HoldsRun(p, records, strategy, alternative)
    ensures Total(Group(RunsOf(records, strategy), KeyOf(), p.key), MetricOf()) == SideOf(alternative)(p)
    ensures Total(Group(RunsOf(records, strategy), KeyOf(), p.key), One()) == 1.0
  {
    var r :| IsHeld(p, records, r, strategy, alternative);
    CellRunIs(records, r);
    SingleTotal(r, MetricOf());
    SingleTotal(r, One());
  }

  lemma {:induction false} SideTotals(pairs: seq<Pair>, records: seq<Run>, strategy: string, alternative: bool)
    requires HoldsRuns(pairs, records, strategy, alternative)
    ensures GroupsTotal(KeysInOrder(pairs), RunsOf(records, strategy), KeyOf(), MetricOf()) ==
      Total(pairs, SideOf(alternative))
    ensures GroupsTotal(KeysInOrder(pairs), RunsOf(records, strategy), KeyOf(), One()) == Total(pairs, One())
  {
    if pairs != [] {
      var front, last := pairs[..|pairs| - 1], pairs[|pairs| - 1];
      SideTotals(front, records, strategy, alternative);
      assert KeysInOrder(pairs)[..|front|] == KeysInOrder(front);
      assert HoldsRun(last, records, strategy, alternative);
      HeldTotals(last, records, strategy, alternative);
    }
  }

  lemma SingleTotal(r: Run, value: Run -> real)
    ensures Total([r], value) == value(r)
  {
    assert [r][..0] == [];
  }

  lemma SideIsStrategy(pairs: seq<Pair>, records: seq<Run>, strategy: string, alternative: bool)
    requires HoldsRuns(pairs, records, strategy, alternative) && DistinctKeys(pairs)
    requires PairKeys(pairs) == KeysOf(records)
    ensures Total(pairs, SideOf(alternative)) == Total(RunsOf(records, strategy), MetricOf())
    ensures |pairs| == |RunsOf(records, strategy)|
  {
    var keys, runs := KeysInOrder(pairs), RunsOf(records, strategy);
    GroupMembers(records, StrategyOf(), strategy);
    forall r | r in runs ensures KeyOf()(r) in keys {
      assert r.key in PairKeys(pairs);
      var p :| p in pairs && p.key == r.key;
      var i :| 0 <= i < |pairs| && pairs[i] == p;
      assert keys[i] == r.key;
    }
    SideTotals(pairs, records, strategy, alternative);
    GroupsAddUp(keys, runs, KeyOf(), MetricOf());
    GroupsAddUp(keys, runs, KeyOf(), One());
    TotalOfOne(pairs);
    TotalOfOne(runs);
  }

  lemma PairingHoldsRuns(records: seq<Run>, strategies: seq<string>, baseline: string, alternative: string,
                         pairs: seq<Pair>)
    requires IsMatrix(records, strategies) && baseline in strategies && alternative in strategies
    requires IsPairing(pairs, records, baseline, alternative)
    ensures HoldsRuns(pairs, records, baseline, false) && HoldsRuns(pairs, records, alternative, true)
    ensures Total(pairs, DifferenceOf()) == Total(pairs, SideOf(true)) - Total(pairs, SideOf(false))
  {
    forall i | 0 <= i < |pairs|
      ensures HoldsRun(pairs[i], records, baseline, false) && HoldsRun(pairs[i], records, alternative, true)
      ensures pairs[i].difference == pairs[i].alternative - pairs[i].baseline
    {
      assert pairs[i] in pairs;
      assert PairsRuns(pairs[i], records, baseline, alternative);
      var b, a :| IsPairOf(pairs[i], records, b, a, baseline, alternative);
      assert b.key in KeysOf(records) && OneOfEach(records, b.key, strategies);
      assert IsHeld(pairs[i], records, b, baseline, false) && IsHeld(pairs[i], records, a, alternative, true);
    }
    DifferencesSplit(pairs);
  }

  lemma {:induction false} DifferencesSplit(pairs: seq<Pair>)
    requires forall i :: 0 <= i < |pairs| ==> pairs[i].difference == pairs[i].alternative - pairs[i].baseline
    ensures Total(pairs, DifferenceOf()) == Total(pairs, SideOf(true)) - Total(pairs, SideOf(false))
  {
    if pairs != [] {
      DifferencesSplit(pairs[..|pairs| - 1]);
    }
  }

  lemma RatioOfDifference(a: real, b: real, size: real)
    requires size > 0.0
    ensures Ratio(a - b, size) == Ratio(a, size) - Ratio(b, size)
  {
  }

  lemma BlockMeanIsPairMean(records: seq<Run>, strategies: seq<string>, pairs: seq<Pair>, blocks: seq<BlockDifference>)
    requires IsMatrix(records, strategies) && PairKeys(pairs) == KeysOf(records) && DistinctKeys(pairs)
    requires pairs != [] && blocks != [] && IsAggregate(blocks, pairs)
    ensures MeanOf(blocks, Unweighted()) == MeanOf(pairs, DifferenceOf())
  {
    MatrixBlocksAreBalanced(records, strategies, pairs, blocks);
    BalancedMean(blocks, pairs, blocks[0].cellCount);
  }

  lemma PairMeanSplits(records: seq<Run>, baseline: string, alternative: string, pairs: seq<Pair>)
    requires pairs != [] && DistinctKeys(pairs) && PairKeys(pairs) == KeysOf(records)
    requires HoldsRuns(pairs, records, baseline, false) && HoldsRuns(pairs, records, alternative, true)
    requires Total(pairs, DifferenceOf()) == Total(pairs, SideOf(true)) - Total(pairs, SideOf(false))
    ensures RunsOf(records, alternative) != [] && RunsOf(records, baseline) != []
    ensures MeanOf(pairs, DifferenceOf()) ==
      MeanOf(RunsOf(records, alternative), MetricOf()) - MeanOf(RunsOf(records, baseline), MetricOf())
  {
    SideIsStrategy(pairs, records, alternative, true);
    SideIsStrategy(pairs, records, baseline, false);
    RatioOfDifference(Total(pairs, SideOf(true)), Total(pairs, SideOf(false)), |pairs| as real);
  }

  /**
    * Over a valid matrix the reported mean difference, a mean of block means, is the mean of all
    * paired differences and the alternative's mean minus the baseline's.
    */
  lemma MeanDifference(records: seq<Run>, strategies: seq<string>, baseline: string, alternative: string,
                       pairs: seq<Pair>, blocks: seq<BlockDifference>)
    requires IsMatrix(records, strategies) && baseline in strategies && alternative in strategies
    requires pairs != [] && IsPairing(pairs, records, baseline, alternative)
    requires blocks != [] && IsAggregate(blocks, pairs)
    ensures RunsOf(records, alternative) != [] && RunsOf(records, baseline) != []
    ensures MeanOf(blocks, Unweighted()) == MeanOf(pairs, DifferenceOf())
    ensures MeanOf(pairs, DifferenceOf()) ==
      MeanOf(RunsOf(records, alternative), MetricOf()) - MeanOf(RunsOf(records, baseline), MetricOf())
    ensures MeanOf(pairs, DifferenceOf()) * |pairs| as real == Total(pairs, DifferenceOf())
  {
    MeanTimesSize(pairs, DifferenceOf());
    MatrixPairKeys(records, strategies, baseline, alternative, pairs);
    PairingHoldsRuns(records, strategies, baseline, alternative, pairs);
    BlockMeanIsPairMean(records, strategies, pairs, blocks);
    PairMeanSplits(records, baseline, alternative, pairs);
  }
}
