/** Block means of paired differences, and what they conserve. */
module Blocks {
  import opened Common
  import opened Sorting
  import opened Sums
  import opened Pairing
  import opened Differences

  function BlockOf(): Pair -> nat {
    (p: Pair) => p.key.block
  }

  function DifferenceOf(): Pair -> real {
    (p: Pair) => p.difference
  }

  function One<T>(): T -> real {
    (x: T) => 1.0
  }

  lemma {:induction false} TotalOfOne<T>(s: seq<T>)
    ensures Total(s, One()) == |s| as real
  {
    if s != [] {
      TotalOfOne(s[..|s| - 1]);
    }
  }

  function BlockFor(pairs: seq<Pair>, block: nat): BlockDifference
    requires Group(pairs, BlockOf(), block) != []
  {
    var members := Group(pairs, BlockOf(), block);
    BlockDifference(block, Total(members, DifferenceOf()) / |members| as real, |members|)
  }

  /** The block counts these pairs, and its difference is their mean. */
  ghost predicate IsMeanOf(b: BlockDifference, members: seq<Pair>) {
    && members != [] && b.cellCount == |members|
    && b.cellCount as real * b.difference == Total(members, DifferenceOf())
  }

  lemma BlockIsMean(pairs: seq<Pair>, block: nat)
    requires Group(pairs, BlockOf(), block) != []
    ensures IsMeanOf(BlockFor(pairs, block), Group(pairs, BlockOf(), block))
  {
    var members := Group(pairs, BlockOf(), block);
    MeanTimesCount(Total(members, DifferenceOf()), |members|);
  }

  /** Blocks ascending, one per block that has a pair, each the mean of its own pairs. */
  ghost predicate IsAggregate(blocks: seq<BlockDifference>, pairs: seq<Pair>) {
    && (forall i, j :: 0 <= i < j < |blocks| ==> blocks[i].block < blocks[j].block)
    && (forall i :: 0 <= i < |blocks| ==>
          IsMeanOf(blocks[i], Group(pairs, BlockOf(), blocks[i].block)))
    && (forall p :: p in pairs ==> exists i :: 0 <= i < |blocks| && blocks[i].block == p.key.block)
  }

  type Groups = map<nat, seq<Pair>>

  ghost predicate Collected(groups: Groups, pairs: seq<Pair>) {
    && (forall p :: p in pairs ==> p.key.block in groups)
    && (forall b :: b in groups ==> groups[b] != [] && groups[b] == Group(pairs, BlockOf(), b))
  }

  lemma {:induction false} NoMembers(pairs: seq<Pair>, block: nat)
    requires forall p :: p in pairs ==> p.key.block != block
    ensures Group(pairs, BlockOf(), block) == []
  {
    if pairs != [] {
      assert pairs[|pairs| - 1] in pairs;
      forall p | p in pairs[..|pairs| - 1] ensures p in pairs {}
      NoMembers(pairs[..|pairs| - 1], block);
    }
  }

  lemma CollectOne(groups: Groups, pairs: seq<Pair>, p: Pair)
    requires Collected(groups, pairs)
    ensures
      var block := p.key.block;
      Collected(groups[block := (if block in groups then groups[block] else []) + [p]], pairs + [p])
  {
    var block := p.key.block;
    var after := groups[block := (if block in groups then groups[block] else []) + [p]];
    if block !in groups {
      NoMembers(pairs, block);
    }
    forall b | b in after ensures after[b] == Group(pairs + [p], BlockOf(), b) {
      GroupSnoc(pairs, p, BlockOf(), b);
    }
  }

  method CollectGroups(pairs: seq<Pair>) returns (groups: Groups)
    ensures Collected(groups, pairs)
  {
    groups := map[];
    for i := 0 to |pairs|
      invariant Collected(groups, pairs[..i])
    {
      var block := pairs[i].key.block;
      CollectOne(groups, pairs[..i], pairs[i]);
      assert pairs[..i + 1] == pairs[..i] + [pairs[i]];
      groups := groups[block := (if block in groups then groups[block] else []) + [pairs[i]]];
    }
    assert pairs[..|pairs|] == pairs;
  }

  method AggregateBlockDifferences(pairs: seq<Pair>) returns (r: Result<seq<BlockDifference>, InputError>)
    ensures r.Ok? <==> pairs != []
    ensures r.Ok? ==> r.value != [] && IsAggregate(r.value, pairs)
  {
    if pairs == [] {
      return Err(NoPairs);
    }
    var groups := CollectGroups(pairs);
    var keys := SortedList(groups.Keys, NatOrder());
    var blocks: seq<BlockDifference> := [];
    for i := 0 to |keys|
      invariant |blocks| == i
      invariant forall k :: 0 <= k < i ==> keys[k] in groups && blocks[k] == BlockFor(pairs, keys[k])
    {
      assert keys[i] in keys;
      blocks := blocks + [BlockFor(pairs, keys[i])];
    }
    BlocksCover(blocks, keys, groups, pairs);
    return Ok(blocks);
  }

  lemma BlocksCover(blocks: seq<BlockDifference>, keys: seq<nat>, groups: Groups, pairs: seq<Pair>)
    requires Collected(groups, pairs) && pairs != []
    requires Distinct(keys) && Sorted(keys, NatOrder()) && forall b :: b in keys <==> b in groups
    requires |blocks| == |keys|
    requires forall k :: 0 <= k < |keys| ==> keys[k] in groups && blocks[k] == BlockFor(pairs, keys[k])
    ensures blocks != [] && IsAggregate(blocks, pairs)
  {
    forall i, j | 0 <= i < j < |blocks| ensures blocks[i].block < blocks[j].block {
      assert NatOrder()(keys[i], keys[j]);
    }
    forall p | p in pairs ensures exists i :: 0 <= i < |blocks| && blocks[i].block == p.key.block {
      var i :| 0 <= i < |keys| && keys[i] == p.key.block;
      assert blocks[i].block == keys[i];
    }
    forall i | 0 <= i < |blocks| ensures IsMeanOf(blocks[i], Group(pairs, BlockOf(), blocks[i].block)) {
      BlockIsMean(pairs, keys[i]);
    }
    assert pairs[0] in pairs;
  }

  // ----- What aggregation conserves -----

  function BlockKeys(blocks: seq<BlockDifference>): (keys: seq<nat>)
    ensures |keys| == |blocks| && forall i :: 0 <= i < |keys| ==> keys[i] == blocks[i].block
  {
    if blocks == [] then [] else BlockKeys(blocks[..|blocks| - 1]) + [blocks[|blocks| - 1].block]
  }

  function Weighted(): BlockDifference -> real {
    (b: BlockDifference) => b.cellCount as real * b.difference
  }

  function Count(): BlockDifference -> real {
    (b: BlockDifference) => b.cellCount as real
  }

  function Unweighted(): BlockDifference -> real {
    (b: BlockDifference) => b.difference
  }

  ghost predicate AreBlocksOf(blocks: seq<BlockDifference>, pairs: seq<Pair>) {
    forall i :: 0 <= i < |blocks| ==>
      IsMeanOf(blocks[i], Group(pairs, BlockOf(), blocks[i].block))
  }

  lemma OneBlock(b: BlockDifference, members: seq<Pair>)
    requires IsMeanOf(b, members)
    ensures Weighted()(b) == Total(members, DifferenceOf())
    ensures Count()(b) == Total(members, One())
  {
    TotalOfOne(members);
  }

  lemma {:induction false} BlockTotals(blocks: seq<BlockDifference>, pairs: seq<Pair>)
    requires AreBlocksOf(blocks, pairs)
    ensures Total(blocks, Weighted()) == GroupsTotal(BlockKeys(blocks), pairs, BlockOf(), DifferenceOf())
    ensures Total(blocks, Count()) == GroupsTotal(BlockKeys(blocks), pairs, BlockOf(), One())
  {
    if blocks != [] {
      var n := |blocks| - 1;
      var keys := BlockKeys(blocks);
      BlockTotals(blocks[..n], pairs);
      assert keys[..n] == BlockKeys(blocks[..n]) && keys[n] == blocks[n].block;
      OneBlock(blocks[n], Group(pairs, BlockOf(), keys[n]));
    }
  }

  lemma MeanTimesCount(total: real, n: nat)
    requires n > 0
    ensures n as real * (total / n as real) == total
  {
  }

  /** Weighted by their cell counts, block differences add up to the total of the pairs. */
  lemma AggregationConserves(blocks: seq<BlockDifference>, pairs: seq<Pair>)
    requires IsAggregate(blocks, pairs)
    ensures Total(blocks, Weighted()) == Total(pairs, DifferenceOf())
    ensures Total(blocks, Count()) == |pairs| as real
  {
    var keys := BlockKeys(blocks);
    BlockTotals(blocks, pairs);
    forall p | p in pairs ensures BlockOf()(p) in keys {
      var i :| 0 <= i < |blocks| && blocks[i].block == p.key.block;
      assert keys[i] == p.key.block;
    }
    GroupsAddUp(keys, pairs, BlockOf(), DifferenceOf());
    GroupsAddUp(keys, pairs, BlockOf(), One());
    TotalOfOne(pairs);
  }

  /** `n` times `x`. */
  function Multiple(n: nat, x: real): real {
    n as real * x
  }

  lemma MultipleOfSum(n: nat, a: real, b: real)
    ensures Multiple(n, a + b) == Multiple(n, a) + Multiple(n, b)
  {
  }

  lemma {:induction false} EqualCounts(blocks: seq<BlockDifference>, n: nat)
    requires forall b :: b in blocks ==> b.cellCount == n
    ensures Total(blocks, Weighted()) == Multiple(n, Total(blocks, Unweighted()))
    ensures Total(blocks, Count()) == Multiple(n, Total(blocks, One()))
  {
    if blocks != [] {
      var last, front := blocks[|blocks| - 1], blocks[..|blocks| - 1];
      assert last in blocks;
      forall b | b in front ensures b in blocks {}
      EqualCounts(front, n);
      MultipleOfSum(n, Total(front, Unweighted()), last.difference);
      MultipleOfSum(n, Total(front, One()), 1.0);
    }
  }

  function Ratio(total: real, size: real): real
    requires size > 0.0
  {
    total / size
  }

  lemma RatioOfMultiple(n: nat, total: real, size: real)
    requires n > 0 && size > 0.0
    ensures Multiple(n, size) > 0.0
    ensures Ratio(total, size) == Ratio(Multiple(n, total), Multiple(n, size))
  {
    var q := Ratio(total, size);
    assert q * size == total;
    assert q * Multiple(n, size) == n as real * (q * size);
  }

  /** `fmean` of a value over a list. */
  function MeanOf<T>(s: seq<T>, value: T -> real): real
    requires s != []
  {
    Ratio(Total(s, value), |s| as real)
  }

  lemma MeanTimesSize<T>(s: seq<T>, value: T -> real)
    requires s != []
    ensures MeanOf(s, value) * |s| as real == Total(s, value)
  {
  }

  /** With equally many pairs in every block, the mean of the block means is the mean of all pairs. */
  lemma BalancedMean(blocks: seq<BlockDifference>, pairs: seq<Pair>, n: nat)
    requires IsAggregate(blocks, pairs) && blocks != [] && n > 0 && pairs != []
    requires forall b :: b in blocks ==> b.cellCount == n
    ensures MeanOf(blocks, Unweighted()) == MeanOf(pairs, DifferenceOf())
  {
    AggregationConserves(blocks, pairs);
    EqualCounts(blocks, n);
    TotalOfOne(blocks);
    RatioOfMultiple(n, Total(blocks, Unweighted()), |blocks| as real);
  }
}
