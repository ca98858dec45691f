/** Holm's step-down adjustment of a family of p-values, and closed testing. */
module Holm {
  import opened Common
  import opened Sorting

  datatype Error = InvalidPValue

  ghost predicate ValidFamily(p: seq<real>) {
    forall i :: 0 <= i < |p| ==> 0.0 <= p[i] <= 1.0
  }

  // ----- The reference definition: Bonferroni tests closed under intersection -----

  ghost predicate IsLeast(p: seq<real>, S: set<nat>, m: real)
    requires S <= Below(|p|)
  {
    && (exists i :: i in S && p[i] == m)
    && (forall i :: i in S ==> m <= p[i])
  }

  // `n * x` by repeated addition, so that proofs about ranks stay linear.
  ghost function Multiple(n: nat, x: real): real {
    if n == 0 then 0.0 else Multiple(n - 1, x) + x
  }

  lemma {:induction false} MultipleIsProduct(n: nat, x: real)
    ensures Multiple(n, x) == n as real * x
  {
    if n > 0 {
      MultipleIsProduct(n - 1, x);
      assert n as real * x == (n - 1) as real * x + x;
    }
  }

  ghost function Bonferroni(size: nat, least: real): real {
    Min(1.0, Multiple(size, least))
  }

  /** `v` is the Bonferroni p-value of the intersection hypothesis over `S`. */
  ghost predicate IsLocalP(p: seq<real>, S: set<nat>, v: real) {
    && S <= Below(|p|)
    && (exists m :: IsLeast(p, S, m) && v == Bonferroni(|S|, m))
  }

  /** `v` is the largest local p-value over the intersections that contain hypothesis `i`. */
  ghost predicate IsClosedTestP(p: seq<real>, i: nat, v: real) {
    && (exists S: set<nat> :: i in S && IsLocalP(p, S, v))
    && (forall S: set<nat>, w: real :: i in S && IsLocalP(p, S, w) ==> w <= v)
  }

  lemma {:induction false} MultipleMonotone(a: nat, b: nat, m: real, v: real)
    requires a <= b && 0.0 <= m <= v
    ensures 0.0 <= Multiple(a, m) <= Multiple(b, v)
  {
    if a > 0 {
      MultipleMonotone(a - 1, b - 1, m, v);
    } else if b > 0 {
      MultipleMonotone(0, b - 1, m, v);
    }
  }

  // ----- The computation: ranks, and the running maximum down the ranks -----

  /** `rank[k]` is the index of the p-value of rank `k`, smallest first; ties in any order. */
  ghost predicate IsRanking(p: seq<real>, rank: seq<nat>) {
    && IsPermutation(rank, |p|)
    && (forall j, k :: 0 <= j < k < |p| ==> p[rank[j]] <= p[rank[k]])
  }

  /** The p-values in rank order. */
  ghost function Ordered(p: seq<real>, rank: seq<nat>): (q: seq<real>)
    requires IsPermutation(rank, |p|)
    ensures |q| == |p| && forall k :: 0 <= k < |p| ==> q[k] == p[rank[k]]
  {
    seq(|p|, k requires 0 <= k < |p| => p[rank[k]])
  }

  ghost function Candidate(q: seq<real>, k: nat): real
    requires k < |q|
  {
    Bonferroni(|q| - k, q[k])
  }

  ghost function RunningMax(q: seq<real>, k: nat): real
    requires k < |q|
  {
    Max(if k == 0 then 0.0 else RunningMax(q, k - 1), Candidate(q, k))
  }

  function Enumerate(p: seq<real>): (r: seq<(nat, real)>)
    ensures |r| == |p| && forall i :: 0 <= i < |p| ==> r[i] == (i, p[i])
  {
    seq(|p|, i requires 0 <= i < |p| => (i, p[i]))
  }

  function ByValue(): ((nat, real), (nat, real)) -> bool {
    (a: (nat, real), b: (nat, real)) => a.1 <= b.1
  }

  ghost function Firsts(order: seq<(nat, real)>): (r: seq<nat>)
    ensures |r| == |order| && forall k :: 0 <= k < |r| ==> r[k] == order[k].0
  {
    seq(|order|, k requires 0 <= k < |order| => order[k].0)
  }

  lemma SortedIsRanking(p: seq<real>)
    ensures var order := Sort(Enumerate(p), ByValue());
      && |order| == |p| && IsRanking(p, Firsts(order))
      && forall k :: 0 <= k < |p| ==> order[k] == (Firsts(order)[k], p[Firsts(order)[k]])
  {
    var e, order := Enumerate(p), Sort(Enumerate(p), ByValue());
    SortSorts(e, ByValue());
    DistinctPermutes(e, order);
    forall k | 0 <= k < |p| ensures order[k].0 < |p| && order[k].1 == p[order[k].0] {
      assert order[k] in multiset(e);
    }
    forall j, k | 0 <= j < k < |p|
      ensures order[j].0 != order[k].0 && order[j].1 <= order[k].1
    {
      assert order[j] != order[k] && ByValue()(order[j], order[k]);
    }
  }

  // ----- Why the two agree -----

  /** The hypotheses ranked `j` or later. */
  ghost function Tail(rank: seq<nat>, j: nat): (r: set<nat>)
    requires j <= |rank|
    ensures forall k :: j <= k < |rank| ==> rank[k] in r
    decreases |rank| - j
  {
    if j == |rank| then {} else {rank[j]} + Tail(rank, j + 1)
  }

  lemma {:induction false} TailMember(rank: seq<nat>, j: nat, i: nat) returns (k: nat)
    requires j <= |rank| && i in Tail(rank, j)
    ensures j <= k < |rank| && rank[k] == i
    decreases |rank| - j
  {
    if rank[j] == i {
      k := j;
    } else {
      k := TailMember(rank, j + 1, i);
    }
  }

  lemma {:induction false} TailSize(rank: seq<nat>, j: nat)
    requires Distinct(rank) && j <= |rank|
    ensures |Tail(rank, j)| == |rank| - j
    decreases |rank| - j
  {
    if j < |rank| {
      TailSize(rank, j + 1);
      if rank[j] in Tail(rank, j + 1) {
        var k := TailMember(rank, j + 1, rank[j]);
      }
    }
  }

  lemma FirstRank(p: seq<real>, rank: seq<nat>, S: set<nat>, k: nat) returns (j: nat)
    requires IsRanking(p, rank) && k < |p| && rank[k] in S && S <= Below(|p|)
    ensures j <= k && rank[j] in S && S <= Tail(rank, j)
  {
    j := 0;
    while rank[j] !in S
      invariant j <= k && forall h :: 0 <= h < j ==> rank[h] !in S
      decreases k - j
    {
      j := j + 1;
    }
    forall i | i in S ensures i in Tail(rank, j) {
      var h := PermutationIsOnto(rank, |p|, i);
    }
  }

  lemma {:induction false} RunningMaxBounds(q: seq<real>, j: nat, k: nat)
    requires j <= k < |q|
    ensures Candidate(q, j) <= RunningMax(q, k)
    decreases k
  {
    if j < k {
      RunningMaxBounds(q, j, k - 1);
    }
  }

  lemma {:induction false} RunningMaxAttained(q: seq<real>, k: nat) returns (j: nat)
    requires ValidFamily(q) && k < |q|
    ensures j <= k && RunningMax(q, k) == Candidate(q, j)
    decreases k
  {
    MultipleMonotone(0, |q| - k, 0.0, q[k]);
    j := k;
    if k > 0 && Candidate(q, k) <= RunningMax(q, k - 1) {
      j := RunningMaxAttained(q, k - 1);
    }
  }

  lemma TailLeast(p: seq<real>, rank: seq<nat>, j: nat)
    requires IsRanking(p, rank) && j < |p|
    ensures Tail(rank, j) <= Below(|p|) && IsLeast(p, Tail(rank, j), p[rank[j]])
  {
    forall i | i in Tail(rank, j) ensures i < |p| && p[rank[j]] <= p[i] {
      var k := TailMember(rank, j, i);
    }
  }

  lemma TailLocalP(p: seq<real>, rank: seq<nat>, j: nat)
    requires IsRanking(p, rank) && j < |p|
    ensures IsLocalP(p, Tail(rank, j), Candidate(Ordered(p, rank), j))
  {
    TailSize(rank, j);
    TailLeast(p, rank, j);
  }

  lemma LeastOfTail(p: seq<real>, rank: seq<nat>, S: set<nat>, j: nat, m: real)
    requires ValidFamily(p) && IsRanking(p, rank) && j < |p|
    requires rank[j] in S && S <= Tail(rank, j) && S <= Below(|p|) && IsLeast(p, S, m)
    ensures |S| <= |p| - j && 0.0 <= m <= p[rank[j]]
  {
    TailSize(rank, j);
    SubsetSize(S, Tail(rank, j));
  }

  lemma LeastBelowCandidate(p: seq<real>, rank: seq<nat>, S: set<nat>, j: nat, m: real)
    requires ValidFamily(p) && IsRanking(p, rank) && j < |p|
    requires rank[j] in S && S <= Tail(rank, j) && S <= Below(|p|) && IsLeast(p, S, m)
    ensures Bonferroni(|S|, m) <= Bonferroni(|p| - j, p[rank[j]])
  {
    LeastOfTail(p, rank, S, j, m);
    MultipleMonotone(|S|, |p| - j, m, p[rank[j]]);
  }

  lemma LocalPBelowCandidate(p: seq<real>, rank: seq<nat>, S: set<nat>, j: nat, w: real)
    requires ValidFamily(p) && IsRanking(p, rank) && j < |p|
    requires rank[j] in S && S <= Tail(rank, j) && IsLocalP(p, S, w)
    ensures w <= Candidate(Ordered(p, rank), j)
  {
    var m :| IsLeast(p, S, m) && w == Bonferroni(|S|, m);
    LeastBelowCandidate(p, rank, S, j, m);
  }

  /** Every ranking of the p-values, whatever it does with ties, gives the closed-testing value. */
  lemma StepDownIsClosedTest(p: seq<real>, rank: seq<nat>, k: nat)
    requires ValidFamily(p) && IsRanking(p, rank) && k < |p|
    ensures IsClosedTestP(p, rank[k], RunningMax(Ordered(p, rank), k))
  {
    var i, v := rank[k], RunningMax(Ordered(p, rank), k);
    var j := RunningMaxAttained(Ordered(p, rank), k);
    TailLocalP(p, rank, j);
    assert i in Tail(rank, j);
    forall S: set<nat>, w: real | i in S && IsLocalP(p, S, w) ensures w <= v {
      var h := FirstRank(p, rank, S, k);
      LocalPBelowCandidate(p, rank, S, h, w);
      RunningMaxBounds(Ordered(p, rank), h, k);
    }
  }

  function ScaledP(n: nat, x: real): (r: real)
    ensures r == Bonferroni(n, x)
  {
    MultipleIsProduct(n, x);
    Min(1.0, n as real * x)
  }

  /** The list is written back through the ranking: entry `i` belongs to p-value `i`. */
  method WriteBack(order: seq<(nat, real)>, ghost rank: seq<nat>, ghost q: seq<real>) returns (adjusted: seq<real>)
    requires |q| == |order| && IsPermutation(rank, |order|)
    requires forall k :: 0 <= k < |order| ==> order[k] == (rank[k], q[k])
    ensures |adjusted| == |order|
    ensures forall k :: 0 <= k < |order| ==> adjusted[rank[k]] == RunningMax(q, k)
  {
    adjusted := seq(|order|, _ => 0.0);
    var runningMax := 0.0;
    for k := 0 to |order|
      invariant |adjusted| == |order|
      invariant runningMax == if k == 0 then 0.0 else RunningMax(q, k - 1)
      invariant forall h :: 0 <= h < k ==> adjusted[rank[h]] == RunningMax(q, h)
    {
      var (originalIndex, value) := order[k];
      var candidate := ScaledP(|order| - k, value);
      runningMax := Max(runningMax, candidate);
      assert runningMax == RunningMax(q, k);
      ghost var before := adjusted;
      adjusted := adjusted[originalIndex := runningMax];
      forall h | 0 <= h < k ensures adjusted[rank[h]] == RunningMax(q, h) {
        assert rank[h] != rank[k] && before[rank[h]] == RunningMax(q, h);
      }
    }
  }

  method HolmAdjusted(p: seq<real>) returns (r: Result<seq<real>, Error>)
    ensures r.Ok? <==> ValidFamily(p)
    ensures r.Ok? ==> |r.value| == |p|
    ensures r.Ok? ==> forall i :: 0 <= i < |p| ==> IsClosedTestP(p, i, r.value[i])
  {
    for i := 0 to |p|
      invariant forall h :: 0 <= h < i ==> 0.0 <= p[h] <= 1.0
    {
      if !(0.0 <= p[i] <= 1.0) {
        return Err(InvalidPValue);
      }
    }
    var order := Sort(Enumerate(p), ByValue());
    SortedIsRanking(p);
    ghost var rank := Firsts(order);
    var adjusted := WriteBack(order, rank, Ordered(p, rank));
    forall i | 0 <= i < |p| ensures IsClosedTestP(p, i, adjusted[i]) {
      var k := PermutationIsOnto(rank, |p|, i);
      StepDownIsClosedTest(p, rank, k);
    }
    r := Ok(adjusted);
  }

  // ----- Consequences for the caller -----

  /** The requirement that rank `k` meets in Holm's sequential test at level `alpha`. */
  ghost predicate Passes(p: seq<real>, rank: seq<nat>, alpha: real, k: nat)
    requires IsRanking(p, rank) && k < |p|
  {
    Multiple(|p| - k, p[rank[k]]) <= alpha
  }

  /** Holm's sequential test: reject down the ranks from `start` until the first failure. */
  ghost function RejectedRanks(p: seq<real>, rank: seq<nat>, alpha: real, start: nat): (n: nat)
    requires IsRanking(p, rank) && start <= |p|
    ensures start <= n <= |p|
    decreases |p| - start
  {
    if start < |p| && Passes(p, rank, alpha, start)
    then RejectedRanks(p, rank, alpha, start + 1)
    else start
  }

  lemma {:induction false} RejectedIffAllPass(p: seq<real>, rank: seq<nat>, alpha: real, start: nat, k: nat)
    requires IsRanking(p, rank) && start <= k < |p|
    ensures k < RejectedRanks(p, rank, alpha, start)
       <==> forall j :: start <= j <= k ==> Passes(p, rank, alpha, j)
    decreases k - start
  {
    if Passes(p, rank, alpha, start) && start < k {
      RejectedIffAllPass(p, rank, alpha, start + 1, k);
    }
  }

  lemma PassesIsCandidate(p: seq<real>, rank: seq<nat>, alpha: real, k: nat)
    requires IsRanking(p, rank) && k < |p| && alpha < 1.0
    ensures Passes(p, rank, alpha, k) <==> Candidate(Ordered(p, rank), k) <= alpha
  {
  }

  /** An adjusted value is at most alpha exactly when the sequential test rejects. */
  lemma AdjustedDecidesRejection(p: seq<real>, rank: seq<nat>, k: nat, v: real, alpha: real)
    requires ValidFamily(p) && IsRanking(p, rank) && k < |p| && alpha < 1.0
    requires IsClosedTestP(p, rank[k], v)
    ensures v <= alpha <==> k < RejectedRanks(p, rank, alpha, 0)
  {
    StepDownIsClosedTest(p, rank, k);
    RejectedIffAllPass(p, rank, alpha, 0, k);
    forall j | 0 <= j <= k
      ensures Passes(p, rank, alpha, j) <==> Candidate(Ordered(p, rank), j) <= alpha
      ensures Candidate(Ordered(p, rank), j) <= RunningMax(Ordered(p, rank), k)
    {
      PassesIsCandidate(p, rank, alpha, j);
      RunningMaxBounds(Ordered(p, rank), j, k);
    }
    var j := RunningMaxAttained(Ordered(p, rank), k);
  }

  // ----- Reordering the family reorders the adjusted values the same way -----

  /** `q` lists the p-values of `p` in another order: `q[i] == p[pi[i]]`. */
  ghost predicate IsRelabelling(p: seq<real>, q: seq<real>, pi: seq<nat>) {
    && |q| == |p| && IsPermutation(pi, |p|)
    && (forall i :: 0 <= i < |p| ==> q[i] == p[pi[i]])
  }

  lemma ImageLocalP(p: seq<real>, q: seq<real>, pi: seq<nat>, S: set<nat>, v: real)
    requires IsRelabelling(p, q, pi) && IsLocalP(q, S, v)
    ensures IsLocalP(p, Image(pi, S), v)
  {
    ImageSize(pi, S);
    var m :| IsLeast(q, S, m) && v == Bonferroni(|S|, m);
    var i :| i in S && q[i] == m;
    assert pi[i] in Image(pi, S);
    assert IsLeast(p, Image(pi, S), m);
  }

  /** The adjustment is equivariant: it does not depend on the order of the input. */
  lemma AdjustmentIsEquivariant(p: seq<real>, q: seq<real>, pi: seq<nat>, i: nat, v: real)
    requires IsRelabelling(p, q, pi) && i < |q|
    ensures IsClosedTestP(q, i, v) <==> IsClosedTestP(p, pi[i], v)
  {
    var inv := InversePermutation(pi, |p|);
    if IsClosedTestP(q, i, v) {
      RelabelledClosedTest(p, q, pi, inv, i, v);
    }
    if IsClosedTestP(p, pi[i], v) {
      RelabelledClosedTest(q, p, inv, pi, pi[i], v);
    }
  }

  lemma RelabelledClosedTest(p: seq<real>, q: seq<real>, pi: seq<nat>, inv: seq<nat>, i: nat, v: real)
    requires IsRelabelling(p, q, pi) && IsRelabelling(q, p, inv) && Inverse(pi, inv)
    requires i < |q| && IsClosedTestP(q, i, v)
    ensures IsClosedTestP(p, pi[i], v)
  {
    var S: set<nat> :| i in S && IsLocalP(q, S, v);
    ImageLocalP(p, q, pi, S, v);
    assert pi[i] in Image(pi, S);
    forall S': set<nat>, w: real | pi[i] in S' && IsLocalP(p, S', w) ensures w <= v {
      ImageLocalP(q, p, inv, S', w);
      assert inv[pi[i]] in Image(inv, S');
    }
  }
}
