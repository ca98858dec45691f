/** The randomised complete block schedule: generation, identities, and the loader's checks. */
module Schedule {
  import opened Common
  import opened Sorting
  import opened Strings

  /** `blocks` repetitions of every scenario and profile, each with all strategies in random order. */
  datatype Plan = Plan(datasetId: string, configHash: string, seed: nat, blocks: nat,
                       scenarios: seq<string>, profiles: seq<string>, strategies: seq<string>)
  {
    /** What plan validation establishes: identifiers are unique and free of the separator. */
    ghost predicate Valid() {
      && Distinct(scenarios) && Distinct(profiles) && Distinct(strategies)
      && Plain(datasetId) && Plain(configHash)
      && (forall s :: s in scenarios ==> Plain(s))
      && (forall s :: s in profiles ==> Plain(s))
      && (forall s :: s in strategies ==> Plain(s))
    }

    function ExpectedRuns(): nat {
      blocks * |scenarios| * |profiles| * |strategies|
    }
  }

  datatype Cell = Cell(block: nat, scenario: string, profile: string)

  /** UUIDv5 in a fixed namespace, taken as injective in the hashed name. */
  datatype Uuid5 = Uuid5(name: string)

  datatype Entry = Entry(cellId: Uuid5, ordinal: nat, cell: Cell, strategy: string)

  /** The random stream of one seed: the n-th draw. */
  type Stream = nat -> nat

  // ----- The shuffle -----

  function Swap<T>(s: seq<T>, i: nat, j: nat): seq<T>
    requires i < |s| && j < |s|
  {
    s[i := s[j]][j := s[i]]
  }

  /** Fisher-Yates from position `i` down; draw number `at` is the first one used. */
  function Shuffled<T>(s: seq<T>, stream: Stream, at: nat, i: nat): seq<T>
    requires i < |s| || i == 0
    decreases i
  {
    if i == 0 then s else Shuffled(Swap(s, i, stream(at) % (i + 1)), stream, at + 1, i - 1)
  }

  lemma SwapPermutes<T>(s: seq<T>, i: nat, j: nat)
    requires i < |s| && j < |s|
    ensures |Swap(s, i, j)| == |s| && multiset(Swap(s, i, j)) == multiset(s)
  {
  }

  /** Whatever is drawn, a shuffle is a permutation. */
  lemma {:induction false} ShuffledPermutes<T>(s: seq<T>, stream: Stream, at: nat, i: nat)
    requires i < |s| || i == 0
    ensures |Shuffled(s, stream, at, i)| == |s|
    ensures multiset(Shuffled(s, stream, at, i)) == multiset(s)
    decreases i
  {
    if i > 0 {
      var j := stream(at) % (i + 1);
      SwapPermutes(s, i, j);
      ShuffledPermutes(Swap(s, i, j), stream, at + 1, i - 1);
    }
  }

  /** A shuffle depends on its own draws only. */
  lemma {:induction false} LaterDrawsDecide<T>(s: seq<T>, a: Stream, b: Stream, at: nat, i: nat)
    requires (i < |s| || i == 0) && forall n :: at <= n < at + i ==> a(n) == b(n)
    ensures Shuffled(s, a, at, i) == Shuffled(s, b, at, i)
    decreases i
  {
    if i > 0 {
      LaterDrawsDecide(Swap(s, i, a(at) % (i + 1)), a, b, at + 1, i - 1);
    }
  }

  lemma FrontsAgree<T>(s: seq<T>, t: seq<T>, k: nat)
    requires k <= |s| == |t| && multiset(s) == multiset(t) && s[k..] == t[k..]
    ensures multiset(s[..k]) == multiset(t[..k])
  {
    var rest := multiset(s[k..]);
    assert s == s[..k] + s[k..] && t == t[..k] + t[k..];
    assert multiset(s[..k]) == multiset(s) - rest;
    assert multiset(t[..k]) == multiset(t) - rest;
  }

  /** Some position up to `i` holds what the other order has at `i`. */
  lemma SourceOf<T>(s: seq<T>, t: seq<T>, i: nat) returns (j: nat)
    requires i < |s| == |t| && multiset(s) == multiset(t) && forall k :: i < k < |s| ==> s[k] == t[k]
    ensures j <= i && s[j] == t[i]
  {
    assert s[i + 1..] == t[i + 1..];
    FrontsAgree(s, t, i + 1);
    assert t[i] in t[..i + 1] && t[i] in multiset(t[..i + 1]);
    assert t[i] in s[..i + 1];
    j :| 0 <= j < i + 1 && s[..i + 1][j] == t[i];
  }

  /** Every order of the list is the result of some draws: nothing is shuffled away. */
  lemma {:induction false} EveryOrderIsDrawn<T>(s: seq<T>, t: seq<T>, at: nat, i: nat) returns (stream: Stream)
    requires (i < |s| || i == 0) && |s| == |t| && multiset(s) == multiset(t)
    requires forall k :: i < k < |s| ==> s[k] == t[k]
    ensures Shuffled(s, stream, at, i) == t
    decreases i
  {
    if i == 0 {
      stream := n => 0;
      if s != [] {
        var j := SourceOf(s, t, 0);
        assert s == t;
      }
    } else {
      var j := SourceOf(s, t, i);
      SwapPermutes(s, i, j);
      var rest := EveryOrderIsDrawn(Swap(s, i, j), t, at + 1, i - 1);
      stream := DrawFirst(s, j, rest, at, i);
    }
  }

  lemma DrawFirst<T>(s: seq<T>, j: nat, rest: Stream, at: nat, i: nat) returns (stream: Stream)
    requires 0 < i < |s| && j <= i
    ensures Shuffled(s, stream, at, i) == Shuffled(Swap(s, i, j), rest, at + 1, i - 1)
  {
    stream := n => if n == at then j else rest(n);
    assert stream(at) % (i + 1) == j;
    LaterDrawsDecide(Swap(s, i, j), stream, rest, at + 1, i - 1);
  }

  function Last(n: nat): nat {
    if n == 0 then 0 else n - 1
  }

  method Shuffle<T>(s: seq<T>, stream: Stream, at: nat) returns (r: seq<T>, next: nat)
    ensures r == Shuffled(s, stream, at, Last(|s|))
    ensures next == at + Last(|s|)
  {
    r, next := s, at;
    var i: nat := Last(|s|);
    while i > 0
      invariant i == 0 || i < |r|
      invariant next == at + Last(|s|) - i
      invariant Shuffled(s, stream, at, Last(|s|)) == Shuffled(r, stream, next, i)
    {
      r := Swap(r, i, stream(next) % (i + 1));
      next := next + 1;
      i := i - 1;
    }
  }

  // ----- The cells, in the order of the nested loops -----

  function ProfileCells(block: nat, scenario: string, profiles: seq<string>): seq<Cell> {
    if profiles == [] then []
    else ProfileCells(block, scenario, profiles[..|profiles| - 1]) + [Cell(block, scenario, profiles[|profiles| - 1])]
  }

  function ScenarioCells(block: nat, scenarios: seq<string>, profiles: seq<string>): seq<Cell> {
    if scenarios == [] then []
    else
      var last := |scenarios| - 1;
      ScenarioCells(block, scenarios[..last], profiles) + ProfileCells(block, scenarios[last], profiles)
  }

  function BlockCells(blocks: nat, scenarios: seq<string>, profiles: seq<string>): seq<Cell> {
    if blocks == 0 then [] else BlockCells(blocks - 1, scenarios, profiles) + ScenarioCells(blocks, scenarios, profiles)
  }

  lemma {:induction false} ProfileCellsList(block: nat, scenario: string, profiles: seq<string>)
    requires Distinct(profiles)
    ensures Distinct(ProfileCells(block, scenario, profiles))
    ensures forall c :: c in ProfileCells(block, scenario, profiles) <==>
      c.block == block && c.scenario == scenario && c.profile in profiles
  {
    if profiles != [] {
      var front, last := profiles[..|profiles| - 1], profiles[|profiles| - 1];
      ProfileCellsList(block, scenario, front);
      assert profiles == front + [last];
      assert last !in front;
    }
  }

  predicate InRange(c: Cell, low: nat, high: nat, scenarios: seq<string>, profiles: seq<string>) {
    low <= c.block <= high && c.scenario in scenarios && c.profile in profiles
  }

  lemma AppendDistinct<T>(a: seq<T>, b: seq<T>)
    requires Distinct(a) && Distinct(b) && forall x :: x in a ==> x !in b
    ensures Distinct(a + b)
  {
    forall i, j | 0 <= i < j < |a + b| ensures (a + b)[i] != (a + b)[j] {
      if i < |a| <= j {
        assert a[i] in a && b[j - |a|] in b;
      }
    }
  }

  lemma {:induction false} ScenarioCellsList(block: nat, scenarios: seq<string>, profiles: seq<string>)
    requires Distinct(scenarios) && Distinct(profiles)
    ensures Distinct(ScenarioCells(block, scenarios, profiles))
    ensures forall c :: c in ScenarioCells(block, scenarios, profiles) <==>
      InRange(c, block, block, scenarios, profiles)
  {
    if scenarios != [] {
      var front, last := scenarios[..|scenarios| - 1], scenarios[|scenarios| - 1];
      ScenarioCellsList(block, front, profiles);
      ProfileCellsList(block, last, profiles);
      assert scenarios == front + [last];
      assert last !in front;
      AppendDistinct(ScenarioCells(block, front, profiles), ProfileCells(block, last, profiles));
    }
  }

  lemma {:induction false} BlockCellsMembers(blocks: nat, scenarios: seq<string>, profiles: seq<string>)
    requires Distinct(scenarios) && Distinct(profiles)
    ensures forall c :: c in BlockCells(blocks, scenarios, profiles) <==> InRange(c, 1, blocks, scenarios, profiles)
  {
    if blocks > 0 {
      var before, last := BlockCells(blocks - 1, scenarios, profiles), ScenarioCells(blocks, scenarios, profiles);
      BlockCellsMembers(blocks - 1, scenarios, profiles);
      ScenarioCellsList(blocks, scenarios, profiles);
      MembersOfAppend(before, last, BlockCells(blocks, scenarios, profiles));
      forall c ensures InRange(c, 1, blocks, scenarios, profiles)
        <==> InRange(c, 1, blocks - 1, scenarios, profiles) || InRange(c, blocks, blocks, scenarios, profiles) {
      }
    }
  }

  lemma MembersOfAppend<T>(a: seq<T>, b: seq<T>, all: seq<T>)
    requires all == a + b
    ensures forall x :: x in all <==> x in a || x in b
  {
  }

  /** Every block, scenario and profile once. */
  lemma {:induction false} BlockCellsDistinct(blocks: nat, scenarios: seq<string>, profiles: seq<string>)
    requires Distinct(scenarios) && Distinct(profiles)
    ensures Distinct(BlockCells(blocks, scenarios, profiles))
  {
    if blocks > 0 {
      var before, last := BlockCells(blocks - 1, scenarios, profiles), ScenarioCells(blocks, scenarios, profiles);
      BlockCellsDistinct(blocks - 1, scenarios, profiles);
      BlockCellsMembers(blocks - 1, scenarios, profiles);
      ScenarioCellsList(blocks, scenarios, profiles);
      AppendDistinct(before, last);
    }
  }

  lemma {:induction false} ProfileCellsSize(block: nat, scenario: string, profiles: seq<string>)
    ensures |ProfileCells(block, scenario, profiles)| == |profiles|
  {
    if profiles != [] {
      ProfileCellsSize(block, scenario, profiles[..|profiles| - 1]);
    }
  }

  lemma OneMore(n: nat, a: nat)
    ensures (n + 1) * a == n * a + a
  {
  }

  lemma {:induction false} ScenarioCellsSize(block: nat, scenarios: seq<string>, profiles: seq<string>)
    ensures |ScenarioCells(block, scenarios, profiles)| == |scenarios| * |profiles|
  {
    if scenarios != [] {
      ScenarioCellsSize(block, scenarios[..|scenarios| - 1], profiles);
      ProfileCellsSize(block, scenarios[|scenarios| - 1], profiles);
      OneMore(|scenarios| - 1, |profiles|);
    }
  }

  lemma {:induction false} BlockCellsSize(blocks: nat, scenarios: seq<string>, profiles: seq<string>)
    ensures |BlockCells(blocks, scenarios, profiles)| == blocks * (|scenarios| * |profiles|)
  {
    if blocks > 0 {
      BlockCellsSize(blocks - 1, scenarios, profiles);
      ScenarioCellsSize(blocks, scenarios, profiles);
      OneMore(blocks - 1, |scenarios| * |profiles|);
    }
  }

  function AllCells(plan: Plan): seq<Cell> {
    BlockCells(plan.blocks, plan.scenarios, plan.profiles)
  }

  /** `a` stands before `b` in the list. */
  ghost predicate Precedes(s: seq<string>, a: string, b: string) {
    exists i, j :: 0 <= i < j < |s| && s[i] == a && s[j] == b
  }

  /** Blocks go first, then scenarios, then profiles, each in the order of the plan. */
  ghost predicate ComesBefore(c: Cell, d: Cell, scenarios: seq<string>, profiles: seq<string>) {
    || c.block < d.block
    || (c.block == d.block && Precedes(scenarios, c.scenario, d.scenario))
    || (c.block == d.block && c.scenario == d.scenario && Precedes(profiles, c.profile, d.profile))
  }

  ghost predicate InDesignOrder(cells: seq<Cell>, scenarios: seq<string>, profiles: seq<string>) {
    forall j, k :: 0 <= j < k < |cells| ==> ComesBefore(cells[j], cells[k], scenarios, profiles)
  }

  lemma AppendInOrder(a: seq<Cell>, b: seq<Cell>, scenarios: seq<string>, profiles: seq<string>)
    requires InDesignOrder(a, scenarios, profiles) && InDesignOrder(b, scenarios, profiles)
    requires forall c, d :: c in a && d in b ==> ComesBefore(c, d, scenarios, profiles)
    ensures InDesignOrder(a + b, scenarios, profiles)
  {
    forall j, k | 0 <= j < k < |a + b| ensures ComesBefore((a + b)[j], (a + b)[k], scenarios, profiles) {
      if j < |a| <= k {
        assert a[j] in a && b[k - |a|] in b;
      }
    }
  }

  /** The profiles of one scenario; `front` is how many of them were visited. */
  lemma {:induction false} ProfilesInOrder(block: nat, scenario: string, front: nat, scenarios: seq<string>,
                                           profiles: seq<string>)
    requires front <= |profiles|
    ensures
      var cells := ProfileCells(block, scenario, profiles[..front]);
      && InDesignOrder(cells, scenarios, profiles)
      && forall c :: c in cells ==>
        c.block == block && c.scenario == scenario && exists i :: 0 <= i < front && profiles[i] == c.profile
  {
    if front > 0 {
      ProfilesInOrder(block, scenario, front - 1, scenarios, profiles);
      assert profiles[..front][..front - 1] == profiles[..front - 1];
      var before := ProfileCells(block, scenario, profiles[..front - 1]);
      var last := Cell(block, scenario, profiles[front - 1]);
      forall c | c in before ensures ComesBefore(c, last, scenarios, profiles) {
        var i :| 0 <= i < front - 1 && profiles[i] == c.profile;
        assert Precedes(profiles, c.profile, last.profile);
      }
      AppendInOrder(before, [last], scenarios, profiles);
      assert ProfileCells(block, scenario, profiles[..front]) == before + [last];
    }
  }

  lemma {:induction false} ScenariosInOrder(block: nat, front: nat, scenarios: seq<string>, profiles: seq<string>)
    requires front <= |scenarios|
    ensures
      var cells := ScenarioCells(block, scenarios[..front], profiles);
      && InDesignOrder(cells, scenarios, profiles)
      && forall c :: c in cells ==> c.block == block && exists i :: 0 <= i < front && scenarios[i] == c.scenario
  {
    if front > 0 {
      ScenariosInOrder(block, front - 1, scenarios, profiles);
      assert scenarios[..front][..front - 1] == scenarios[..front - 1];
      var last := scenarios[front - 1];
      ProfilesInOrder(block, last, |profiles|, scenarios, profiles);
      assert profiles[..|profiles|] == profiles;
      var before, cells := ScenarioCells(block, scenarios[..front - 1], profiles), ProfileCells(block, last, profiles);
      forall c, d | c in before && d in cells ensures ComesBefore(c, d, scenarios, profiles) {
        var i :| 0 <= i < front - 1 && scenarios[i] == c.scenario;
        assert Precedes(scenarios, c.scenario, d.scenario);
      }
      AppendInOrder(before, cells, scenarios, profiles);
      assert ScenarioCells(block, scenarios[..front], profiles) == before + cells;
    }
  }

  /** The cells come in the order of the three nested loops. */
  lemma {:induction false} CellsInOrder(blocks: nat, scenarios: seq<string>, profiles: seq<string>)
    ensures InDesignOrder(BlockCells(blocks, scenarios, profiles), scenarios, profiles)
    ensures forall c :: c in BlockCells(blocks, scenarios, profiles) ==> c.block <= blocks
  {
    if blocks > 0 {
      CellsInOrder(blocks - 1, scenarios, profiles);
      ScenariosInOrder(blocks, |scenarios|, scenarios, profiles);
      assert scenarios[..|scenarios|] == scenarios;
      AppendInOrder(BlockCells(blocks - 1, scenarios, profiles), ScenarioCells(blocks, scenarios, profiles),
                    scenarios, profiles);
    }
  }

  // ----- Generation -----

  function Identity(plan: Plan, cell: Cell, strategy: string): string {
    Join([plan.datasetId, plan.configHash, Decimal(plan.seed), Decimal(cell.block), cell.scenario, cell.profile,
          strategy])
  }

  function MakeEntry(plan: Plan, cell: Cell, strategy: string, ordinal: nat): Entry {
    Entry(Uuid5(Identity(plan, cell, strategy)), ordinal, cell, strategy)
  }

  /** One cell's entries in the given strategy order, numbered from `first`. */
  function CellEntries(plan: Plan, cell: Cell, order: seq<string>, first: nat): (es: seq<Entry>)
    ensures |es| == |order|
    ensures forall k :: 0 <= k < |es| ==> es[k] == MakeEntry(plan, cell, order[k], first + k)
  {
    if order == [] then []
    else
      var n := |order| - 1;
      CellEntries(plan, cell, order[..n], first) + [MakeEntry(plan, cell, order[n], first + n)]
  }

  /** The draws that `cells` shuffles use up. */
  function Draws(cells: nat, strategies: nat): nat {
    if cells == 0 then 0 else Draws(cells - 1, strategies) + Last(strategies)
  }

  /** The order of the strategies in the cell at position `g`. */
  function OrderAt(plan: Plan, stream: Stream, g: nat): seq<string> {
    Shuffled(plan.strategies, stream, Draws(g, |plan.strategies|), Last(|plan.strategies|))
  }

  ghost predicate Draw(plan: Plan, stream: Stream, orders: seq<seq<string>>, cells: nat)
    requires cells <= |orders|
  {
    forall g :: 0 <= g < cells ==> OrderAt(plan, stream, g) == orders[g]
  }

  /** Draws for `orders`, one per cell: none of the orders of the cells is excluded, whatever the others are. */
  lemma {:induction false} EveryScheduleIsDrawn(plan: Plan, orders: seq<seq<string>>, cells: nat)
    returns (stream: Stream)
    requires cells <= |orders|
    requires forall g :: 0 <= g < |orders| ==> multiset(orders[g]) == multiset(plan.strategies)
    ensures forall g :: 0 <= g < cells ==> OrderAt(plan, stream, g) == orders[g]
    decreases cells
  {
    if cells == 0 {
      stream := n => 0;
    } else {
      var front := EveryScheduleIsDrawn(plan, orders, cells - 1);
      stream := DrawNext(plan, orders, cells - 1, front);
    }
  }

  lemma DrawNext(plan: Plan, orders: seq<seq<string>>, g: nat, front: Stream) returns (stream: Stream)
    requires g < |orders| && Draw(plan, front, orders, g) && multiset(orders[g]) == multiset(plan.strategies)
    ensures Draw(plan, stream, orders, g + 1)
  {
    var size := |plan.strategies|;
    var from := Draws(g, size);
    SameElements(orders[g], plan.strategies);
    var last := EveryOrderIsDrawn(plan.strategies, orders[g], from, Last(size));
    stream := n => if n < from then front(n) else last(n);
    LaterDrawsDecide(plan.strategies, stream, last, from, Last(size));
    forall h | 0 <= h < g ensures OrderAt(plan, stream, h) == orders[h] {
      DrawsAdvance(h, g, size);
      LaterDrawsDecide(plan.strategies, stream, front, Draws(h, size), Last(size));
    }
  }

  lemma {:induction false} DrawsAdvance(h: nat, g: nat, strategies: nat)
    requires h < g
    ensures Draws(h, strategies) + Last(strategies) <= Draws(g, strategies)
  {
    if h < g - 1 {
      DrawsAdvance(h, g - 1, strategies);
    }
  }

  function Generated(plan: Plan, cells: seq<Cell>, stream: Stream): seq<Entry> {
    if cells == [] then []
    else
      var g := |cells| - 1;
      var before := Generated(plan, cells[..g], stream);
      before + CellEntries(plan, cells[g], OrderAt(plan, stream, g), |before| + 1)
  }

  datatype ScheduleError =
    | DesignMismatch | HeaderDiffers | CountDiffers | OrdinalsNotContiguous
    | DuplicateCellId | DuplicateCell | PopulationDiffers

  method AppendCell(plan: Plan, cell: Cell, order: seq<string>, entries: seq<Entry>, ordinal: nat)
    returns (r: seq<Entry>, next: nat)
    requires ordinal == |entries| + 1
    ensures r == entries + CellEntries(plan, cell, order, ordinal)
    ensures next == ordinal + |order|
  {
    r, next := entries, ordinal;
    for k := 0 to |order|
      invariant next == ordinal + k
      invariant r == entries + CellEntries(plan, cell, order[..k], ordinal)
    {
      assert order[..k + 1][..k] == order[..k];
      r := r + [MakeEntry(plan, cell, order[k], next)];
      next := next + 1;
    }
    assert order[..|order|] == order;
  }

  lemma GeneratedSnoc(plan: Plan, cells: seq<Cell>, cell: Cell, stream: Stream)
    ensures Generated(plan, cells + [cell], stream)
      == Generated(plan, cells, stream)
         + CellEntries(plan, cell, OrderAt(plan, stream, |cells|), |Generated(plan, cells, stream)| + 1)
  {
    assert (cells + [cell])[..|cells|] == cells;
  }

  /** The loop variables: what was generated, the next ordinal, the next draw. */
  datatype Progress = Progress(entries: seq<Entry>, ordinal: nat, at: nat)

  ghost predicate Reached(p: Progress, plan: Plan, done: seq<Cell>, stream: Stream) {
    && p.entries == Generated(plan, done, stream)
    && p.ordinal == |p.entries| + 1
    && p.at == Draws(|done|, |plan.strategies|)
  }

  method GenerateCell(plan: Plan, stream: Stream, p: Progress, cell: Cell, ghost done: seq<Cell>) returns (q: Progress)
    requires Reached(p, plan, done, stream)
    ensures Reached(q, plan, done + [cell], stream)
  {
    var order, at := Shuffle(plan.strategies, stream, p.at);
    ShuffledPermutes(plan.strategies, stream, p.at, Last(|plan.strategies|));
    GeneratedSnoc(plan, done, cell, stream);
    var entries, ordinal := AppendCell(plan, cell, order, p.entries, p.ordinal);
    q := Progress(entries, ordinal, at);
  }

  method GenerateScenario(plan: Plan, stream: Stream, p: Progress, block: nat, scenario: string, ghost done: seq<Cell>)
    returns (q: Progress)
    requires Reached(p, plan, done, stream)
    ensures Reached(q, plan, done + ProfileCells(block, scenario, plan.profiles), stream)
  {
    q := p;
    ghost var reached := done;
    for j := 0 to |plan.profiles|
      invariant reached == done + ProfileCells(block, scenario, plan.profiles[..j])
      invariant Reached(q, plan, reached, stream)
    {
      assert plan.profiles[..j + 1][..j] == plan.profiles[..j];
      var cell := Cell(block, scenario, plan.profiles[j]);
      q := GenerateCell(plan, stream, q, cell, reached);
      reached := reached + [cell];
    }
    assert plan.profiles[..|plan.profiles|] == plan.profiles;
  }

  lemma ScenarioCellsSnoc(block: nat, scenarios: seq<string>, i: nat, profiles: seq<string>)
    requires i < |scenarios|
    ensures ScenarioCells(block, scenarios[..i + 1], profiles)
      == ScenarioCells(block, scenarios[..i], profiles) + ProfileCells(block, scenarios[i], profiles)
  {
    assert scenarios[..i + 1][..i] == scenarios[..i];
  }

  lemma AppendAssociates<T>(a: seq<T>, b: seq<T>, c: seq<T>)
    ensures (a + b) + c == a + (b + c)
  {
  }

  method GenerateBlock(plan: Plan, stream: Stream, p: Progress, block: nat, ghost done: seq<Cell>) returns (q: Progress)
    requires Reached(p, plan, done, stream)
    ensures Reached(q, plan, done + ScenarioCells(block, plan.scenarios, plan.profiles), stream)
  {
    q := p;
    ghost var reached := done;
    for i := 0 to |plan.scenarios|
      invariant reached == done + ScenarioCells(block, plan.scenarios[..i], plan.profiles)
      invariant Reached(q, plan, reached, stream)
    {
      ScenarioCellsSnoc(block, plan.scenarios, i, plan.profiles);
      q := GenerateScenario(plan, stream, q, block, plan.scenarios[i], reached);
      AppendAssociates(done, ScenarioCells(block, plan.scenarios[..i], plan.profiles),
                       ProfileCells(block, plan.scenarios[i], plan.profiles));
      reached := reached + ProfileCells(block, plan.scenarios[i], plan.profiles);
    }
    assert plan.scenarios[..|plan.scenarios|] == plan.scenarios;
  }

  /** The loops over blocks, scenarios and profiles; the final size check never fires. */
  method GenerateSchedule(plan: Plan, stream: Stream) returns (r: Result<seq<Entry>, ScheduleError>)
    ensures r == Ok(Generated(plan, AllCells(plan), stream))
  {
    var p := Progress([], 1, 0);
    for block := 1 to plan.blocks + 1
      invariant Reached(p, plan, BlockCells(block - 1, plan.scenarios, plan.profiles), stream)
    {
      p := GenerateBlock(plan, stream, p, block, BlockCells(block - 1, plan.scenarios, plan.profiles));
    }
    GeneratedSize(plan, AllCells(plan), stream);
    DesignSize(plan);
    if |p.entries| != plan.ExpectedRuns() {
      return Err(DesignMismatch);
    }
    return Ok(p.entries);
  }

  lemma {:induction false} GeneratedSize(plan: Plan, cells: seq<Cell>, stream: Stream)
    ensures |Generated(plan, cells, stream)| == |cells| * |plan.strategies|
  {
    if cells != [] {
      var g := |cells| - 1;
      GeneratedSize(plan, cells[..g], stream);
      ShuffledPermutes(plan.strategies, stream, Draws(g, |plan.strategies|), Last(|plan.strategies|));
      OneMore(g, |plan.strategies|);
    }
  }

  lemma DesignSize(plan: Plan)
    ensures |AllCells(plan)| * |plan.strategies| == plan.ExpectedRuns()
  {
    BlockCellsSize(plan.blocks, plan.scenarios, plan.profiles);
    assert plan.blocks * (|plan.scenarios| * |plan.profiles|) == plan.blocks * |plan.scenarios| * |plan.profiles|;
  }

  // ----- What every generated schedule is, whatever was drawn -----

  /** The position of the strategy's entry for the cell. */
  ghost predicate IsAt(es: seq<Entry>, cell: Cell, strategy: string, k: nat) {
    k < |es| && es[k].cell == cell && es[k].strategy == strategy
  }

  ghost predicate OccursOnce(es: seq<Entry>, cell: Cell, strategy: string) {
    && (exists k :: IsAt(es, cell, strategy, k))
    && (forall j, k :: IsAt(es, cell, strategy, j) && IsAt(es, cell, strategy, k) ==> j == k)
  }

  ghost predicate Numbered(es: seq<Entry>, plan: Plan) {
    forall k :: 0 <= k < |es| ==> es[k] == MakeEntry(plan, es[k].cell, es[k].strategy, k + 1)
  }

  lemma {:induction false} GeneratedNumbered(plan: Plan, cells: seq<Cell>, stream: Stream)
    ensures Numbered(Generated(plan, cells, stream), plan)
  {
    if cells != [] {
      GeneratedNumbered(plan, cells[..|cells| - 1], stream);
    }
  }

  lemma OrderMembers(plan: Plan, stream: Stream, g: nat)
    requires Distinct(plan.strategies)
    ensures Distinct(OrderAt(plan, stream, g)) && |OrderAt(plan, stream, g)| == |plan.strategies|
    ensures forall s :: s in OrderAt(plan, stream, g) <==> s in plan.strategies
  {
    ShuffledPermutes(plan.strategies, stream, Draws(g, |plan.strategies|), Last(|plan.strategies|));
    DistinctPermutes(plan.strategies, OrderAt(plan, stream, g));
    SameElements(plan.strategies, OrderAt(plan, stream, g));
  }

  ghost predicate Covers(es: seq<Entry>, cells: seq<Cell>, strategies: seq<string>) {
    forall k :: 0 <= k < |es| ==> es[k].cell in cells && es[k].strategy in strategies
  }

  lemma AppendCovers(before: seq<Entry>, after: seq<Entry>, cells: seq<Cell>, cell: Cell, strategies: seq<string>)
    requires Covers(before, cells, strategies)
    requires forall k :: 0 <= k < |after| ==> after[k].cell == cell && after[k].strategy in strategies
    ensures Covers(before + after, cells + [cell], strategies)
  {
  }

  lemma {:induction false} GeneratedCells(plan: Plan, cells: seq<Cell>, stream: Stream)
    requires Distinct(plan.strategies)
    ensures Covers(Generated(plan, cells, stream), cells, plan.strategies)
  {
    if cells != [] {
      var g := |cells| - 1;
      GeneratedCells(plan, cells[..g], stream);
      OrderMembers(plan, stream, g);
      var order, before := OrderAt(plan, stream, g), Generated(plan, cells[..g], stream);
      var after := CellEntries(plan, cells[g], order, |before| + 1);
      forall k | 0 <= k < |after| ensures after[k].strategy in plan.strategies {
        assert order[k] in order;
      }
      AppendCovers(before, after, cells[..g], cells[g], plan.strategies);
      assert cells == cells[..g] + [cells[g]];
    }
  }

  /** In the cell generated last every strategy occurs once; in earlier cells nothing changes. */
  lemma LastCellOccurs(plan: Plan, cells: seq<Cell>, stream: Stream, strategy: string)
    requires cells != [] && Distinct(cells) && Distinct(plan.strategies) && strategy in plan.strategies
    ensures OccursOnce(Generated(plan, cells, stream), cells[|cells| - 1], strategy)
  {
    var g := |cells| - 1;
    var order := OrderAt(plan, stream, g);
    var before, es := Generated(plan, cells[..g], stream), Generated(plan, cells, stream);
    OrderMembers(plan, stream, g);
    GeneratedCells(plan, cells[..g], stream);
    var i :| 0 <= i < |order| && order[i] == strategy;
    assert IsAt(es, cells[g], strategy, |before| + i);
    assert cells[g] !in cells[..g];
    forall k: nat | |before| <= k < |es| ensures es[k] == MakeEntry(plan, cells[g], order[k - |before|], k + 1) {
    }
  }

  lemma EarlierCellOccurs(plan: Plan, cells: seq<Cell>, stream: Stream, cell: Cell, strategy: string)
    requires cells != [] && cell != cells[|cells| - 1]
    requires OccursOnce(Generated(plan, cells[..|cells| - 1], stream), cell, strategy)
    ensures OccursOnce(Generated(plan, cells, stream), cell, strategy)
  {
    var g := |cells| - 1;
    var before, es := Generated(plan, cells[..g], stream), Generated(plan, cells, stream);
    forall k: nat ensures IsAt(es, cell, strategy, k) <==> IsAt(before, cell, strategy, k) {
      if |before| <= k < |es| {
        assert es[k].cell == cells[g];
      }
    }
    var k: nat :| IsAt(before, cell, strategy, k);
    assert IsAt(es, cell, strategy, k);
  }

  lemma {:induction false} EachOccursOnce(plan: Plan, cells: seq<Cell>, stream: Stream, cell: Cell, strategy: string)
    requires Distinct(cells) && Distinct(plan.strategies) && cell in cells && strategy in plan.strategies
    ensures OccursOnce(Generated(plan, cells, stream), cell, strategy)
  {
    var g := |cells| - 1;
    if cell == cells[g] {
      LastCellOccurs(plan, cells, stream, strategy);
    } else {
      assert cell in cells[..g];
      EachOccursOnce(plan, cells[..g], stream, cell, strategy);
      EarlierCellOccurs(plan, cells, stream, cell, strategy);
    }
  }

  predicate InDesign(plan: Plan, cell: Cell, strategy: string) {
    && 1 <= cell.block <= plan.blocks && cell.scenario in plan.scenarios
    && cell.profile in plan.profiles && strategy in plan.strategies
  }

  /**
    * Ordinals 1..n and the design's (block, scenario, profile, strategy) tuples correspond one to
    * one, for every stream of draws.
    */
  lemma ScheduleIsBijection(plan: Plan, stream: Stream)
    requires plan.Valid()
    ensures
      var es := Generated(plan, AllCells(plan), stream);
      && |es| == plan.ExpectedRuns()
      && (forall k :: 0 <= k < |es| ==> es[k].ordinal == k + 1 && InDesign(plan, es[k].cell, es[k].strategy))
      && (forall cell, strategy :: InDesign(plan, cell, strategy) ==> OccursOnce(es, cell, strategy))
  {
    var cells := AllCells(plan);
    var es := Generated(plan, cells, stream);
    BlockCellsMembers(plan.blocks, plan.scenarios, plan.profiles);
    BlockCellsDistinct(plan.blocks, plan.scenarios, plan.profiles);
    GeneratedSize(plan, cells, stream);
    DesignSize(plan);
    GeneratedNumbered(plan, cells, stream);
    GeneratedCells(plan, cells, stream);
    forall cell, strategy | InDesign(plan, cell, strategy) ensures OccursOnce(es, cell, strategy) {
      EachOccursOnce(plan, cells, stream, cell, strategy);
    }
  }

  lemma {:induction false} PrefixGenerated(plan: Plan, stream: Stream, cells: seq<Cell>, g: nat)
    requires g <= |cells|
    ensures Generated(plan, cells[..g], stream) <= Generated(plan, cells, stream)
    decreases |cells|
  {
    if g == |cells| {
      assert cells[..g] == cells;
    } else {
      var n := |cells| - 1;
      PrefixGenerated(plan, stream, cells[..n], g);
      assert cells[..n][..g] == cells[..g];
    }
  }

  /** The entries of the cell at position `g`. */
  function GroupOf(plan: Plan, stream: Stream, cells: seq<Cell>, g: nat): seq<Entry>
    requires g < |cells|
  {
    CellEntries(plan, cells[g], OrderAt(plan, stream, g), |Generated(plan, cells[..g], stream)| + 1)
  }

  lemma OneMoreCell(plan: Plan, stream: Stream, cells: seq<Cell>, g: nat)
    requires g < |cells|
    ensures Generated(plan, cells[..g + 1], stream) ==
      Generated(plan, cells[..g], stream) + GroupOf(plan, stream, cells, g)
  {
    var prefix, cell := cells[..g], cells[g];
    assert Generated(plan, prefix + [cell], stream) ==
      Generated(plan, prefix, stream) + GroupOf(plan, stream, cells, g) by {
      GeneratedSnoc(plan, prefix, cell, stream);
    }
    assert cells[..g + 1] == prefix + [cell];
  }

  /** Each cell's consecutive entries are all its strategies, in a permuted order. */
  lemma CellGroup(plan: Plan, stream: Stream, cells: seq<Cell>, g: nat)
    requires g < |cells|
    ensures multiset(OrderAt(plan, stream, g)) == multiset(plan.strategies)
    ensures Generated(plan, cells[..g], stream) + GroupOf(plan, stream, cells, g) <= Generated(plan, cells, stream)
  {
    ShuffledPermutes(plan.strategies, stream, Draws(g, |plan.strategies|), Last(|plan.strategies|));
    PrefixGenerated(plan, stream, cells, g + 1);
    OneMoreCell(plan, stream, cells, g);
  }

  // ----- Cell identities -----

  /** The hashed name determines everything it is made of, across plans too. */
  lemma IdentityInjective(plan: Plan, a: Cell, s: string, other: Plan, b: Cell, t: string)
    requires plan.Valid() && InDesign(plan, a, s) && other.Valid() && InDesign(other, b, t)
    requires Identity(plan, a, s) == Identity(other, b, t)
    ensures plan.datasetId == other.datasetId && plan.configHash == other.configHash && plan.seed == other.seed
    ensures a == b && s == t
  {
    var x := [plan.datasetId, plan.configHash, Decimal(plan.seed), Decimal(a.block), a.scenario, a.profile, s];
    var y := [other.datasetId, other.configHash, Decimal(other.seed), Decimal(b.block), b.scenario, b.profile, t];
    DecimalIsPlain(plan.seed);
    DecimalIsPlain(other.seed);
    DecimalIsPlain(a.block);
    DecimalIsPlain(b.block);
    JoinInjective(x, y);
    assert x[0] == y[0] && x[1] == y[1] && x[2] == y[2];
    assert x[3] == y[3] && x[4] == y[4] && x[5] == y[5] && x[6] == y[6];
    DecimalInjective(plan.seed, other.seed);
    DecimalInjective(a.block, b.block);
  }

  /** The seven fields in order, with bars between them. */
  lemma IdentityText(plan: Plan, cell: Cell, strategy: string)
    ensures Identity(plan, cell, strategy) ==
      plan.datasetId + ("|" + (plan.configHash + ("|" + (Decimal(plan.seed) + ("|" + (Decimal(cell.block) + ("|" +
      (cell.scenario + ("|" + (cell.profile + ("|" + strategy)))))))))))
  {
    var d := [cell.scenario, cell.profile, strategy];
    var c := [Decimal(cell.block)] + d;
    var b := [Decimal(plan.seed)] + c;
    var a := [plan.configHash] + b;
    assert Join([strategy]) == strategy + "" == strategy;
    assert d[1..][1..] == [strategy];
    JoinCons(d[1..]);
    JoinCons(d);
    JoinCons(c);
    JoinCons(b);
    JoinCons(a);
    JoinCons([plan.datasetId] + a);
    assert [plan.datasetId] + a ==
      [plan.datasetId, plan.configHash, Decimal(plan.seed), Decimal(cell.block), cell.scenario, cell.profile, strategy];
  }

  lemma CellIdsAreDistinct(plan: Plan, stream: Stream, j: nat, k: nat)
    requires plan.Valid()
    requires j < k < |Generated(plan, AllCells(plan), stream)|
    ensures
      var es := Generated(plan, AllCells(plan), stream);
      && es[j].cellId != es[k].cellId
      && (es[j].cell, es[j].strategy) != (es[k].cell, es[k].strategy)
  {
    var es := Generated(plan, AllCells(plan), stream);
    ScheduleIsBijection(plan, stream);
    GeneratedNumbered(plan, AllCells(plan), stream);
    assert OccursOnce(es, es[j].cell, es[j].strategy);
    assert IsAt(es, es[j].cell, es[j].strategy, j);
    assert IsAt(es, es[j].cell, es[j].strategy, k) ==> j == k;
    if es[j].cellId == es[k].cellId {
      IdentityInjective(plan, es[j].cell, es[j].strategy, plan, es[k].cell, es[k].strategy);
    }
  }

  // ----- The loader's acceptance checks -----

  datatype Header = Header(stage: string, datasetId: string, seed: nat, configHash: string, expectedCells: nat)

  datatype Document = Document(header: Header, cells: seq<Entry>)

  function HeaderOf(plan: Plan, stage: string): Header {
    Header(stage, plan.datasetId, plan.seed, plan.configHash, plan.ExpectedRuns())
  }

  function ScheduleDocument(plan: Plan, stage: string, stream: Stream): Document {
    Document(HeaderOf(plan, stage), Generated(plan, AllCells(plan), stream))
  }

  /** Entries are numbered from 1 and carry the UUID of their identity. */
  ghost predicate AreIdentified(es: seq<Entry>, plan: Plan) {
    forall k :: 0 <= k < |es| ==>
      es[k].ordinal == k + 1 && es[k].cellId == Uuid5(Identity(plan, es[k].cell, es[k].strategy))
  }

  predicate OrdinalsRun(es: seq<Entry>) {
    forall k :: 0 <= k < |es| ==> es[k].ordinal == k + 1
  }

  function CellIds(es: seq<Entry>): (ids: seq<Uuid5>)
    ensures |ids| == |es| && forall k :: 0 <= k < |es| ==> ids[k] == es[k].cellId
  {
    if es == [] then [] else CellIds(es[..|es| - 1]) + [es[|es| - 1].cellId]
  }

  function CellTuples(es: seq<Entry>): (tuples: seq<(Cell, string)>)
    ensures |tuples| == |es| && forall k :: 0 <= k < |es| ==> tuples[k] == (es[k].cell, es[k].strategy)
  {
    if es == [] then [] else CellTuples(es[..|es| - 1]) + [(es[|es| - 1].cell, es[|es| - 1].strategy)]
  }

  /** No value occurs twice, as a comparison with the size of the set of values. */
  predicate NoDuplicates<T(==)>(s: seq<T>) {
    |s| == |SetOf(s)|
  }

  lemma GeneratedPassesChecks(plan: Plan, stream: Stream)
    requires plan.Valid()
    ensures
      var es := Generated(plan, AllCells(plan), stream);
      |es| == plan.ExpectedRuns() && OrdinalsRun(es) && NoDuplicates(CellIds(es)) && NoDuplicates(CellTuples(es))
  {
    var es := Generated(plan, AllCells(plan), stream);
    ScheduleIsBijection(plan, stream);
    forall j, k | 0 <= j < k < |es|
      ensures es[j].cellId != es[k].cellId && (es[j].cell, es[j].strategy) != (es[k].cell, es[k].strategy)
    {
      CellIdsAreDistinct(plan, stream, j, k);
    }
    DistinctBySize(CellIds(es));
    DistinctBySize(CellTuples(es));
  }

  /**
    * The loader accepts exactly the schedule the plan determines: its count, ordinal and duplicate
    * checks reject nothing that its final comparison would accept.
    */
  method CheckDocument(document: Document, plan: Plan, stage: string, stream: Stream)
    returns (r: Result<seq<Entry>, ScheduleError>)
    requires plan.Valid()
    ensures r.Ok? <==> document == ScheduleDocument(plan, stage, stream)
    ensures r.Ok? ==> r.value == document.cells
    ensures r.Ok? ==>
      && document.header.stage == stage && document.header.datasetId == plan.datasetId
      && document.header.seed == plan.seed && document.header.configHash == plan.configHash
      && document.header.expectedCells == |document.cells|
      && |document.cells| == plan.blocks * |plan.scenarios| * |plan.profiles| * |plan.strategies|
    ensures r.Ok? ==> AreIdentified(document.cells, plan)
  {
    GeneratedPassesChecks(plan, stream);
    GeneratedNumbered(plan, AllCells(plan), stream);
    if document.header != HeaderOf(plan, stage) {
      return Err(HeaderDiffers);
    }
    if document.header.expectedCells != |document.cells| || |document.cells| != plan.ExpectedRuns() {
      return Err(CountDiffers);
    }
    if !OrdinalsRun(document.cells) {
      return Err(OrdinalsNotContiguous);
    }
    if !NoDuplicates(CellIds(document.cells)) {
      return Err(DuplicateCellId);
    }
    if !NoDuplicates(CellTuples(document.cells)) {
      return Err(DuplicateCell);
    }
    var expected := GenerateSchedule(plan, stream);
    if expected != Ok(document.cells) {
      return Err(PopulationDiffers);
    }
    return Ok(document.cells);
  }
}
