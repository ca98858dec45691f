/** Pairing two strategies cell by cell, and averaging the differences within blocks. */
module Differences {
  import opened Common
  import opened Sorting
  import opened Strings
  import opened Sums
  import opened Pairing

  // ----- The order of cells -----

  /** Python's order of the triples (block, scenario, profile). */
  predicate KeyLe(a: Key, b: Key) {
    a.block < b.block
    || (a.block == b.block &&
        (if a.scenario == b.scenario then LexLe(a.profile, b.profile) else LexLe(a.scenario, b.scenario)))
  }

  function KeyOrder(): (Key, Key) -> bool {
    (a: Key, b: Key) => KeyLe(a, b)
  }

  lemma KeyTotal(a: Key, b: Key)
    ensures KeyLe(a, b) || KeyLe(b, a)
  {
    LexTotal(a.scenario, b.scenario);
    LexTotal(a.profile, b.profile);
  }

  lemma KeyTransitive(a: Key, b: Key, c: Key)
    requires KeyLe(a, b) && KeyLe(b, c)
    ensures KeyLe(a, c)
  {
    if a.block == b.block == c.block {
      if a.scenario == b.scenario == c.scenario {
        LexTransitive(a.profile, b.profile, c.profile);
      } else if a.scenario != b.scenario && b.scenario != c.scenario {
        LexTransitive(a.scenario, b.scenario, c.scenario);
        ScenariosApart(a.scenario, b.scenario, c.scenario);
      }
    }
  }

  lemma ScenariosApart(a: string, b: string, c: string)
    requires LexLe(a, b) && LexLe(b, c) && b != c
    ensures a != c
  {
    if LexLe(c, b) {
      LexAntisymmetric(b, c);
    }
  }

  lemma KeyOrderIsTotal()
    ensures TotalPreorder(KeyOrder())
  {
    forall a, b ensures KeyOrder()(a, b) || KeyOrder()(b, a) {
      KeyTotal(a, b);
    }
    forall a, b, c | KeyOrder()(a, b) && KeyOrder()(b, c) ensures KeyOrder()(a, c) {
      KeyTransitive(a, b, c);
    }
  }

  /** Distinct cells in ascending order. */
  ghost predicate InKeyOrder(keys: seq<Key>) {
    Distinct(keys) && Sorted(keys, KeyOrder())
  }

  // ----- Pairing -----

  predicate Relevant(r: Run, baseline: string, alternative: string) {
    r.strategy == baseline || r.strategy == alternative
  }

  ghost predicate NoDuplicateRuns(records: seq<Run>, baseline: string, alternative: string) {
    forall i, j ::
      0 <= i < j < |records|
      && Relevant(records[i], baseline, alternative) && Relevant(records[j], baseline, alternative)
      ==> (records[i].key, records[i].strategy) != (records[j].key, records[j].strategy)
  }

  ghost predicate Present(records: seq<Run>, key: Key, strategy: string) {
    exists r :: r in records && r.key == key && r.strategy == strategy
  }

  ghost predicate Matched(records: seq<Run>, r: Run, baseline: string, alternative: string) {
    r.metric.Some? && Present(records, r.key, baseline) && Present(records, r.key, alternative)
  }

  ghost predicate AllMatched(records: seq<Run>, baseline: string, alternative: string) {
    forall r :: r in records && Relevant(r, baseline, alternative) ==> Matched(records, r, baseline, alternative)
  }

  ghost predicate SomeRelevant(records: seq<Run>, baseline: string, alternative: string) {
    exists r :: r in records && Relevant(r, baseline, alternative)
  }

  /** When pairing must succeed: no cell has two runs of a side, every cell has both, all measured. */
  ghost predicate Pairable(records: seq<Run>, baseline: string, alternative: string) {
    && NoDuplicateRuns(records, baseline, alternative)
    && SomeRelevant(records, baseline, alternative)
    && AllMatched(records, baseline, alternative)
  }

  function PairFor(baseline: Run, alternative: Run): Pair
    requires baseline.metric.Some? && alternative.metric.Some?
  {
    Pair(baseline.key, baseline.runId, alternative.runId, baseline.metric.value, alternative.metric.value,
         alternative.metric.value - baseline.metric.value)
  }

  ghost predicate IsPairOf(p: Pair, records: seq<Run>, b: Run, a: Run, baseline: string, alternative: string) {
    && b in records && a in records && b.key == a.key
    && b.strategy == baseline && a.strategy == alternative
    && p.key == b.key && p.baselineRun == b.runId && p.alternativeRun == a.runId
    && b.metric == Some(p.baseline) && a.metric == Some(p.alternative) && p.baseline + p.difference == p.alternative
  }

  ghost predicate PairsRuns(p: Pair, records: seq<Run>, baseline: string, alternative: string) {
    exists b, a :: IsPairOf(p, records, b, a, baseline, alternative)
  }

  /** First by block, then by scenario, then by profile. */
  ghost predicate Precedes(a: Key, b: Key) {
    && a != b && a.block <= b.block
    && (a.block == b.block ==> LexLe(a.scenario, b.scenario))
    && (a.block == b.block && a.scenario == b.scenario ==> LexLe(a.profile, b.profile))
  }

  /** One pair per cell that has either side, in cell order, each of that cell's own two runs. */
  ghost predicate IsPairing(pairs: seq<Pair>, records: seq<Run>, baseline: string, alternative: string) {
    && (forall i, j :: 0 <= i < j < |pairs| ==> Precedes(pairs[i].key, pairs[j].key))
    && (forall p :: p in pairs ==> PairsRuns(p, records, baseline, alternative))
    && (forall r :: r in records && Relevant(r, baseline, alternative) ==> exists p :: p in pairs && p.key == r.key)
  }

  type CellRuns = map<(Key, string), Run>

  /** The dictionary of cells, keyed by cell and strategy. */
  ghost predicate Indexes(cells: CellRuns, records: seq<Run>, baseline: string, alternative: string) {
    && (forall k, s :: (k, s) in cells ==> cells[(k, s)] in records && Relevant(cells[(k, s)], baseline, alternative)
                                           && cells[(k, s)].key == k && cells[(k, s)].strategy == s)
    && (forall r :: r in records && Relevant(r, baseline, alternative) ==> (r.key, r.strategy) in cells)
  }

  method IndexCells(records: seq<Run>, baseline: string, alternative: string) returns (r: Result<CellRuns, InputError>)
    ensures r.Ok? <==> NoDuplicateRuns(records, baseline, alternative)
    ensures r.Ok? ==> Indexes(r.value, records, baseline, alternative)
  {
    var cells: CellRuns := map[];
    for i := 0 to |records|
      invariant Indexes(cells, records[..i], baseline, alternative)
      invariant NoDuplicateRuns(records[..i], baseline, alternative)
    {
      var record := records[i];
      assert records[..i + 1] == records[..i] + [record];
      if !Relevant(record, baseline, alternative) {
        continue;
      }
      var id := (record.key, record.strategy);
      if id in cells {
        var k :| 0 <= k < i && records[k] == cells[id];
        return Err(DuplicateRun);
      }
      cells := cells[id := record];
    }
    assert records[..|records|] == records;
    return Ok(cells);
  }

  function CellKeys(cells: CellRuns): set<Key> {
    set id | id in cells :: id.0
  }

  lemma SameRun(records: seq<Run>, x: Run, y: Run, baseline: string, alternative: string)
    requires NoDuplicateRuns(records, baseline, alternative)
    requires x in records && y in records && x.key == y.key && x.strategy == y.strategy &&
      Relevant(x, baseline, alternative)
    ensures x == y
  {
    var i :| 0 <= i < |records| && records[i] == x;
    var j :| 0 <= j < |records| && records[j] == y;
    assert i == j;
  }

  predicate CellOk(cells: CellRuns, key: Key, baseline: string, alternative: string) {
    && (key, baseline) in cells && (key, alternative) in cells
    && cells[(key, baseline)].metric.Some? && cells[(key, alternative)].metric.Some?
  }

  lemma CellOkMatches(cells: CellRuns, records: seq<Run>, r: Run, baseline: string, alternative: string)
    requires Indexes(cells, records, baseline, alternative) && NoDuplicateRuns(records, baseline, alternative)
    requires r in records && Relevant(r, baseline, alternative)
    ensures r.key in CellKeys(cells)
    ensures CellOk(cells, r.key, baseline, alternative) ==> Matched(records, r, baseline, alternative)
  {
    assert (r.key, r.strategy) in cells;
    SameRun(records, r, cells[(r.key, r.strategy)], baseline, alternative);
    assert (r.key, r.strategy).0 in CellKeys(cells);
  }

  lemma MatchedCellOk(cells: CellRuns, records: seq<Run>, key: Key, baseline: string, alternative: string)
    requires Indexes(cells, records, baseline, alternative) && key in CellKeys(cells)
    requires AllMatched(records, baseline, alternative)
    ensures CellOk(cells, key, baseline, alternative)
  {
    var id :| id in cells && id.0 == key;
    assert (id.0, id.1) in cells;
    assert Matched(records, cells[id], baseline, alternative);
    assert (key, baseline) in cells && (key, alternative) in cells;
    assert Matched(records, cells[(key, baseline)], baseline, alternative);
    assert Matched(records, cells[(key, alternative)], baseline, alternative);
  }

  method PairCell(cells: CellRuns, records: seq<Run>, key: Key, baseline: string, alternative: string)
    returns (r: Result<Pair, InputError>)
    requires Indexes(cells, records, baseline, alternative)
    ensures r.Ok? <==> CellOk(cells, key, baseline, alternative)
    ensures r.Ok? ==> r.value.key == key && PairsRuns(r.value, records, baseline, alternative)
  {
    if (key, baseline) !in cells || (key, alternative) !in cells {
      return Err(UnmatchedCell);
    }
    var b, a := cells[(key, baseline)], cells[(key, alternative)];
    if b.metric.None? || a.metric.None? {
      return Err(NoMetric);
    }
    assert IsPairOf(PairFor(b, a), records, b, a, baseline, alternative);
    return Ok(PairFor(b, a));
  }

  ghost predicate AllOk(cells: CellRuns, baseline: string, alternative: string) {
    forall k :: k in CellKeys(cells) ==> CellOk(cells, k, baseline, alternative)
  }

  method PairCells(cells: CellRuns, records: seq<Run>, keys: seq<Key>, baseline: string, alternative: string)
    returns (r: Result<seq<Pair>, InputError>)
    requires Indexes(cells, records, baseline, alternative) && forall k :: k in keys <==> k in CellKeys(cells)
    ensures r.Ok? <==> AllOk(cells, baseline, alternative)
    ensures r.Ok? ==> |r.value| == |keys| && forall i :: 0 <= i < |keys| ==> r.value[i].key == keys[i]
    ensures r.Ok? ==> forall p :: p in r.value ==> PairsRuns(p, records, baseline, alternative)
  {
    var pairs: seq<Pair> := [];
    for i := 0 to |keys|
      invariant |pairs| == i && forall k :: 0 <= k < i ==> pairs[k].key == keys[k]
      invariant forall k :: 0 <= k < i ==> CellOk(cells, keys[k], baseline, alternative)
      invariant forall p :: p in pairs ==> PairsRuns(p, records, baseline, alternative)
    {
      var pair := PairCell(cells, records, keys[i], baseline, alternative);
      if pair.Err? {
        assert keys[i] in keys;
        return Err(pair.error);
      }
      pairs := pairs + [pair.value];
    }
    return Ok(pairs);
  }

  lemma AllOkIffMatched(cells: CellRuns, records: seq<Run>, baseline: string, alternative: string)
    requires Indexes(cells, records, baseline, alternative) && NoDuplicateRuns(records, baseline, alternative)
    ensures AllOk(cells, baseline, alternative) <==> AllMatched(records, baseline, alternative)
    ensures CellKeys(cells) != {} <==> SomeRelevant(records, baseline, alternative)
  {
    forall r | r in records && Relevant(r, baseline, alternative)
      ensures r.key in CellKeys(cells)
      ensures CellOk(cells, r.key, baseline, alternative) ==> Matched(records, r, baseline, alternative)
    {
      CellOkMatches(cells, records, r, baseline, alternative);
    }
    if AllMatched(records, baseline, alternative) {
      forall k | k in CellKeys(cells) ensures CellOk(cells, k, baseline, alternative) {
        MatchedCellOk(cells, records, k, baseline, alternative);
      }
    }
    if CellKeys(cells) != {} {
      var k :| k in CellKeys(cells);
      var id :| id in cells && id.0 == k;
      assert (id.0, id.1) in cells;
    }
  }

  lemma ListedPairing(pairs: seq<Pair>, keys: seq<Key>, cells: CellRuns, records: seq<Run>, baseline: string,
                      alternative: string)
    requires Indexes(cells, records, baseline, alternative) && NoDuplicateRuns(records, baseline, alternative)
    requires InKeyOrder(keys) && forall k :: k in keys <==> k in CellKeys(cells)
    requires |pairs| == |keys| && forall i :: 0 <= i < |keys| ==> pairs[i].key == keys[i]
    requires forall p :: p in pairs ==> PairsRuns(p, records, baseline, alternative)
    ensures IsPairing(pairs, records, baseline, alternative)
  {
    forall i, j | 0 <= i < j < |pairs| ensures Precedes(pairs[i].key, pairs[j].key) {
      LexTotal(pairs[i].key.scenario, pairs[j].key.scenario);
      assert KeyOrder()(keys[i], keys[j]);
    }
    forall r | r in records && Relevant(r, baseline, alternative) ensures exists p :: p in pairs && p.key == r.key {
      CellOkMatches(cells, records, r, baseline, alternative);
      var i :| 0 <= i < |keys| && keys[i] == r.key;
      assert pairs[i] in pairs;
    }
  }

  method AlignPairedDifferences(records: seq<Run>, baseline: string, alternative: string)
    returns (r: Result<seq<Pair>, InputError>)
    ensures r.Ok? <==> Pairable(records, baseline, alternative)
    ensures r.Ok? ==> r.value != [] && IsPairing(r.value, records, baseline, alternative)
  {
    var cells := IndexCells(records, baseline, alternative);
    if cells.Err? {
      return Err(cells.error);
    }
    KeyOrderIsTotal();
    var keys := SortedList(CellKeys(cells.value), KeyOrder());
    AllOkIffMatched(cells.value, records, baseline, alternative);
    r := PairCells(cells.value, records, keys, baseline, alternative);
    if r.Err? {
      return r;
    }
    ListedPairing(r.value, keys, cells.value, records, baseline, alternative);
    if r.value == [] {
      assert keys == [];
      assert CellKeys(cells.value) == {};
      return Err(NoPairs);
    }
    assert keys[0] in CellKeys(cells.value);
  }
}
