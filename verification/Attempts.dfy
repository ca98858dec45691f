/** Registered attempt chains: the inventory validators and the next allocation. */
module Attempts {
  import opened Common
  import opened Sorting

  type AttemptId = nat
  type CellId = nat

  /** Everything but the attempt itself: the registered scope and the cell. */
  datatype ScopeKey = ScopeKey(dataset: string, stage: string, schedule: string,
                               config: string, commit: string, cell: CellId)

  datatype Record = Record(key: ScopeKey, attemptId: AttemptId, number: nat,
                           supersedes: Option<AttemptId>, status: Status)

  type Reservations = r: map<AttemptId, Record> | forall id :: id in r ==> r[id].attemptId == id && r[id].number >= 1

  datatype InventoryError =
    | CannotInspect | TooManyEntries | NotADirectory | InvalidBundle | MalformedManifest | NameMismatch
    | FirstHasPredecessor | NoPredecessor | MissingPredecessor | CrossScopePredecessor | WrongPredecessorNumber
    | DuplicateNumber | NotContiguous | AttemptAfterComplete
    | UnknownCell | IdentityMismatch | OverBudget | PredecessorNotPrevious

  // ----- What the validators are for: every group is one chain -----

  function Previous(c: seq<Record>, i: nat): Option<AttemptId>
    requires i < |c|
  {
    if i == 0 then None else Some(c[i - 1].attemptId)
  }

  predicate IsChain(c: seq<Record>) {
    IsCounted(c) && IsLinked(c)
  }

  /** Numbers run 1..k and nothing follows a complete attempt; links are not looked at. */
  predicate IsCounted(c: seq<Record>) {
    forall i :: 0 <= i < |c| ==> c[i].number == i + 1 && (i + 1 < |c| ==> c[i].status == Incomplete)
  }

  predicate LinkAt(c: seq<Record>, i: nat)
    requires i < |c|
  {
    c[i].supersedes == Previous(c, i)
  }

  predicate IsLinked(c: seq<Record>) {
    forall i :: 0 <= i < |c| ==> LinkAt(c, i)
  }

  ghost predicate InGroup(rs: Reservations, g: ScopeKey, r: Record) {
    r.attemptId in rs && rs[r.attemptId] == r && r.key == g
  }

  /** `list` names each member of group `g` once. */
  ghost predicate Lists(list: seq<Record>, rs: Reservations, g: ScopeKey) {
    && Distinct(list)
    && (forall r :: r in list <==> InGroup(rs, g, r))
  }

  ghost predicate ChainOf(c: seq<Record>, rs: Reservations, g: ScopeKey) {
    Lists(c, rs, g) && IsChain(c)
  }

  ghost predicate GroupIsChain(rs: Reservations, g: ScopeKey) {
    exists c :: ChainOf(c, rs, g)
  }

  ghost predicate AllGroupsAreChains(rs: Reservations) {
    forall g :: GroupIsChain(rs, g)
  }

  // ----- The three global passes -----

  ghost predicate PredecessorInScope(rs: Reservations, r: Record) {
    r.number == 1 || r.supersedes.None?
    || (r.supersedes.value in rs && rs[r.supersedes.value].key == r.key)
  }

  ghost predicate PredecessorIsPrevious(rs: Reservations, r: Record) {
    if r.number == 1 then r.supersedes.None?
    else
      && r.supersedes.Some?
      && r.supersedes.value in rs
      && rs[r.supersedes.value].key == r.key
      && rs[r.supersedes.value].number == r.number - 1
  }

  function ByNumber(): (Record, Record) -> bool {
    (a: Record, b: Record) => a.number <= b.number
  }

  function Ordered(list: seq<Record>): seq<Record> {
    Sort(list, ByNumber())
  }

  ghost predicate GroupIsCounted(rs: Reservations, g: ScopeKey) {
    forall list :: Lists(list, rs, g) ==> IsCounted(Ordered(list))
  }

  ghost predicate PassesAll(rs: Reservations) {
    && (forall id :: id in rs ==> PredecessorInScope(rs, rs[id]))
    && (forall g :: GroupIsCounted(rs, g))
    && (forall id :: id in rs ==> PredecessorIsPrevious(rs, rs[id]))
  }

  method ValidatePredecessorScope(rs: Reservations) returns (e: Option<InventoryError>)
    ensures e.None? <==> forall id :: id in rs ==> PredecessorInScope(rs, rs[id])
  {
    var pending := rs.Keys;
    while pending != {}
      invariant pending <= rs.Keys
      invariant forall id :: id in rs && id !in pending ==> PredecessorInScope(rs, rs[id])
    {
      var id :| id in pending;
      pending := pending - {id};
      var r := rs[id];
      if r.number == 1 || r.supersedes.None? {
        continue;
      }
      if r.supersedes.value !in rs {
        return Some(MissingPredecessor);
      }
      if rs[r.supersedes.value].key != r.key {
        return Some(CrossScopePredecessor);
      }
    }
    return None;
  }

  /** Numbers must be distinct and run 1..k; both validators start with this check. */
  method CheckNumbers(ordered: seq<Record>) returns (e: Option<InventoryError>)
    ensures e.None? <==> forall i :: 0 <= i < |ordered| ==> ordered[i].number == i + 1
  {
    var i := 1;
    while i < |ordered|
      invariant 1 <= i
    {
      if ordered[i - 1].number == ordered[i].number {
        assert !(ordered[i - 1].number == i && ordered[i].number == i + 1);
        return Some(DuplicateNumber);
      }
      i := i + 1;
    }
    for k := 0 to |ordered|
      invariant forall j :: 0 <= j < k ==> ordered[j].number == j + 1
    {
      if ordered[k].number != k + 1 {
        return Some(NotContiguous);
      }
    }
    return None;
  }

  method ValidateReservationGroup(records: seq<Record>) returns (e: Option<InventoryError>)
    ensures e.None? <==> IsCounted(Ordered(records))
  {
    var ordered := Ordered(records);
    var bad := CheckNumbers(ordered);
    if bad.Some? {
      return bad;
    }
    var completeSeen := false;
    for i := 0 to |ordered|
      invariant completeSeen <==> i > 0 && ordered[i - 1].status == Complete
      invariant forall k :: 0 <= k < i - 1 ==> ordered[k].status == Incomplete
    {
      if completeSeen {
        return Some(AttemptAfterComplete);
      }
      if ordered[i].status == Complete {
        completeSeen := true;
      }
    }
    return None;
  }

  method ValidateGlobalPredecessors(rs: Reservations) returns (e: Option<InventoryError>)
    ensures e.None? <==> forall id :: id in rs ==> PredecessorIsPrevious(rs, rs[id])
  {
    var pending := rs.Keys;
    while pending != {}
      invariant pending <= rs.Keys
      invariant forall id :: id in rs && id !in pending ==> PredecessorIsPrevious(rs, rs[id])
    {
      var id :| id in pending;
      pending := pending - {id};
      var r := rs[id];
      if r.number == 1 {
        if r.supersedes.Some? {
          return Some(FirstHasPredecessor);
        }
        continue;
      }
      if r.supersedes.None? {
        return Some(NoPredecessor);
      }
      if r.supersedes.value !in rs {
        return Some(MissingPredecessor);
      }
      var predecessor := rs[r.supersedes.value];
      if predecessor.key != r.key {
        return Some(CrossScopePredecessor);
      }
      if predecessor.number != r.number - 1 {
        return Some(WrongPredecessorNumber);
      }
    }
    return None;
  }

  // ----- The passes accept exactly the inventories made of chains -----

  ghost function GroupListing(rs: Reservations, g: ScopeKey): (list: seq<Record>)
    ensures Lists(list, rs, g)
  {
    var members := set id | id in rs && rs[id].key == g :: rs[id];
    assert forall r :: r in members <==> InGroup(rs, g, r);
    Listing(members)
  }

  lemma OrderedLists(list: seq<Record>, rs: Reservations, g: ScopeKey)
    requires Lists(list, rs, g)
    ensures Lists(Ordered(list), rs, g)
  {
    SortSorts(list, ByNumber());
    DistinctPermutes(list, Ordered(list));
    SameElements(list, Ordered(list));
  }

  lemma CountedAndLinkedIsChain(c: seq<Record>, rs: Reservations, g: ScopeKey)
    requires Lists(c, rs, g) && IsCounted(c)
    requires forall id :: id in rs ==> PredecessorIsPrevious(rs, rs[id])
    ensures IsChain(c)
  {
    forall i | 0 <= i < |c|
      ensures LinkAt(c, i)
    {
      assert c[i] in c && InGroup(rs, g, c[i]);
      assert PredecessorIsPrevious(rs, rs[c[i].attemptId]);
      if i > 0 {
        var p := rs[c[i].supersedes.value];
        assert InGroup(rs, g, p);
        var j :| 0 <= j < |c| && c[j] == p;
        assert j == i - 1;
      }
    }
  }

  lemma ListingsAgree(a: seq<Record>, b: seq<Record>, rs: Reservations, g: ScopeKey)
    requires Lists(a, rs, g) && Lists(b, rs, g)
    ensures multiset(a) == multiset(b)
  {
    forall r ensures r in a <==> r in b {
      assert r in a <==> InGroup(rs, g, r);
    }
    DistinctSameElements(a, b);
  }

  lemma CountedIsSorted(c: seq<Record>, s: seq<Record>)
    requires IsCounted(c) && multiset(c) == multiset(s) && Sorted(s, ByNumber())
    ensures s == c
  {
    SameElements(c, s);
    forall x, y | x in s && y in s && ByNumber()(x, y) && ByNumber()(y, x) ensures x == y {
      assert x in c && y in c;
    }
    SortedUnique(s, c, ByNumber());
  }

  /** A chain in any listing order is what the sort by number recovers. */
  lemma OrderedRecoversChain(c: seq<Record>, list: seq<Record>, rs: Reservations, g: ScopeKey)
    requires ChainOf(c, rs, g) && Lists(list, rs, g)
    ensures Ordered(list) == c
  {
    SortSorts(list, ByNumber());
    ListingsAgree(list, c, rs, g);
    CountedIsSorted(c, Ordered(list));
  }

  lemma PassesAllGivesChain(rs: Reservations, g: ScopeKey)
    requires PassesAll(rs)
    ensures ChainOf(Ordered(GroupListing(rs, g)), rs, g)
  {
    var list := GroupListing(rs, g);
    OrderedLists(list, rs, g);
    assert GroupIsCounted(rs, g);
    CountedAndLinkedIsChain(Ordered(list), rs, g);
  }

  lemma ChainMember(c: seq<Record>, rs: Reservations, id: AttemptId) returns (i: nat)
    requires id in rs && ChainOf(c, rs, rs[id].key)
    ensures i < |c| && c[i] == rs[id]
  {
    assert InGroup(rs, rs[id].key, rs[id]);
    i :| 0 <= i < |c| && c[i] == rs[id];
  }

  lemma ChainGivesLinks(c: seq<Record>, rs: Reservations, id: AttemptId)
    requires id in rs && ChainOf(c, rs, rs[id].key)
    ensures PredecessorInScope(rs, rs[id]) && PredecessorIsPrevious(rs, rs[id])
  {
    var i := ChainMember(c, rs, id);
    assert LinkAt(c, i);
    if i > 0 {
      assert c[i - 1] in c && InGroup(rs, rs[id].key, c[i - 1]);
    }
  }

  /**
   * Passing the three global passes is the same as every scope group being one chain: numbers
   * 1..k, each link to the attempt before it, only the last attempt possibly complete.
   */
  lemma PassesIffChains(rs: Reservations)
    ensures PassesAll(rs) <==> AllGroupsAreChains(rs)
  {
    if PassesAll(rs) {
      forall g ensures GroupIsChain(rs, g) {
        PassesAllGivesChain(rs, g);
      }
    }
    if AllGroupsAreChains(rs) {
      forall id | id in rs
        ensures PredecessorInScope(rs, rs[id]) && PredecessorIsPrevious(rs, rs[id])
      {
        assert GroupIsChain(rs, rs[id].key);
        var c :| ChainOf(c, rs, rs[id].key);
        ChainGivesLinks(c, rs, id);
      }
      forall g, list | Lists(list, rs, g) ensures IsCounted(Ordered(list)) {
        assert GroupIsChain(rs, g);
        var c :| ChainOf(c, rs, g);
        OrderedRecoversChain(c, list, rs, g);
      }
    }
  }

  /** Follow the supersedes links `steps` times. */
  ghost function Walk(rs: Reservations, id: AttemptId, steps: nat): Option<AttemptId>
    decreases steps
  {
    if id !in rs then None
    else if steps == 0 then Some(id)
    else if rs[id].supersedes.None? then None
    else Walk(rs, rs[id].supersedes.value, steps - 1)
  }

  lemma {:induction false} ChainWalk(c: seq<Record>, rs: Reservations, g: ScopeKey, i: nat)
    requires ChainOf(c, rs, g) && i < |c|
    ensures Walk(rs, c[i].attemptId, i) == Some(c[0].attemptId)
    decreases i
  {
    assert c[i] in c && InGroup(rs, g, c[i]) && LinkAt(c, i);
    if i > 0 {
      ChainWalk(c, rs, g, i - 1);
    }
  }

  /** In an accepted inventory every attempt reaches attempt 1 of its group in number-1 steps. */
  lemma EveryAttemptReachesTheFirst(rs: Reservations, id: AttemptId)
    requires PassesAll(rs) && id in rs
    ensures var first := Walk(rs, id, rs[id].number - 1);
      && first.Some? && first.value in rs
      && rs[first.value].key == rs[id].key && rs[first.value].number == 1
  {
    PassesAllGivesChain(rs, rs[id].key);
    var c := Ordered(GroupListing(rs, rs[id].key));
    var i := ChainMember(c, rs, id);
    ChainWalk(c, rs, rs[id].key, i);
    assert c[0] in c && InGroup(rs, rs[id].key, c[0]);
  }

  /** No forks: an attempt is superseded at most once, and only the last can be complete. */
  lemma NoForks(rs: Reservations, a: AttemptId, b: AttemptId)
    requires PassesAll(rs) && a in rs && b in rs
    requires rs[a].supersedes.Some? && rs[a].supersedes == rs[b].supersedes
    ensures a == b && rs[rs[a].supersedes.value].status == Incomplete
  {
    var g := rs[a].key;
    assert PredecessorIsPrevious(rs, rs[a]) && PredecessorIsPrevious(rs, rs[b]);
    PassesAllGivesChain(rs, g);
    var c := Ordered(GroupListing(rs, g));
    var i := ChainMember(c, rs, a);
    var j := ChainMember(c, rs, b);
    var k := ChainMember(c, rs, rs[a].supersedes.value);
    assert LinkAt(c, i) && LinkAt(c, j);
    assert i == j == k + 1;
  }

  // ----- The per-cell chain validator -----

  method CheckLinks(ordered: seq<Record>) returns (e: Option<InventoryError>)
    ensures e.None? <==> IsLinked(ordered) && forall i :: 0 <= i < |ordered| - 1 ==> ordered[i].status == Incomplete
  {
    var completeSeen := false;
    for i := 0 to |ordered|
      invariant completeSeen <==> i > 0 && ordered[i - 1].status == Complete
      invariant forall k :: 0 <= k < i - 1 ==> ordered[k].status == Incomplete
      invariant forall k :: 0 <= k < i ==> LinkAt(ordered, k)
    {
      if !LinkAt(ordered, i) {
        return Some(if i == 0 then FirstHasPredecessor else PredecessorNotPrevious);
      }
      if completeSeen {
        return Some(AttemptAfterComplete);
      }
      if ordered[i].status == Complete {
        completeSeen := true;
      }
    }
    return None;
  }

  method ValidateAttemptChain(records: seq<Record>, maxAttempts: nat)
    returns (r: Result<seq<Record>, InventoryError>)
    ensures r.Ok? <==> |records| <= maxAttempts && IsChain(Ordered(records))
    ensures r.Ok? ==> r.value == Ordered(records)
  {
    var ordered := Ordered(records);
    SortSorts(records, ByNumber());
    if |ordered| > maxAttempts {
      return Err(OverBudget);
    }
    var bad := CheckNumbers(ordered);
    if bad.Some? {
      return Err(bad.value);
    }
    bad := CheckLinks(ordered);
    return if bad.Some? then Err(bad.value) else Ok(ordered);
  }

  /** After the global passes, the per-cell validator can reject a group only for its budget. */
  lemma OnlyBudgetRemains(rs: Reservations, g: ScopeKey, list: seq<Record>)
    requires PassesAll(rs) && Lists(list, rs, g)
    ensures IsChain(Ordered(list))
  {
    PassesAllGivesChain(rs, g);
    OrderedRecoversChain(Ordered(GroupListing(rs, g)), list, rs, g);
  }
}
