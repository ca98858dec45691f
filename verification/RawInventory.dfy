/** Reading a raw evidence root, and allocating the next attempt of a registered cell. */
module RawInventory {
  import opened Common
  import opened Sorting
  import opened Attempts

  const MAX_DATASET_BUNDLES: nat := 20_000

  datatype CellIdentity = CellIdentity(ordinal: nat, block: nat, scenario: string, profile: string, strategy: string)

  /**
    * What validation of one bundle yields: only schema 1.2.0 manifests are registered attempts. Of the
    * others the inventory asks nothing; `registered` and `complete` are what the analysis asks of them.
    */
  datatype Manifest =
    | OtherSchema(dataset: string, registered: bool, complete: bool)
    | Malformed
    | Attempt(record: Record, seed: nat, identity: CellIdentity)

  /** One entry of the raw root; `bundle` is None when evidence validation fails. */
  datatype Entry = Entry(isDirectory: bool, bundle: Option<Manifest>)

  type RawRoot = map<nat, Entry>

  datatype Scope = Scope(dataset: string, stage: string, schedule: string, config: string, commit: string,
                         maxAttempts: nat, seed: nat, cells: map<CellId, CellIdentity>)

  function KeyOf(scope: Scope, cell: CellId): ScopeKey {
    ScopeKey(scope.dataset, scope.stage, scope.schedule, scope.config, scope.commit, cell)
  }

  predicate IsAttempt(e: Entry) {
    e.bundle.Some? && e.bundle.value.Attempt?
  }

  /** The entry's evidence is valid, and its manifest names the attempt as the directory does. */
  predicate EvidenceOk(name: nat, e: Entry) {
    && e.bundle.Some?
    && !e.bundle.value.Malformed?
    && (IsAttempt(e) ==> e.bundle.value.record.attemptId == name && e.bundle.value.record.number >= 1)
  }

  predicate EntryOk(name: nat, e: Entry) {
    e.isDirectory && EvidenceOk(name, e)
  }

  ghost predicate RootOk(raw: RawRoot) {
    forall name :: name in raw ==> EntryOk(name, raw[name])
  }

  ghost function ReservationsOf(raw: RawRoot): (rs: Reservations)
    requires RootOk(raw)
  {
    map name | name in raw && IsAttempt(raw[name]) :: raw[name].bundle.value.record
  }

  predicate IdentityMatches(scope: Scope, m: Manifest)
    requires m.Attempt?
  {
    && m.record.key.cell in scope.cells
    && m.record.key == KeyOf(scope, m.record.key.cell)
    && m.seed == scope.seed
    && m.identity == scope.cells[m.record.key.cell]
  }

  predicate InDataset(e: Entry, scope: Scope) {
    IsAttempt(e) && e.bundle.value.record.key.dataset == scope.dataset
  }

  ghost predicate IdentitiesMatch(raw: RawRoot, scope: Scope) {
    forall name :: name in raw && InDataset(raw[name], scope) ==> IdentityMatches(scope, raw[name].bundle.value)
  }

  /** An entry the inventory lets stand: an attempt of the dataset agrees with the scope in every field. */
  ghost predicate IsProper(name: nat, e: Entry, scope: Scope) {
    && e.isDirectory && e.bundle.Some?
    && match e.bundle.value
       case OtherSchema(_, _, _) => true
       case Malformed => false
       case Attempt(record, seed, identity) =>
         && record.attemptId == name && record.number >= 1
         && (record.key.dataset == scope.dataset ==>
               && record.key.stage == scope.stage && record.key.schedule == scope.schedule
               && record.key.config == scope.config && record.key.commit == scope.commit
               && seed == scope.seed
               && record.key.cell in scope.cells && identity == scope.cells[record.key.cell])
  }

  /** In an accepted root, exactly such entries. */
  lemma EntriesAreProper(raw: RawRoot, scope: Scope)
    ensures RootOk(raw) && IdentitiesMatch(raw, scope) <==>
      forall name :: name in raw ==> IsProper(name, raw[name], scope)
  {
    forall name | name in raw
      ensures IsProper(name, raw[name], scope) <==>
        && EntryOk(name, raw[name])
        && (InDataset(raw[name], scope) ==> IdentityMatches(scope, raw[name].bundle.value))
    {
      ProperIsOk(name, raw[name], scope);
    }
  }

  lemma ProperIsOk(name: nat, e: Entry, scope: Scope)
    ensures IsProper(name, e, scope) <==>
      EntryOk(name, e) && (InDataset(e, scope) ==> IdentityMatches(scope, e.bundle.value))
  {
  }

  ghost predicate WithinBudget(rs: Reservations, scope: Scope) {
    forall cell, c :: ChainOf(c, rs, KeyOf(scope, cell)) ==> |c| <= scope.maxAttempts
  }

  /** Everything the inventory requires except the cap on directory entries. */
  ghost predicate Sound(raw: RawRoot, scope: Scope) {
    && RootOk(raw)
    && PassesAll(ReservationsOf(raw))
    && IdentitiesMatch(raw, scope)
    && WithinBudget(ReservationsOf(raw), scope)
  }

  ghost predicate Accepts(raw: RawRoot, scope: Scope) {
    |raw| <= MAX_DATASET_BUNDLES && Sound(raw, scope)
  }

  datatype Inventory = Inventory(scope: Scope, byAttempt: Reservations, byCell: map<CellId, seq<Record>>)

  ghost predicate Describes(inv: Inventory, raw: RawRoot, scope: Scope)
    requires RootOk(raw)
  {
    && inv.scope == scope
    && inv.byAttempt == ReservationsOf(raw)
    && (forall cell :: ChainOf(ChainIn(inv, cell), inv.byAttempt, KeyOf(scope, cell)))
    && (forall cell :: cell in inv.byCell ==> inv.byCell[cell] != [])
  }

  function ChainIn(inv: Inventory, cell: CellId): seq<Record> {
    if cell in inv.byCell then inv.byCell[cell] else []
  }

  // ----- inventory_attempts, pass by pass -----

  method ReadReservations(raw: RawRoot) returns (r: Result<Reservations, InventoryError>)
    ensures r.Ok? <==> RootOk(raw)
    ensures r.Ok? ==> r.value == ReservationsOf(raw)
  {
    var pending := raw.Keys;
    var rs: map<AttemptId, Record> := map[];
    while pending != {}
      invariant pending <= raw.Keys
      invariant forall name :: name in raw && name !in pending ==> EntryOk(name, raw[name])
      invariant rs == map name |
        name in raw && name !in pending && IsAttempt(raw[name]) :: raw[name].bundle.value.record
    {
      var name :| name in pending;
      pending := pending - {name};
      var e := raw[name];
      if !e.isDirectory {
        return Err(NotADirectory);
      }
      if e.bundle.None? {
        return Err(InvalidBundle);
      }
      match e.bundle.value
      case OtherSchema(_, _, _) =>
      case Malformed =>
        return Err(MalformedManifest);
      case Attempt(record, _, _) =>
        if record.attemptId != name {
          return Err(NameMismatch);
        }
        if record.number < 1 {
          return Err(MalformedManifest);
        }
        rs := rs[name := record];
    }
    return Ok(rs);
  }

  /** `groups` holds the records with an id in `done`, by scope key. */
  ghost predicate Grouped(groups: map<ScopeKey, seq<Record>>, rs: Reservations, done: set<AttemptId>) {
    && (forall g :: g in groups ==> Distinct(groups[g]) && groups[g] != [])
    && (forall g, r :: g in groups ==> (r in groups[g] <==> InGroup(rs, g, r) && r.attemptId in done))
    && (forall id :: id in rs && id in done ==> rs[id].key in groups)
  }

  function Append(groups: map<ScopeKey, seq<Record>>, r: Record): map<ScopeKey, seq<Record>> {
    groups[r.key := (if r.key in groups then groups[r.key] else []) + [r]]
  }

  lemma AppendKeepsGrouped(groups: map<ScopeKey, seq<Record>>, rs: Reservations, done: set<AttemptId>, id: AttemptId)
    requires Grouped(groups, rs, done) && id in rs && id !in done
    ensures Grouped(Append(groups, rs[id]), rs, done + {id})
  {
    var r := rs[id];
    var before := if r.key in groups then groups[r.key] else [];
    assert r !in before;
    forall g, x | g in Append(groups, r)
      ensures x in Append(groups, r)[g] <==> InGroup(rs, g, x) && x.attemptId in done + {id}
    {
      if g == r.key {
        assert x in before + [r] <==> x in before || x == r;
      }
    }
  }

  method GroupByScope(rs: Reservations) returns (groups: map<ScopeKey, seq<Record>>)
    ensures Grouped(groups, rs, rs.Keys)
  {
    var pending := rs.Keys;
    groups := map[];
    while pending != {}
      invariant pending <= rs.Keys
      invariant Grouped(groups, rs, rs.Keys - pending)
    {
      var id :| id in pending;
      AppendKeepsGrouped(groups, rs, rs.Keys - pending, id);
      assert rs.Keys - pending + {id} == rs.Keys - (pending - {id});
      groups := Append(groups, rs[id]);
      pending := pending - {id};
    }
  }

  ghost function GroupOf(groups: map<ScopeKey, seq<Record>>, g: ScopeKey): seq<Record> {
    if g in groups then groups[g] else []
  }

  lemma GroupedLists(groups: map<ScopeKey, seq<Record>>, rs: Reservations, g: ScopeKey)
    requires Grouped(groups, rs, rs.Keys)
    ensures Lists(GroupOf(groups, g), rs, g)
  {
  }

  lemma OneListingDecides(a: seq<Record>, b: seq<Record>, rs: Reservations, g: ScopeKey)
    requires Lists(a, rs, g) && Lists(b, rs, g) && IsCounted(Ordered(a))
    ensures IsCounted(Ordered(b))
  {
    SortSorts(a, ByNumber());
    SortSorts(b, ByNumber());
    ListingsAgree(a, b, rs, g);
    CountedIsSorted(Ordered(a), Ordered(b));
  }

  method ValidateGroups(groups: map<ScopeKey, seq<Record>>, ghost rs: Reservations)
    returns (e: Option<InventoryError>)
    requires Grouped(groups, rs, rs.Keys)
    ensures e.None? <==> forall g :: GroupIsCounted(rs, g)
  {
    var pending := groups.Keys;
    while pending != {}
      invariant pending <= groups.Keys
      invariant forall g :: g in groups && g !in pending ==> IsCounted(Ordered(groups[g]))
    {
      var g :| g in pending;
      pending := pending - {g};
      e := ValidateReservationGroup(groups[g]);
      if e.Some? {
        assert Lists(groups[g], rs, g);
        assert !GroupIsCounted(rs, g);
        return;
      }
    }
    forall g, list | Lists(list, rs, g) ensures IsCounted(Ordered(list)) {
      GroupedLists(groups, rs, g);
      OneListingDecides(GroupOf(groups, g), list, rs, g);
    }
    return None;
  }

  method GlobalPasses(rs: Reservations) returns (e: Option<InventoryError>)
    ensures e.None? <==> PassesAll(rs)
  {
    e := ValidatePredecessorScope(rs);
    if e.Some? {
      return;
    }
    var groups := GroupByScope(rs);
    e := ValidateGroups(groups, rs);
    if e.Some? {
      return;
    }
    e := ValidateGlobalPredecessors(rs);
  }

  method CheckIdentities(raw: RawRoot, scope: Scope) returns (e: Option<InventoryError>)
    requires RootOk(raw)
    ensures e.None? <==> IdentitiesMatch(raw, scope)
  {
    var pending := raw.Keys;
    while pending != {}
      invariant pending <= raw.Keys
      invariant forall name :: name in raw && name !in pending && InDataset(raw[name], scope) ==>
        IdentityMatches(scope, raw[name].bundle.value)
    {
      var name :| name in pending;
      pending := pending - {name};
      if InDataset(raw[name], scope) {
        var m := raw[name].bundle.value;
        if m.record.key.cell !in scope.cells {
          return Some(UnknownCell);
        }
        if !IdentityMatches(scope, m) {
          return Some(IdentityMismatch);
        }
      }
    }
    return None;
  }

  lemma ListsIsChain(list: seq<Record>, rs: Reservations, g: ScopeKey)
    requires PassesAll(rs) && Lists(list, rs, g)
    ensures ChainOf(Ordered(list), rs, g)
  {
    OrderedLists(list, rs, g);
    OnlyBudgetRemains(rs, g, list);
  }

  lemma ChainsAgree(a: seq<Record>, b: seq<Record>, rs: Reservations, g: ScopeKey)
    requires ChainOf(a, rs, g) && ChainOf(b, rs, g)
    ensures a == b
  {
    OrderedRecoversChain(a, b, rs, g);
    OrderedRecoversChain(b, b, rs, g);
  }

  ghost predicate CellWithinBudget(rs: Reservations, scope: Scope, cell: CellId) {
    forall c :: ChainOf(c, rs, KeyOf(scope, cell)) ==> |c| <= scope.maxAttempts
  }

  /** The chains of the cells in `todo`; other cells of the scope have no record. */
  method ValidateCells(groups: map<ScopeKey, seq<Record>>, rs: Reservations, scope: Scope)
    returns (r: Result<map<CellId, seq<Record>>, InventoryError>)
    requires Grouped(groups, rs, rs.Keys) && PassesAll(rs)
    ensures r.Ok? <==> forall cell :: cell in scope.cells ==> CellWithinBudget(rs, scope, cell)
    ensures r.Ok? ==> forall cell :: cell in r.value ==>
      r.value[cell] != [] && ChainOf(r.value[cell], rs, KeyOf(scope, cell))
    ensures r.Ok? ==> forall cell :: cell in scope.cells && cell !in r.value ==> ChainOf([], rs, KeyOf(scope, cell))
    ensures r.Ok? ==> r.value.Keys <= scope.cells.Keys
  {
    var pending := scope.cells.Keys;
    var byCell: map<CellId, seq<Record>> := map[];
    while pending != {}
      invariant pending <= scope.cells.Keys && byCell.Keys <= scope.cells.Keys
      invariant forall cell :: cell in scope.cells && cell !in pending ==> CellWithinBudget(rs, scope, cell)
      invariant forall cell :: cell in byCell ==> byCell[cell] != [] && ChainOf(byCell[cell], rs, KeyOf(scope, cell))
      invariant forall cell :: cell in scope.cells && cell !in pending && cell !in byCell ==>
        ChainOf([], rs, KeyOf(scope, cell))
    {
      var cell :| cell in pending;
      pending := pending - {cell};
      var g := KeyOf(scope, cell);
      GroupedLists(groups, rs, g);
      ListsIsChain(GroupOf(groups, g), rs, g);
      SortSorts(GroupOf(groups, g), ByNumber());
      if g in groups {
        var chain := ValidateAttemptChain(groups[g], scope.maxAttempts);
        if chain.Err? {
          assert !CellWithinBudget(rs, scope, cell);
          return Err(chain.error);
        }
        byCell := byCell[cell := chain.value];
      }
      forall c | ChainOf(c, rs, g) ensures |c| <= scope.maxAttempts {
        ChainsAgree(c, Ordered(GroupOf(groups, g)), rs, g);
      }
      assert CellWithinBudget(rs, scope, cell);
    }
    return Ok(byCell);
  }

  /** No record of the dataset lies outside the registered cells once identities match. */
  lemma UnregisteredCellsAreEmpty(raw: RawRoot, scope: Scope, cell: CellId)
    requires RootOk(raw) && IdentitiesMatch(raw, scope) && cell !in scope.cells
    ensures ChainOf([], ReservationsOf(raw), KeyOf(scope, cell))
  {
    var rs := ReservationsOf(raw);
    forall r ensures !InGroup(rs, KeyOf(scope, cell), r) {
      assert r.attemptId in rs ==> IsAttempt(raw[r.attemptId]);
    }
  }

  lemma BudgetByCell(raw: RawRoot, scope: Scope)
    requires RootOk(raw) && IdentitiesMatch(raw, scope)
    ensures WithinBudget(ReservationsOf(raw), scope)
       <==> forall cell :: cell in scope.cells ==> CellWithinBudget(ReservationsOf(raw), scope, cell)
  {
    var rs := ReservationsOf(raw);
    forall cell, c | cell !in scope.cells && ChainOf(c, rs, KeyOf(scope, cell)) ensures c == [] {
      UnregisteredCellsAreEmpty(raw, scope, cell);
      ChainsAgree(c, [], rs, KeyOf(scope, cell));
    }
  }

  /** The whole raw root is judged before any attempt of the registered dataset is selected. */
  method InventoryAttempts(raw: RawRoot, scope: Scope) returns (r: Result<Inventory, InventoryError>)
    ensures r.Ok? <==> Accepts(raw, scope)
    ensures r.Ok? ==> Describes(r.value, raw, scope)
  {
    if |raw| > MAX_DATASET_BUNDLES {
      return Err(TooManyEntries);
    }
    var rs :- ReadReservations(raw);
    var e := GlobalPasses(rs);
    if e.Some? {
      return Err(e.value);
    }
    e := CheckIdentities(raw, scope);
    if e.Some? {
      return Err(e.value);
    }
    BudgetByCell(raw, scope);
    var groups := GroupByScope(rs);
    var byCell :- ValidateCells(groups, rs, scope);
    var inv := Inventory(scope, rs, byCell);
    forall cell ensures ChainOf(ChainIn(inv, cell), rs, KeyOf(scope, cell)) {
      if cell !in scope.cells {
        UnregisteredCellsAreEmpty(raw, scope, cell);
      }
    }
    return Ok(inv);
  }

  // ----- allocate_next_attempt -----

  datatype Allocation = Allocation(scope: Scope, cell: CellId, attemptId: AttemptId, number: nat,
                                   supersedes: Option<AttemptId>)

  datatype AllocationError =
    | DifferentScope | CellNotRegistered | BrokenChain | AlreadyComplete | BudgetExhausted | IdCollision

  /** No attempt of the chain is complete yet. */
  predicate IsOpen(c: seq<Record>) {
    c != [] ==> c[|c| - 1].status == Incomplete
  }

  function Allocate(inv: Inventory, scope: Scope, cell: CellId, candidate: AttemptId)
    : Result<Allocation, AllocationError>
  {
    var c := Ordered(ChainIn(inv, cell));
    if inv.scope != scope then Err(DifferentScope)
    else if cell !in scope.cells then Err(CellNotRegistered)
    else if !(|ChainIn(inv, cell)| <= scope.maxAttempts && IsChain(c)) then Err(BrokenChain)
    else if !IsOpen(c) then Err(AlreadyComplete)
    else if |c| >= scope.maxAttempts then Err(BudgetExhausted)
    else if candidate in inv.byAttempt then Err(IdCollision)
    else Ok(Allocation(scope, cell, candidate, |c| + 1, if c == [] then None else Some(c[|c| - 1].attemptId)))
  }

  /** The record a run of `a` publishes. */
  function RecordOf(a: Allocation, status: Status): Record {
    Record(KeyOf(a.scope, a.cell), a.attemptId, a.number, a.supersedes, status)
  }

  /** `a` is the next attempt of its cell: appending its record extends the cell's chain. */
  ghost predicate IsNext(rs: Reservations, a: Allocation) {
    && a.cell in a.scope.cells
    && a.attemptId !in rs
    && (exists c :: ChainOf(c, rs, KeyOf(a.scope, a.cell)) && |c| < a.scope.maxAttempts && Extends(c, a))
  }

  ghost predicate Extends(c: seq<Record>, a: Allocation) {
    forall status :: IsChain(c + [RecordOf(a, status)])
  }

  /** On an accepted root an allocation succeeds exactly while the cell is open and in budget. */
  lemma AllocationIsNext(inv: Inventory, raw: RawRoot, scope: Scope, cell: CellId, candidate: AttemptId)
    requires Accepts(raw, scope) && Describes(inv, raw, scope)
    ensures var r := Allocate(inv, scope, cell, candidate);
      r.Ok? ==> IsNext(ReservationsOf(raw), r.value) && r.value.scope == scope && r.value.cell == cell
    ensures var r := Allocate(inv, scope, cell, candidate); r.Ok? ==> r.value.attemptId == candidate
    ensures Allocate(inv, scope, cell, candidate).Ok? <==>
      && cell in scope.cells
      && IsOpen(ChainIn(inv, cell))
      && |ChainIn(inv, cell)| < scope.maxAttempts
      && candidate !in inv.byAttempt
  {
    var rs, c := ReservationsOf(raw), ChainIn(inv, cell);
    var g := KeyOf(scope, cell);
    assert ChainOf(c, rs, g);
    OrderedRecoversChain(c, c, rs, g);
    assert |c| <= scope.maxAttempts;
    var r := Allocate(inv, scope, cell, candidate);
    if r.Ok? {
      forall status ensures IsChain(c + [RecordOf(r.value, status)]) {
        ExtendChain(c, RecordOf(r.value, status));
      }
      assert Extends(c, r.value);
    }
  }

  lemma ExtendChain(c: seq<Record>, r: Record)
    requires IsChain(c) && IsOpen(c)
    requires r.number == |c| + 1
    requires r.supersedes == if c == [] then None else Some(c[|c| - 1].attemptId)
    ensures IsChain(c + [r])
  {
    var d := c + [r];
    forall i | 0 <= i < |d| ensures LinkAt(d, i) {
      if i < |c| {
        assert LinkAt(c, i);
      }
    }
  }
}
