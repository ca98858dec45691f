/** The analysis reading a raw root: loading its evidence, and what a completed campaign leaves to it. */
module Analysis {
  import opened Common
  import opened Sorting
  import opened Attempts
  import opened RawInventory
  import opened Campaign
  import opened Workflow

  datatype AnalysisError =
    | TooManyBundles | InvalidEvidence | UnregisteredRun | NothingLoaded | MixedEvidence | IncompleteRun
    | NotSelected(e: SelectionError)
    | RegistryDiffers

  /** What was loaded: registered attempts to select from, or runs of an older schema, all complete. */
  datatype Evidence = FromAttempts(bundles: seq<Record>) | FromRuns(names: set<nat>)

  // ----- What is loaded -----

  /** Other entries of the root are not looked at. */
  function DirectoriesOf(raw: RawRoot): RawRoot {
    map name | name in raw && raw[name].isDirectory :: raw[name]
  }

  predicate IsOther(e: Entry, scope: Scope) {
    e.bundle.Some? && e.bundle.value.OtherSchema? && e.bundle.value.dataset == scope.dataset
  }

  /** An attempt the registry knows, with the design, seed and configuration registered for its cell. */
  predicate RegistryMatches(scope: Scope, m: Manifest)
    requires m.Attempt?
  {
    && m.record.key.cell in scope.cells
    && m.identity == scope.cells[m.record.key.cell]
    && m.seed == scope.seed
    && m.record.key.config == scope.config
  }

  predicate EntryRegistered(e: Entry, scope: Scope) {
    && (InDataset(e, scope) ==> RegistryMatches(scope, e.bundle.value))
    && (IsOther(e, scope) ==> e.bundle.value.registered)
  }

  ghost predicate AllRegistered(dirs: RawRoot, scope: Scope) {
    forall name :: name in dirs ==> EntryRegistered(dirs[name], scope)
  }

  ghost predicate HasAttempt(dirs: RawRoot, scope: Scope) {
    exists name :: name in dirs && InDataset(dirs[name], scope)
  }

  ghost predicate HasOther(dirs: RawRoot, scope: Scope) {
    exists name :: name in dirs && IsOther(dirs[name], scope)
  }

  ghost predicate OthersComplete(dirs: RawRoot, scope: Scope) {
    forall name :: name in dirs && IsOther(dirs[name], scope) ==> dirs[name].bundle.value.complete
  }

  /** Everything that is loaded is valid and registered. */
  ghost predicate Loadable(raw: RawRoot, scope: Scope) {
    && |DirectoriesOf(raw)| <= MAX_DATASET_BUNDLES
    && RootOk(DirectoriesOf(raw))
    && AllRegistered(DirectoriesOf(raw), scope)
  }

  /** Valid evidence that the registry knows: an attempt in every registered field, an older run as its entry says. */
  ghost predicate IsKnown(name: nat, e: Entry, scope: Scope) {
    match e.bundle
    case Some(Attempt(record, seed, identity)) =>
      && record.attemptId == name && record.number >= 1
      && (record.key.dataset == scope.dataset ==>
            && record.key.cell in scope.cells && identity == scope.cells[record.key.cell]
            && seed == scope.seed && record.key.config == scope.config)
    case Some(OtherSchema(dataset, registered, _)) => dataset == scope.dataset ==> registered
    case _ => false
  }

  ghost predicate IsAttemptIn(e: Entry, dataset: string) {
    e.bundle.Some? && e.bundle.value.Attempt? && e.bundle.value.record.key.dataset == dataset
  }

  ghost predicate IsOlderIn(e: Entry, dataset: string) {
    e.bundle.Some? && e.bundle.value.OtherSchema? && e.bundle.value.dataset == dataset
  }

  /** What can be loaded, and what of the dataset there is, directory by directory. */
  lemma LoadableByDirectory(raw: RawRoot, scope: Scope)
    ensures Loadable(raw, scope) <==>
      && |DirectoriesOf(raw)| <= 20_000
      && forall name :: name in raw && raw[name].isDirectory ==> IsKnown(name, raw[name], scope)
    ensures HasAttempt(DirectoriesOf(raw), scope) <==>
      exists name :: name in raw && raw[name].isDirectory && IsAttemptIn(raw[name], scope.dataset)
    ensures HasOther(DirectoriesOf(raw), scope) <==>
      exists name :: name in raw && raw[name].isDirectory && IsOlderIn(raw[name], scope.dataset)
  {
    var dirs := DirectoriesOf(raw);
    forall name | name in raw && raw[name].isDirectory
      ensures EntryOk(name, raw[name]) && EntryRegistered(raw[name], scope) <==> IsKnown(name, raw[name], scope)
      ensures InDataset(raw[name], scope) <==> IsAttemptIn(raw[name], scope.dataset)
      ensures IsOther(raw[name], scope) <==> IsOlderIn(raw[name], scope.dataset)
    {
      assert dirs[name] == raw[name];
    }
    assert forall name :: name in dirs <==> name in raw && raw[name].isDirectory;
  }

  /** `bundles` are the registered attempts of the dataset found in `raw`, one each. */
  ghost predicate Collects(bundles: seq<Record>, raw: RawRoot, scope: Scope, names: set<nat>) {
    && Distinct(bundles)
    && (forall b :: b in bundles <==> b.attemptId in names && IsBundleOf(b, raw, scope))
  }

  ghost predicate IsBundleOf(b: Record, raw: RawRoot, scope: Scope) {
    b.attemptId in raw && InDataset(raw[b.attemptId], scope) && raw[b.attemptId].bundle.value.record == b
  }

  lemma CollectedBundles(bundles: seq<Record>, dirs: RawRoot, scope: Scope)
    requires RootOk(dirs) && Collects(bundles, dirs, scope, dirs.Keys)
    ensures BundlesOf(bundles, dirs, scope)
    ensures bundles != [] <==> HasAttempt(dirs, scope)
  {
    forall b ensures b in bundles <==> InGroup(ReservationsOf(dirs), b.key, b) && b.key.dataset == scope.dataset {
      assert IsBundleOf(b, dirs, scope) <==> InGroup(ReservationsOf(dirs), b.key, b) && b.key.dataset == scope.dataset;
    }
    if bundles != [] {
      assert bundles[0] in bundles;
    }
    forall name | name in dirs && InDataset(dirs[name], scope) ensures bundles != [] {
      assert IsBundleOf(dirs[name].bundle.value.record, dirs, scope);
    }
  }

  /** Judge each directory, and collect those of the dataset by their schema. */
  method CollectEvidence(dirs: RawRoot, scope: Scope) returns (r: Result<(seq<Record>, set<nat>), AnalysisError>)
    ensures r.Ok? <==> RootOk(dirs) && AllRegistered(dirs, scope)
    ensures r.Ok? ==> Collects(r.value.0, dirs, scope, dirs.Keys)
    ensures r.Ok? ==> forall name :: name in r.value.1 <==> name in dirs && IsOther(dirs[name], scope)
  {
    var attempts, others := [], {};
    var pending := dirs.Keys;
    while pending != {}
      invariant pending <= dirs.Keys
      invariant forall name :: name in dirs && name !in pending ==>
        dirs[name].isDirectory && EvidenceOk(name, dirs[name]) && EntryRegistered(dirs[name], scope)
      invariant Collects(attempts, dirs, scope, dirs.Keys - pending)
      invariant forall name :: name in others <==> name in dirs && name !in pending && IsOther(dirs[name], scope)
    {
      var name :| name in pending;
      pending := pending - {name};
      var e := dirs[name];
      if !EntryOk(name, e) {
        return Err(InvalidEvidence);
      }
      if !EntryRegistered(e, scope) {
        return Err(UnregisteredRun);
      }
      if InDataset(e, scope) {
        attempts := attempts + [e.bundle.value.record];
      } else if IsOther(e, scope) {
        others := others + {name};
      }
    }
    return Ok((attempts, others));
  }

  lemma OthersFound(dirs: RawRoot, scope: Scope, others: set<nat>)
    requires forall name :: name in others <==> name in dirs && IsOther(dirs[name], scope)
    ensures others != {} <==> HasOther(dirs, scope)
  {
    if others != {} {
      var name :| name in others;
    }
    if HasOther(dirs, scope) {
      var name :| name in dirs && IsOther(dirs[name], scope);
      assert name in others;
    }
  }

  /** Load a dataset: attempts and older runs may not be mixed, and older runs must be complete. */
  method LoadEvidence(raw: RawRoot, scope: Scope) returns (r: Result<Evidence, AnalysisError>)
    ensures
      var dirs := DirectoriesOf(raw);
      r.Ok? <==>
        && Loadable(raw, scope)
        && (if HasAttempt(dirs, scope) then !HasOther(dirs, scope)
            else HasOther(dirs, scope) && OthersComplete(dirs, scope))
    ensures r.Ok? ==> (r.value.FromAttempts? <==> HasAttempt(DirectoriesOf(raw), scope))
    ensures r.Ok? && r.value.FromAttempts? ==> BundlesOf(r.value.bundles, DirectoriesOf(raw), scope)
    ensures r.Ok? && r.value.FromRuns? ==>
      forall name :: name in r.value.names <==> name in raw && raw[name].isDirectory && IsOther(raw[name], scope)
  {
    var dirs := DirectoriesOf(raw);
    if |dirs| > MAX_DATASET_BUNDLES {
      return Err(TooManyBundles);
    }
    var found :- CollectEvidence(dirs, scope);
    var (attempts, others) := found;
    CollectedBundles(attempts, dirs, scope);
    OthersFound(dirs, scope, others);
    if attempts != [] {
      return if others != {} then Err(MixedEvidence) else Ok(FromAttempts(attempts));
    }
    if others == {} {
      return Err(NothingLoaded);
    }
    if exists name :: name in others && !dirs[name].bundle.value.complete {
      return Err(IncompleteRun);
    }
    return Ok(FromRuns(others));
  }

  // ----- Selecting from it -----

  datatype Dataset = Attempts(selected: seq<Record>) | Runs(names: set<nat>)

  /** Loading gets as far as selecting attempts: some were loaded, and nothing else of the dataset was. */
  ghost predicate ReachesSelection(raw: RawRoot, scope: Scope) {
    Loadable(raw, scope) && HasAttempt(DirectoriesOf(raw), scope) && !HasOther(DirectoriesOf(raw), scope)
  }

  lemma SelectionCells(selected: seq<Record>, bundles: seq<Record>)
    requires IsSelection(selected, bundles)
    ensures CellsOf(selected) == CellsOf(bundles)
  {
    forall cell ensures cell in CellsOf(selected) <==> cell in CellsOf(bundles) {
      if cell in CellsOf(bundles) {
        var i :| 0 <= i < |selected| && selected[i].key.cell == cell;
        assert selected[i] in selected;
      }
    }
  }

  /** The whole load: evidence, terminal attempts, and in the end the registered cells and no others. */
  method LoadDataset(raw: RawRoot, scope: Scope, reg: Registered)
    returns (r: Result<Dataset, AnalysisError>, ghost bundles: seq<Record>)
    ensures r.Ok? && r.value.Attempts? <==>
      ReachesSelection(raw, scope) && Selectable(bundles, reg) && CellsOf(bundles) == scope.cells.Keys
    ensures ReachesSelection(raw, scope) ==> BundlesOf(bundles, DirectoriesOf(raw), scope)
    ensures r.Ok? && r.value.Attempts? ==> IsSelection(r.value.selected, bundles)
    ensures r.Ok? && r.value.Runs? ==> !HasAttempt(DirectoriesOf(raw), scope)
  {
    bundles := [];
    var evidence := LoadEvidence(raw, scope);
    if evidence.Err? {
      return Err(evidence.error), bundles;
    }
    match evidence.value {
      case FromRuns(names) =>
        return Ok(Runs(names)), bundles;
      case FromAttempts(attempts) =>
        bundles := attempts;
        var selected := SelectTerminalAttempts(attempts, reg);
        if selected.Err? {
          return Err(NotSelected(selected.error)), bundles;
        }
        SelectionCells(selected.value, attempts);
        if CellsOf(selected.value) != scope.cells.Keys {
          return Err(RegistryDiffers), bundles;
        }
        return Ok(Attempts(selected.value)), bundles;
    }
  }

  // ----- From the campaign to the analysis -----

  lemma SoundDirectories(raw: RawRoot, scope: Scope)
    requires Sound(raw, scope)
    ensures DirectoriesOf(raw) == raw
    ensures ReachesSelection(raw, scope) <==>
      |raw| <= MAX_DATASET_BUNDLES && HasAttempt(raw, scope) && !HasOther(raw, scope)
  {
    assert DirectoriesOf(raw) == raw;
    forall name | name in raw && InDataset(raw[name], scope) ensures EntryRegistered(raw[name], scope) {
      assert IdentityMatches(scope, raw[name].bundle.value);
    }
  }

  lemma CompleteHasAttempt(raw: RawRoot, scope: Scope, cell: CellId)
    requires Sound(raw, scope) && CellComplete(raw, scope, cell)
    ensures HasAttempt(raw, scope)
  {
    CellCompleteIff(raw, scope, cell);
    var name :| name in raw && IsCompleteOf(raw[name], KeyOf(scope, cell));
    assert InDataset(raw[name], scope);
  }

  /** What a completed campaign leaves is loaded and selected exactly if nothing of another schema is in its dataset. */
  lemma CompletedCampaignLoads(raw: RawRoot, scope: Scope, bundles: seq<Record>)
    requires Sound(raw, scope) && AllComplete(raw, scope) && scope.cells.Keys != {}
    requires ReachesSelection(raw, scope) ==> BundlesOf(bundles, raw, scope)
    ensures HasAttempt(raw, scope)
    ensures ReachesSelection(raw, scope) <==> |raw| <= MAX_DATASET_BUNDLES && !HasOther(raw, scope)
    ensures ReachesSelection(raw, scope) ==>
      Selectable(bundles, RegisteredAs(scope)) && CellsOf(bundles) == scope.cells.Keys
  {
    SoundDirectories(raw, scope);
    var cell :| cell in scope.cells.Keys;
    CompleteHasAttempt(raw, scope, cell);
    if ReachesSelection(raw, scope) {
      CompletedCampaignIsSelectable(raw, scope, bundles, RegisteredAs(scope));
    }
  }

  /**
    * Run the whole schedule and analyse what it left. When the report is complete and the root still
    * inventories, the analysis selects one attempt for each registered cell, except when the last
    * attempts took the root over the cap, or an entry of an older schema claims the same dataset: the
    * campaign does not look at those, and the analysis refuses the mixture.
    */
  method RunAndSelect(root: EvidenceRoot, scope: Scope, schedule: seq<CellId>, resume: bool)
    returns (report: Result<Report, WorkflowError>, dataset: Result<Dataset, AnalysisError>, ghost bundles: seq<Record>)
    requires schedule != [] && forall cell :: cell in schedule <==> cell in scope.cells
    modifies root
    ensures Grows(old(root.raw), root.raw)
    ensures report.Ok? && root.disciplined ==> Sound(root.raw, scope)
    ensures report.Ok? && report.value.status == Complete && Sound(root.raw, scope) ==>
      && (dataset.Ok? <==> |root.raw| <= MAX_DATASET_BUNDLES && !HasOther(root.raw, scope))
      && (dataset.Ok? ==>
            && dataset.value.Attempts? && IsSelection(dataset.value.selected, bundles)
            && BundlesOf(bundles, root.raw, scope) && CellsOf(bundles) == scope.cells.Keys)
  {
    ghost var roots: seq<RawRoot>;
    report, roots := root.ExecuteRegisteredPlan(scope, schedule, resume);
    dataset, bundles := LoadDataset(root.raw, scope, RegisteredAs(scope));
    if report.Ok? && report.value.status == Complete {
      if Sound(root.raw, scope) {
        ScheduleComplete(root.raw, scope, schedule);
        SoundDirectories(root.raw, scope);
        CompletedCampaignLoads(root.raw, scope, bundles);
      }
    }
  }

  lemma ScheduleComplete(raw: RawRoot, scope: Scope, schedule: seq<CellId>)
    requires RootOk(raw) && schedule != [] && forall cell :: cell in schedule <==> cell in scope.cells
    requires forall i :: 0 <= i < |schedule| ==> CellComplete(raw, scope, schedule[i])
    ensures AllComplete(raw, scope) && scope.cells.Keys != {}
  {
    assert schedule[0] in scope.cells;
    forall cell | cell in scope.cells ensures CellComplete(raw, scope, cell) {
      var i :| 0 <= i < |schedule| && schedule[i] == cell;
    }
  }

  /** Any completed campaign's root with one entry of an older schema beside it: accepted, complete, and refused. */
  lemma OtherSchemaIsNotNoticed(raw: RawRoot, scope: Scope, name: nat, registered: bool, complete: bool)
    returns (after: RawRoot)
    requires Sound(raw, scope) && AllComplete(raw, scope) && name !in raw
    ensures after == raw[name := Entry(true, Some(OtherSchema(scope.dataset, registered, complete)))]
    ensures Sound(after, scope) && AllComplete(after, scope) && !ReachesSelection(after, scope)
  {
    after := raw[name := Entry(true, Some(OtherSchema(scope.dataset, registered, complete)))];
    assert ReservationsOf(after) == ReservationsOf(raw);
    forall cell | cell in scope.cells ensures CellComplete(after, scope, cell) {
      assert CellComplete(raw, scope, cell);
    }
    assert IsOther(after[name], scope);
    SoundDirectories(after, scope);
  }

  const ONE_CELL: Scope :=
    Scope("d", "main", "s", "c", "k", 1, 0, map[5 := CellIdentity(1, 1, "scenario", "profile", "static")])

  /** The only attempt of the only cell. */
  const ONLY: Allocation := Allocation(ONE_CELL, 5, 7, 1, None)

  lemma OnlyIsNext()
    ensures Sound(map[], ONE_CELL) && IsNext(ReservationsOf(map[]), ONLY)
  {
    EmptyRootStarts(map[], ONE_CELL);
    var g := KeyOf(ONE_CELL, 5);
    assert ChainOf([], ReservationsOf(map[]), g);
    forall status ensures IsChain([] + [RecordOf(ONLY, status)]) {
      ExtendChain([], RecordOf(ONLY, status));
    }
    assert Extends([], ONLY);
  }

  /** A root of two entries that the campaign accepts as complete and the analysis cannot load. */
  lemma FailingRoot() returns (raw: RawRoot)
    ensures Accepts(raw, ONE_CELL) && AllComplete(raw, ONE_CELL) && |raw| == 2
    ensures !ReachesSelection(raw, ONE_CELL)
  {
    OnlyIsNext();
    PublishKeepsSound(map[], ONLY, Complete, ONE_CELL);
    var one: RawRoot := map[][7 := EntryFor(ONLY, Complete)];
    forall cell | cell in ONE_CELL.cells ensures CellComplete(one, ONE_CELL, cell) {
      assert IsCompleteOf(one[7], KeyOf(ONE_CELL, cell));
      CellCompleteIff(one, ONE_CELL, cell);
    }
    raw := OtherSchemaIsNotNoticed(one, ONE_CELL, 8, false, true);
    assert raw.Keys == {7, 8} && |raw| == |raw.Keys|;
  }
}
