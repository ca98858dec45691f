/** The campaign loop over registered cells, and the two readers of its result. */
module Workflow {
  import opened Common
  import opened Sorting
  import opened Attempts
  import opened RawInventory
  import opened Campaign

  datatype WorkflowError =
    | InvalidInventory(e: InventoryError)
    | NeedsResume
    | CannotAllocate(a: AllocationError)
    | RunRaised
    | OutcomeMismatch

  /** What `run_one` claims: the evidence directory it published and its status. */
  datatype RunOutcome = RunOutcome(evidence: nat, status: Status)

  datatype CellStep = Skipped | Ran(status: Status)

  datatype Report = Report(status: Status, executed: nat, skipped: nat)

  // ----- What the campaign loop is for -----

  /** The cell's chain ends in a complete attempt. */
  ghost predicate CellComplete(raw: RawRoot, scope: Scope, cell: CellId)
    requires RootOk(raw)
  {
    exists c :: ChainOf(c, ReservationsOf(raw), KeyOf(scope, cell)) && !IsOpen(c)
  }

  ghost predicate AllComplete(raw: RawRoot, scope: Scope)
    requires RootOk(raw)
  {
    forall cell :: cell in scope.cells ==> CellComplete(raw, scope, cell)
  }

  /** A complete attempt of the cell has been published. */
  ghost predicate HasComplete(raw: RawRoot, scope: Scope, cell: CellId) {
    exists name :: name in raw && IsCompleteOf(raw[name], KeyOf(scope, cell))
  }

  ghost predicate IsCompleteOf(e: Entry, g: ScopeKey) {
    IsAttempt(e) && e.bundle.value.record.key == g && e.bundle.value.record.status == Complete
  }

  lemma HasCompleteStays(before: RawRoot, after: RawRoot, scope: Scope, cell: CellId)
    requires Grows(before, after) && HasComplete(before, scope, cell)
    ensures HasComplete(after, scope, cell)
  {
    var name :| name in before && IsCompleteOf(before[name], KeyOf(scope, cell));
    assert name in after && after[name] == before[name];
  }

  ghost predicate AllHaveComplete(raw: RawRoot, scope: Scope, cells: seq<CellId>, n: nat)
    requires n <= |cells|
  {
    forall i :: 0 <= i < n ==> HasComplete(raw, scope, cells[i])
  }

  lemma OneMoreHasComplete(before: RawRoot, after: RawRoot, scope: Scope, cells: seq<CellId>, n: nat)
    requires n < |cells| && Grows(before, after)
    requires AllHaveComplete(before, scope, cells, n) && HasComplete(after, scope, cells[n])
    ensures AllHaveComplete(after, scope, cells, n + 1)
  {
    forall k | 0 <= k < n ensures HasComplete(after, scope, cells[k]) {
      HasCompleteStays(before, after, scope, cells[k]);
    }
  }

  /** In a sound root the chain of a cell is complete exactly when a complete attempt was published. */
  lemma CellCompleteIff(raw: RawRoot, scope: Scope, cell: CellId)
    requires Sound(raw, scope)
    ensures CellComplete(raw, scope, cell) <==> HasComplete(raw, scope, cell)
  {
    var g, rs := KeyOf(scope, cell), ReservationsOf(raw);
    if CellComplete(raw, scope, cell) {
      var c :| ChainOf(c, rs, g) && !IsOpen(c);
      ChainShowsComplete(raw, scope, cell, c);
    }
    if HasComplete(raw, scope, cell) {
      var name :| name in raw && IsCompleteOf(raw[name], g);
      PassesAllGivesChain(rs, g);
      CompleteClosesChain(rs, g, Ordered(GroupListing(rs, g)), raw[name].bundle.value.record);
    }
  }

  lemma CompleteClosesChain(rs: Reservations, g: ScopeKey, c: seq<Record>, r: Record)
    requires ChainOf(c, rs, g) && InGroup(rs, g, r) && r.status == Complete
    ensures !IsOpen(c)
  {
    assert r in c;
    var i :| 0 <= i < |c| && c[i] == r;
    assert i == |c| - 1;
  }

  lemma ChainShowsComplete(raw: RawRoot, scope: Scope, cell: CellId, c: seq<Record>)
    requires RootOk(raw) && ChainOf(c, ReservationsOf(raw), KeyOf(scope, cell)) && !IsOpen(c)
    ensures HasComplete(raw, scope, cell)
  {
    var last := c[|c| - 1];
    assert last in c && InGroup(ReservationsOf(raw), KeyOf(scope, cell), last);
    assert IsCompleteOf(raw[last.attemptId], KeyOf(scope, cell));
  }

  // ----- What is said of a turn, field by field -----

  /** An attempt of this cell, collected under this scope. */
  ghost predicate IsAttemptOf(e: Entry, scope: Scope, cell: CellId) {
    && IsAttempt(e)
    && var key := e.bundle.value.record.key;
       && key.cell == cell && key.dataset == scope.dataset && key.stage == scope.stage
       && key.schedule == scope.schedule && key.config == scope.config && key.commit == scope.commit
  }

  ghost predicate HasAttemptOf(raw: RawRoot, scope: Scope, cell: CellId) {
    exists name :: name in raw && IsAttemptOf(raw[name], scope, cell)
  }

  /** The allocated attempt, published with this status. */
  ghost predicate IsPublished(e: Entry, a: Allocation, status: Status)
    requires a.cell in a.scope.cells
  {
    && e.isDirectory && IsAttemptOf(e, a.scope, a.cell)
    && e.bundle.value.record.attemptId == a.attemptId && e.bundle.value.record.number == a.number
    && e.bundle.value.record.supersedes == a.supersedes && e.bundle.value.record.status == status
    && e.bundle.value.seed == a.scope.seed && e.bundle.value.identity == a.scope.cells[a.cell]
  }

  lemma PublishedIsEntry(e: Entry, a: Allocation, status: Status)
    requires a.cell in a.scope.cells
    ensures IsPublished(e, a, status) <==> e == EntryFor(a, status)
  {
    if IsPublished(e, a, status) {
      assert e.bundle.value.record.key == KeyOf(a.scope, a.cell);
      assert e.bundle.value.record == RecordOf(a, status);
    }
  }

  /** The runner's claim about the allocation holds of the root. */
  ghost predicate Verified(raw: RawRoot, a: Allocation, outcome: RunOutcome)
    requires a.cell in a.scope.cells
  {
    && outcome.evidence == a.attemptId && a.attemptId in raw
    && IsPublished(raw[a.attemptId], a, outcome.status)
  }

  lemma ChainShowsAttempt(raw: RawRoot, scope: Scope, cell: CellId, c: seq<Record>)
    requires RootOk(raw) && ChainOf(c, ReservationsOf(raw), KeyOf(scope, cell))
    ensures c != [] <==> HasAttemptOf(raw, scope, cell)
  {
    var g, rs := KeyOf(scope, cell), ReservationsOf(raw);
    if c != [] {
      assert c[0] in c && InGroup(rs, g, c[0]);
      assert IsAttemptOf(raw[c[0].attemptId], scope, cell);
    }
    if HasAttemptOf(raw, scope, cell) {
      var name :| name in raw && IsAttemptOf(raw[name], scope, cell);
      assert InGroup(rs, g, raw[name].bundle.value.record);
      assert raw[name].bundle.value.record in c;
    }
  }

  lemma HasAttemptStays(before: RawRoot, after: RawRoot, scope: Scope, cell: CellId)
    requires Grows(before, after) && HasAttemptOf(before, scope, cell)
    ensures HasAttemptOf(after, scope, cell)
  {
    var name :| name in before && IsAttemptOf(before[name], scope, cell);
    assert name in after && after[name] == before[name];
  }

  /** Why an allocation was refused: the cell is unknown, its budget is spent, or the id is taken. */
  ghost predicate Refuses(raw: RawRoot, scope: Scope, cell: CellId, e: AllocationError)
    requires RootOk(raw)
  {
    match e
    case CellNotRegistered => cell !in scope.cells
    case BudgetExhausted => exists c :: ChainOf(c, ReservationsOf(raw), KeyOf(scope, cell)) && |c| >= scope.maxAttempts
    case IdCollision => true
    case _ => false
  }

  ghost predicate AddsAtMost(before: RawRoot, after: RawRoot, name: nat) {
    Grows(before, after) && after.Keys <= before.Keys + {name}
  }

  /** The evidence data root, held under the campaign lock for the whole loop. */
  class EvidenceRoot {
    var raw: RawRoot
    /** The runner adds at most one entry each time it is called. */
    const disciplined: bool

    constructor (raw: RawRoot, disciplined: bool)
      ensures this.raw == raw && this.disciplined == disciplined
    {
      this.raw, this.disciplined := raw, disciplined;
    }

    /** A runner that raises, or adds any entries and claims any outcome; it changes nothing that is there. */
    method RunOne(a: Allocation) returns (r: Result<RunOutcome, WorkflowError>)
      modifies this
      ensures Grows(old(raw), raw) && (r.Err? ==> r.error == RunRaised)
      ensures disciplined ==> exists name: nat :: AddsAtMost(old(raw), raw, name)
    {
      var name: nat, entries: RawRoot := *, *;
      var raises: bool, status: Status := *, *;
      if disciplined {
        entries := map n | n in entries && n == name :: entries[n];
      }
      raw := entries + raw;
      assert disciplined ==> AddsAtMost(old(raw), raw, name);
      r := if raises then Err(RunRaised) else Ok(RunOutcome(name, status));
    }

    /** The published bundle must be valid and carry exactly the allocation identity and status. */
    method VerifyAttemptOutcome(outcome: RunOutcome, a: Allocation) returns (ok: bool)
      requires a.cell in a.scope.cells
      ensures ok <==> Verified(raw, a, outcome)
    {
      if outcome.evidence != a.attemptId {
        return false;
      }
      if outcome.evidence !in raw {
        return false;
      }
      PublishedIsEntry(raw[outcome.evidence], a, outcome.status);
      return raw[outcome.evidence] == EntryFor(a, outcome.status);
    }

    /** One attempt of one open cell: allocate, run, verify; `granted` and `claim` are how far it got. */
    method AttemptCell(inv: Inventory, scope: Scope, cell: CellId)
      returns (r: Result<Status, WorkflowError>, ghost granted: Option<Allocation>, ghost claim: Option<RunOutcome>)
      requires Accepts(raw, scope) && Describes(inv, raw, scope) && IsOpen(ChainIn(inv, cell))
      modifies this
      ensures Grows(old(raw), raw)
      ensures r.Ok? && disciplined ==> Sound(raw, scope)
      ensures r.Ok? && r.value == Complete ==> HasComplete(raw, scope, cell)
      ensures granted.None? <==> r.Err? && r.error.CannotAllocate?
      ensures granted.None? ==> raw == old(raw) && Refuses(raw, scope, cell, r.error.a)
      ensures granted.Some? ==>
        granted.value.scope == scope && granted.value.cell == cell && IsNext(ReservationsOf(old(raw)), granted.value)
      ensures granted.Some? ==> (claim.None? <==> r == Err(RunRaised))
      ensures granted.Some? && claim.Some? ==>
        r == if Verified(raw, granted.value, claim.value) then Ok(claim.value.status) else Err(OutcomeMismatch)
    {
      granted, claim := None, None;
      var candidate: nat := *;
      AllocationIsNext(inv, raw, scope, cell, candidate);
      var allocation := Allocate(inv, scope, cell, candidate);
      if allocation.Err? {
        RefusalIsJustified(inv, raw, scope, cell, candidate);
        r := Err(CannotAllocate(allocation.error));
        return;
      }
      var a := allocation.value;
      granted := Some(a);
      ghost var before := raw;
      var ran := RunOne(a);
      if ran.Err? {
        r := Err(ran.error);
        return;
      }
      var outcome := ran.value;
      claim := Some(outcome);
      var ok := VerifyAttemptOutcome(outcome, a);
      if !ok {
        r := Err(OutcomeMismatch);
        return;
      }
      VerifiedAttempt(before, raw, a, outcome, disciplined);
      r := Ok(outcome.status);
    }

    /** One turn of the loop: inventory the root, then skip the cell or attempt it. */
    method ProcessCell(scope: Scope, cell: CellId, resume: bool) returns (r: Result<CellStep, WorkflowError>)
      modifies this
      ensures Grows(old(raw), raw)
      ensures if r.Ok? then Turned(old(raw), scope, cell, resume) else Stopped(old(raw), scope, cell, resume, r.error)
      ensures r == Ok(Skipped) <==> resume && Accepts(old(raw), scope) && HasComplete(old(raw), scope, cell)
      ensures r == Ok(Skipped) ==> raw == old(raw)
      ensures r.Ok? && disciplined ==> Sound(raw, scope)
      ensures r.Ok? && r.value != Ran(Incomplete) ==> HasComplete(raw, scope, cell)
      ensures r.Err? && r.error.CannotAllocate? ==> raw == old(raw)
    {
      var inventory := InventoryAttempts(raw, scope);
      if inventory.Err? {
        return Err(InvalidInventory(inventory.error));
      }
      var records := ChainIn(inventory.value, cell);
      assert ChainOf(records, ReservationsOf(raw), KeyOf(scope, cell));
      ChainDecides(raw, scope, cell, records);
      if records != [] && !resume {
        return Err(NeedsResume);
      }
      if !IsOpen(records) {
        return Ok(Skipped);
      }
      ghost var granted: Option<Allocation>, claim: Option<RunOutcome>;
      var status;
      status, granted, claim := AttemptCell(inventory.value, scope, cell);
      return if status.Ok? then Ok(Ran(status.value)) else Err(status.error);
    }

    /** The loop over the cells; `roots` is what each turn found. */
    method ProcessCells(scope: Scope, selected: seq<CellId>, resume: bool)
      returns (r: Result<Report, WorkflowError>, ghost roots: seq<RawRoot>)
      modifies this
      ensures r.Ok? && disciplined && selected != [] ==> Sound(raw, scope)
      ensures r.Ok? && r.value.status == Complete ==> AllHaveComplete(raw, scope, selected, |selected|)
      ensures Turns(roots, old(raw), raw, scope, selected, resume, r)
    {
      var executed, skipped := 0, 0;
      roots := [];
      for i := 0 to |selected|
        invariant executed + skipped == i == |roots|
        invariant !resume ==> skipped == 0
        invariant i > 0 && disciplined ==> Sound(raw, scope)
        invariant AllHaveComplete(raw, scope, selected, i)
        invariant GrowsThrough(roots, old(raw), raw)
        invariant AllTurned(roots, scope, selected, resume)
      {
        ghost var before := raw;
        var step := ProcessCell(scope, selected[i], resume);
        OneMoreTurn(roots, old(raw), before, raw);
        if step.Err? {
          return Err(step.error), roots + [before];
        }
        OneMoreTurned(roots, before, scope, selected, resume);
        roots := roots + [before];
        if step.value == Ran(Incomplete) {
          return Ok(Report(Incomplete, executed + 1, skipped)), roots;
        }
        OneMoreHasComplete(before, raw, scope, selected, i);
        if step.value.Skipped? {
          skipped := skipped + 1;
        } else {
          executed := executed + 1;
        }
      }
      return Ok(Report(Complete, executed, skipped)), roots;
    }

    /** `selected` is the schedule, or its first `limit` cells. */
    method ExecuteRegisteredPlan(scope: Scope, selected: seq<CellId>, resume: bool)
      returns (r: Result<Report, WorkflowError>, ghost roots: seq<RawRoot>)
      modifies this
      ensures Grows(old(raw), raw)
      ensures Turns(roots, old(raw), raw, scope, selected, resume, r)
      ensures r.Ok? && disciplined && selected != [] ==> Sound(raw, scope)
      ensures r.Ok? && r.value.status == Complete && Sound(raw, scope) ==>
        forall i :: 0 <= i < |selected| ==> CellComplete(raw, scope, selected[i])
      ensures r.Ok? && r.value.status == Complete && !resume ==>
        forall i :: 0 <= i < |selected| ==> !HasAttemptOf(old(raw), scope, selected[i])
    {
      r, roots := ProcessCells(scope, selected, resume);
      GrowsToTheEnd(roots, old(raw), raw);
      forall i | 0 <= i < |selected| && Sound(raw, scope)
        ensures CellComplete(raw, scope, selected[i]) <==> HasComplete(raw, scope, selected[i])
      {
        CellCompleteIff(raw, scope, selected[i]);
      }
      if r.Ok? && r.value.status == Complete && !resume {
        NothingToResume(roots, old(raw), raw, scope, selected);
      }
    }
  }

  // ----- What the turns of one campaign found -----

  /** Each turn started from a root that keeps what the one before it found. */
  ghost predicate GrowsThrough(roots: seq<RawRoot>, first: RawRoot, last: RawRoot) {
    if roots == [] then first == last
    else
      && roots[0] == first && Grows(roots[|roots| - 1], last)
      && forall i :: 0 <= i < |roots| - 1 ==> Grows(roots[i], roots[i + 1])
  }

  /** A turn that the campaign got past: the root was accepted, and without `resume` the cell untouched. */
  ghost predicate Turned(root: RawRoot, scope: Scope, cell: CellId, resume: bool) {
    Accepts(root, scope) && (!resume ==> !HasAttemptOf(root, scope, cell))
  }

  /** Why a turn ends the campaign. */
  ghost predicate Stopped(root: RawRoot, scope: Scope, cell: CellId, resume: bool, e: WorkflowError) {
    && (e.InvalidInventory? <==> !Accepts(root, scope))
    && (e == NeedsResume <==> Accepts(root, scope) && !resume && HasAttemptOf(root, scope, cell))
    && (e.CannotAllocate? ==> Accepts(root, scope) && Refuses(root, scope, cell, e.a))
  }

  ghost predicate AllTurned(roots: seq<RawRoot>, scope: Scope, selected: seq<CellId>, resume: bool)
    requires |roots| <= |selected|
  {
    forall i :: 0 <= i < |roots| ==> Turned(roots[i], scope, selected[i], resume)
  }

  /**
    * How a campaign ends, by the root its last turn found: an error of the inventory exactly if that root
    * is not accepted, a call for `resume` exactly if it holds an attempt of that cell, a refused allocation
    * only for a reason there is. A report counts the turns.
    */
  ghost predicate Turns(roots: seq<RawRoot>, first: RawRoot, last: RawRoot, scope: Scope, selected: seq<CellId>,
                        resume: bool, r: Result<Report, WorkflowError>) {
    && |roots| <= |selected| && GrowsThrough(roots, first, last)
    && match r
       case Ok(report) =>
         && AllTurned(roots, scope, selected, resume)
         && report.executed + report.skipped == |roots| && (!resume ==> report.skipped == 0)
         && (report.status == Complete ==> |roots| == |selected|)
       case Err(e) =>
         && roots != [] && AllTurned(roots[..|roots| - 1], scope, selected, resume)
         && Stopped(roots[|roots| - 1], scope, selected[|roots| - 1], resume, e)
  }

  lemma OneMoreTurn(roots: seq<RawRoot>, first: RawRoot, before: RawRoot, after: RawRoot)
    requires GrowsThrough(roots, first, before) && Grows(before, after)
    ensures GrowsThrough(roots + [before], first, after)
    ensures (roots + [before])[..|roots|] == roots
  {
  }

  lemma OneMoreTurned(roots: seq<RawRoot>, before: RawRoot, scope: Scope, selected: seq<CellId>, resume: bool)
    requires |roots| < |selected| && AllTurned(roots, scope, selected, resume)
    requires Turned(before, scope, selected[|roots|], resume)
    ensures AllTurned(roots + [before], scope, selected, resume)
  {
  }

  lemma GrowsFrom(roots: seq<RawRoot>, first: RawRoot, last: RawRoot, i: nat)
    requires GrowsThrough(roots, first, last) && i < |roots|
    ensures Grows(first, roots[i])
    decreases i
  {
    if i > 0 {
      GrowsFrom(roots, first, last, i - 1);
      assert Grows(roots[i - 1], roots[i - 1 + 1]);
    }
  }

  lemma GrowsToTheEnd(roots: seq<RawRoot>, first: RawRoot, last: RawRoot)
    requires GrowsThrough(roots, first, last)
    ensures Grows(first, last)
  {
    if roots != [] {
      GrowsFrom(roots, first, last, |roots| - 1);
    }
  }

  lemma NothingToResume(roots: seq<RawRoot>, first: RawRoot, last: RawRoot, scope: Scope, selected: seq<CellId>)
    requires GrowsThrough(roots, first, last) && |roots| == |selected| && AllTurned(roots, scope, selected, false)
    ensures forall i :: 0 <= i < |selected| ==> !HasAttemptOf(first, scope, selected[i])
  {
    forall i | 0 <= i < |selected| ensures !HasAttemptOf(first, scope, selected[i]) {
      GrowsFrom(roots, first, last, i);
      assert Turned(roots[i], scope, selected[i], false);
      if HasAttemptOf(first, scope, selected[i]) {
        HasAttemptStays(first, roots[i], scope, selected[i]);
      }
    }
  }

  /** In an accepted root the chain says whether the cell was attempted and whether it is complete. */
  lemma ChainDecides(raw: RawRoot, scope: Scope, cell: CellId, c: seq<Record>)
    requires Sound(raw, scope) && ChainOf(c, ReservationsOf(raw), KeyOf(scope, cell))
    ensures c != [] <==> HasAttemptOf(raw, scope, cell)
    ensures !IsOpen(c) <==> HasComplete(raw, scope, cell)
    ensures HasComplete(raw, scope, cell) ==> HasAttemptOf(raw, scope, cell)
  {
    ChainShowsAttempt(raw, scope, cell, c);
    if !IsOpen(c) {
      ChainShowsComplete(raw, scope, cell, c);
    }
    if HasComplete(raw, scope, cell) {
      var name :| name in raw && IsCompleteOf(raw[name], KeyOf(scope, cell));
      CompleteClosesChain(ReservationsOf(raw), KeyOf(scope, cell), c, raw[name].bundle.value.record);
    }
  }

  lemma RefusalIsJustified(inv: Inventory, raw: RawRoot, scope: Scope, cell: CellId, candidate: AttemptId)
    requires Accepts(raw, scope) && Describes(inv, raw, scope) && IsOpen(ChainIn(inv, cell))
    requires Allocate(inv, scope, cell, candidate).Err?
    ensures Refuses(raw, scope, cell, Allocate(inv, scope, cell, candidate).error)
  {
    var c := ChainIn(inv, cell);
    assert ChainOf(c, ReservationsOf(raw), KeyOf(scope, cell));
    OrderedRecoversChain(c, c, ReservationsOf(raw), KeyOf(scope, cell));
  }

  /** A verified outcome is in the root, and sound if nothing else was added. */
  lemma VerifiedAttempt(before: RawRoot, after: RawRoot, a: Allocation, outcome: RunOutcome, disciplined: bool)
    requires Sound(before, a.scope) && IsNext(ReservationsOf(before), a) && Verified(after, a, outcome)
    requires disciplined ==> exists name: nat :: AddsAtMost(before, after, name)
    ensures disciplined ==> Sound(after, a.scope)
    ensures outcome.status == Complete ==> HasComplete(after, a.scope, a.cell)
  {
    PublishedIsEntry(after[a.attemptId], a, outcome.status);
    if disciplined {
      OutcomeIsPublication(before, after, a, outcome.status);
      PublishKeepsSound(before, a, outcome.status, a.scope);
    }
    if outcome.status == Complete {
      assert IsCompleteOf(after[a.attemptId], KeyOf(a.scope, a.cell));
    }
  }

  lemma OutcomeIsPublication(before: RawRoot, after: RawRoot, a: Allocation, status: Status)
    requires RootOk(before) && IsNext(ReservationsOf(before), a)
    requires exists name: nat :: AddsAtMost(before, after, name)
    requires a.attemptId in after && after[a.attemptId] == EntryFor(a, status)
    ensures a.attemptId !in before && after == before[a.attemptId := EntryFor(a, status)]
  {
    assert a.attemptId in before ==> !IsAttempt(before[a.attemptId]);
    var name: nat :| AddsAtMost(before, after, name);
    assert after.Keys == before.Keys + {a.attemptId};
  }

  /**
    * The verification looks at the allocated bundle alone: beside it a runner may leave a second, broken
    * entry, and the attempt still counts while the root is no longer one any inventory accepts.
    */
  lemma SecondBundleIsNotNoticed(before: RawRoot, a: Allocation, status: Status, other: nat) returns (after: RawRoot)
    requires Sound(before, a.scope) && IsNext(ReservationsOf(before), a) && a.attemptId !in before
    requires other !in before && other != a.attemptId
    ensures Grows(before, after) && after.Keys == before.Keys + {a.attemptId, other}
    ensures a.attemptId in after && after[a.attemptId] == EntryFor(a, status)
    ensures !RootOk(after)
  {
    after := before[a.attemptId := EntryFor(a, status)][other := Entry(true, None)];
    assert !EntryOk(other, after[other]);
  }

  // ----- The analysis side: one terminal attempt per cell -----

  datatype ScheduleSchema = SchemaOne | SchemaTwo

  /** The registered schedule the analysis was given; the first schema has no stage and no budget. */
  datatype Registered = Registered(schema: ScheduleSchema, stage: Option<string>, schedule: string,
                                   maxAttempts: Option<nat>)

  datatype SelectionError =
    | WrongSchema | WrongSchedule | WrongStage | SeveralScopes | BudgetExceeded | NumbersNotContiguous
    | InvalidPredecessor | ContinuesAfterComplete | NoCompleteTerminal

  ghost predicate SameScope(a: Record, b: Record) {
    (a.key.stage, a.key.schedule, a.key.config, a.key.commit)
    == (b.key.stage, b.key.schedule, b.key.config, b.key.commit)
  }

  function AttemptsOf(bundles: seq<Record>, cell: CellId): seq<Record> {
    if bundles == [] then []
    else if bundles[0].key.cell == cell then [bundles[0]] + AttemptsOf(bundles[1..], cell)
    else AttemptsOf(bundles[1..], cell)
  }

  lemma {:induction false} AttemptsOfMembers(bundles: seq<Record>, cell: CellId)
    ensures forall x :: x in AttemptsOf(bundles, cell) <==> x in bundles && x.key.cell == cell
  {
    if bundles != [] {
      AttemptsOfMembers(bundles[1..], cell);
    }
  }

  function CellsOf(bundles: seq<Record>): set<CellId> {
    set b | b in bundles :: b.key.cell
  }

  /** The chain of one cell as the analysis wants it. */
  ghost predicate Terminated(attempts: seq<Record>, maxAttempts: Option<nat>) {
    && maxAttempts.Some? && |attempts| <= maxAttempts.value
    && IsChain(Ordered(attempts))
    && !IsOpen(Ordered(attempts))
  }

  /** All bundles are of the registered schedule and stage, and of one scope. */
  ghost predicate OneScope(bundles: seq<Record>, schedule: string, stage: Option<string>) {
    && (forall b :: b in bundles ==> b.key.schedule == schedule && Some(b.key.stage) == stage)
    && (forall a, b :: a in bundles && b in bundles ==> SameScope(a, b))
  }

  ghost predicate AllTerminated(bundles: seq<Record>, cells: set<CellId>, maxAttempts: Option<nat>) {
    forall cell :: cell in cells ==> Terminated(AttemptsOf(bundles, cell), maxAttempts)
  }

  ghost predicate Selectable(bundles: seq<Record>, reg: Registered) {
    && reg.schema == SchemaTwo
    && bundles != []
    && OneScope(bundles, reg.schedule, reg.stage)
    && AllTerminated(bundles, CellsOf(bundles), reg.maxAttempts)
  }

  method CheckTerminalLinks(ordered: seq<Record>) returns (e: Option<SelectionError>)
    ensures e.None? <==> IsLinked(ordered) && forall i :: 0 <= i < |ordered| - 1 ==> ordered[i].status == Incomplete
  {
    var predecessor: Option<AttemptId> := None;
    var completeSeen := false;
    for i := 0 to |ordered|
      invariant predecessor == if i == 0 then None else Some(ordered[i - 1].attemptId)
      invariant completeSeen <==> i > 0 && ordered[i - 1].status == Complete
      invariant forall k :: 0 <= k < i - 1 ==> ordered[k].status == Incomplete
      invariant forall k :: 0 <= k < i ==> LinkAt(ordered, k)
    {
      if ordered[i].supersedes != predecessor {
        assert !LinkAt(ordered, i);
        return Some(InvalidPredecessor);
      }
      if completeSeen {
        return Some(ContinuesAfterComplete);
      }
      if ordered[i].status == Complete {
        completeSeen := true;
      }
      predecessor := Some(ordered[i].attemptId);
    }
    return None;
  }

  method NumbersContiguous(ordered: seq<Record>) returns (ok: bool)
    ensures ok <==> forall i :: 0 <= i < |ordered| ==> ordered[i].number == i + 1
  {
    for i := 0 to |ordered|
      invariant forall k :: 0 <= k < i ==> ordered[k].number == k + 1
    {
      if ordered[i].number != i + 1 {
        return false;
      }
    }
    return true;
  }

  method SelectTerminalOfCell(attempts: seq<Record>, maxAttempts: Option<nat>)
    returns (r: Result<Record, SelectionError>)
    requires attempts != []
    ensures r.Ok? <==> Terminated(attempts, maxAttempts)
    ensures r.Ok? ==> r.value == Ordered(attempts)[|Ordered(attempts)| - 1] && r.value.status == Complete
  {
    var ordered := Ordered(attempts);
    SortSorts(attempts, ByNumber());
    if maxAttempts.None? || |ordered| > maxAttempts.value {
      return Err(BudgetExceeded);
    }
    var contiguous := NumbersContiguous(ordered);
    if !contiguous {
      return Err(NumbersNotContiguous);
    }
    NumberedIsChain(ordered);
    var bad := CheckTerminalLinks(ordered);
    if bad.Some? {
      return Err(bad.value);
    }
    if ordered[|ordered| - 1].status != Complete {
      return Err(NoCompleteTerminal);
    }
    return Ok(ordered[|ordered| - 1]);
  }

  /** `b` is the last attempt of its cell and the only complete one. */
  ghost predicate IsTerminalOf(b: Record, bundles: seq<Record>, cell: CellId) {
    && b in bundles && b.key.cell == cell && b.status == Complete
    && (forall x :: x in bundles && x.key.cell == cell && x != b ==> x.status == Incomplete && x.number < b.number)
  }

  lemma TerminatedSelects(bundles: seq<Record>, cell: CellId, maxAttempts: Option<nat>)
    requires Terminated(AttemptsOf(bundles, cell), maxAttempts)
    ensures var c := Ordered(AttemptsOf(bundles, cell)); c != [] && IsTerminalOf(c[|c| - 1], bundles, cell)
  {
    var list := AttemptsOf(bundles, cell);
    var c := Ordered(list);
    AttemptsOfMembers(bundles, cell);
    SortSorts(list, ByNumber());
    SameElements(list, c);
    assert c[|c| - 1] in c;
    forall x | x in bundles && x.key.cell == cell && x != c[|c| - 1]
      ensures x.status == Incomplete && x.number < c[|c| - 1].number
    {
      assert x in c;
      var i :| 0 <= i < |c| && c[i] == x;
    }
  }

  ghost predicate Picked(selected: seq<Record>, cell: CellId) {
    exists i :: 0 <= i < |selected| && selected[i].key.cell == cell
  }

  /** Exactly one bundle per cell, in cell order: the cell's last and only complete attempt. */
  ghost predicate IsSelection(selected: seq<Record>, bundles: seq<Record>) {
    && (forall i :: 0 <= i < |selected| ==> IsTerminalOf(selected[i], bundles, selected[i].key.cell))
    && (forall i, j :: 0 <= i < j < |selected| ==> selected[i].key.cell < selected[j].key.cell)
    && (forall cell :: cell in CellsOf(bundles) ==> Picked(selected, cell))
  }

  /** The cells that occur in `bundles`, each once, as the keys of a dictionary. */
  method CellKeys(bundles: seq<Record>) returns (keys: seq<CellId>)
    ensures Distinct(keys) && forall cell :: cell in keys <==> cell in CellsOf(bundles)
  {
    keys := [];
    for i := 0 to |bundles|
      invariant Distinct(keys)
      invariant forall k :: 0 <= k < i ==> bundles[k].key.cell in keys
      invariant forall cell :: cell in keys ==> cell in CellsOf(bundles)
    {
      if bundles[i].key.cell !in keys {
        keys := keys + [bundles[i].key.cell];
      }
    }
  }

  method CheckScope(bundles: seq<Record>, reg: Registered) returns (e: Option<SelectionError>)
    ensures e.None? <==> bundles != [] && OneScope(bundles, reg.schedule, reg.stage)
  {
    for i := 0 to |bundles|
      invariant forall k :: 0 <= k < i ==>
        bundles[k].key.schedule == reg.schedule && Some(bundles[k].key.stage) == reg.stage
    {
      if bundles[i].key.schedule != reg.schedule {
        return Some(WrongSchedule);
      }
      if Some(bundles[i].key.stage) != reg.stage {
        return Some(WrongStage);
      }
    }
    if bundles == [] {
      return Some(SeveralScopes);
    }
    for i := 0 to |bundles|
      invariant forall k :: 0 <= k < i ==> SameScope(bundles[k], bundles[0])
    {
      var a, b := bundles[i].key, bundles[0].key;
      if (a.stage, a.schedule, a.config, a.commit) != (b.stage, b.schedule, b.config, b.commit) {
        assert bundles[0] in bundles && bundles[i] in bundles && !SameScope(bundles[i], bundles[0]);
        return Some(SeveralScopes);
      }
    }
    return None;
  }

  /** The dictionary keys in ascending order. */
  method SortedCells(bundles: seq<Record>) returns (cells: seq<CellId>)
    ensures forall i, j :: 0 <= i < j < |cells| ==> cells[i] < cells[j]
    ensures forall cell :: cell in cells <==> cell in CellsOf(bundles)
  {
    var keys := CellKeys(bundles);
    cells := Sort(keys, NatOrder());
    SortSorts(keys, NatOrder());
    DistinctPermutes(keys, cells);
    SameElements(keys, cells);
    forall i, j | 0 <= i < j < |cells| ensures cells[i] < cells[j] {
      assert NatOrder()(cells[i], cells[j]);
    }
  }

  lemma CellHasAttempts(bundles: seq<Record>, cell: CellId)
    requires cell in CellsOf(bundles)
    ensures AttemptsOf(bundles, cell) != []
  {
    AttemptsOfMembers(bundles, cell);
    var b :| b in bundles && b.key.cell == cell;
    assert b in AttemptsOf(bundles, cell);
  }

  method SelectOne(bundles: seq<Record>, cell: CellId, maxAttempts: Option<nat>)
    returns (r: Result<Record, SelectionError>)
    requires cell in CellsOf(bundles)
    ensures r.Ok? <==> Terminated(AttemptsOf(bundles, cell), maxAttempts)
    ensures r.Ok? ==> IsTerminalOf(r.value, bundles, cell)
  {
    CellHasAttempts(bundles, cell);
    r := SelectTerminalOfCell(AttemptsOf(bundles, cell), maxAttempts);
    if r.Ok? {
      TerminatedSelects(bundles, cell, maxAttempts);
    }
  }

  method SelectEach(bundles: seq<Record>, cells: seq<CellId>, maxAttempts: Option<nat>)
    returns (r: Result<seq<Record>, SelectionError>)
    requires forall i :: 0 <= i < |cells| ==> cells[i] in CellsOf(bundles)
    ensures r.Ok? <==> forall i :: 0 <= i < |cells| ==> Terminated(AttemptsOf(bundles, cells[i]), maxAttempts)
    ensures r.Ok? ==> |r.value| == |cells|
    ensures r.Ok? ==> forall i :: 0 <= i < |cells| ==> IsTerminalOf(r.value[i], bundles, cells[i])
  {
    var selected: seq<Record> := [];
    for i := 0 to |cells|
      invariant |selected| == i
      invariant forall k :: 0 <= k < i ==>
        Terminated(AttemptsOf(bundles, cells[k]), maxAttempts) && IsTerminalOf(selected[k], bundles, cells[k])
    {
      var cell := cells[i];
      var terminal := SelectOne(bundles, cell, maxAttempts);
      if terminal.Err? {
        return Err(terminal.error);
      }
      selected := selected + [terminal.value];
    }
    return Ok(selected);
  }

  method SelectTerminalAttempts(bundles: seq<Record>, reg: Registered)
    returns (r: Result<seq<Record>, SelectionError>)
    ensures r.Ok? <==> Selectable(bundles, reg)
    ensures r.Ok? ==> IsSelection(r.value, bundles)
  {
    if reg.schema != SchemaTwo {
      return Err(WrongSchema);
    }
    var e := CheckScope(bundles, reg);
    if e.Some? {
      return Err(e.value);
    }
    var cells := SortedCells(bundles);
    assert forall i :: 0 <= i < |cells| ==> cells[i] in cells;
    r := SelectEach(bundles, cells, reg.maxAttempts);
    if r.Ok? {
      forall cell | cell in CellsOf(bundles) ensures Picked(r.value, cell) {
        var i :| 0 <= i < |cells| && cells[i] == cell;
        assert r.value[i].key.cell == cell;
      }
    }
  }

  // ----- What a campaign leaves for the analysis -----

  /** The campaign's own schedule, as the analysis reads it. */
  function RegisteredAs(scope: Scope): Registered {
    Registered(SchemaTwo, Some(scope.stage), scope.schedule, Some(scope.maxAttempts))
  }

  /** `bundles` are the registered attempts of the dataset found in `raw`, in any order. */
  ghost predicate BundlesOf(bundles: seq<Record>, raw: RawRoot, scope: Scope)
    requires RootOk(raw)
  {
    && Distinct(bundles)
    && (forall b :: b in bundles <==> InGroup(ReservationsOf(raw), b.key, b) && b.key.dataset == scope.dataset)
  }

  lemma BundleIsRegistered(bundles: seq<Record>, raw: RawRoot, scope: Scope, b: Record)
    requires Sound(raw, scope) && BundlesOf(bundles, raw, scope) && b in bundles
    ensures b.key.cell in scope.cells && b.key == KeyOf(scope, b.key.cell)
  {
    assert InGroup(ReservationsOf(raw), b.key, b);
    assert InDataset(raw[b.attemptId], scope);
  }

  lemma {:induction false} AttemptsOfDistinct(bundles: seq<Record>, cell: CellId)
    requires Distinct(bundles)
    ensures Distinct(AttemptsOf(bundles, cell))
  {
    if bundles != [] {
      AttemptsOfMembers(bundles[1..], cell);
      AttemptsOfDistinct(bundles[1..], cell);
    }
  }

  lemma AttemptsListGroup(bundles: seq<Record>, raw: RawRoot, scope: Scope, cell: CellId)
    requires Sound(raw, scope) && BundlesOf(bundles, raw, scope)
    ensures Lists(AttemptsOf(bundles, cell), ReservationsOf(raw), KeyOf(scope, cell))
  {
    var g, rs := KeyOf(scope, cell), ReservationsOf(raw);
    AttemptsOfDistinct(bundles, cell);
    AttemptsOfMembers(bundles, cell);
    forall r ensures r in AttemptsOf(bundles, cell) <==> InGroup(rs, g, r) {
      if r in bundles {
        BundleIsRegistered(bundles, raw, scope, r);
      }
    }
  }

  lemma CompleteCellTerminated(bundles: seq<Record>, raw: RawRoot, scope: Scope, cell: CellId)
    requires Sound(raw, scope) && BundlesOf(bundles, raw, scope) && CellComplete(raw, scope, cell)
    ensures Terminated(AttemptsOf(bundles, cell), Some(scope.maxAttempts))
    ensures cell in CellsOf(bundles)
  {
    var g, rs, list := KeyOf(scope, cell), ReservationsOf(raw), AttemptsOf(bundles, cell);
    AttemptsListGroup(bundles, raw, scope, cell);
    var c :| ChainOf(c, rs, g) && !IsOpen(c);
    OrderedRecoversChain(c, list, rs, g);
    SortSorts(list, ByNumber());
    assert |c| <= scope.maxAttempts;
    assert c[0] in c && InGroup(rs, g, c[0]);
    AttemptsOfMembers(bundles, cell);
    assert c[0] in list;
  }

  lemma BundlesShareScope(bundles: seq<Record>, raw: RawRoot, scope: Scope)
    requires Sound(raw, scope) && BundlesOf(bundles, raw, scope)
    ensures OneScope(bundles, scope.schedule, Some(scope.stage))
    ensures CellsOf(bundles) <= scope.cells.Keys
  {
    forall b | b in bundles ensures b.key.cell in scope.cells && b.key == KeyOf(scope, b.key.cell) {
      BundleIsRegistered(bundles, raw, scope, b);
    }
  }

  lemma CompleteCellsTerminated(bundles: seq<Record>, raw: RawRoot, scope: Scope)
    requires Sound(raw, scope) && BundlesOf(bundles, raw, scope)
    requires AllComplete(raw, scope)
    ensures AllTerminated(bundles, scope.cells.Keys, Some(scope.maxAttempts))
    ensures scope.cells.Keys <= CellsOf(bundles)
  {
    forall cell | cell in scope.cells
      ensures Terminated(AttemptsOf(bundles, cell), Some(scope.maxAttempts)) && cell in CellsOf(bundles)
    {
      CompleteCellTerminated(bundles, raw, scope, cell);
    }
  }

  /**
   * When a campaign has completed every registered cell, the analysis accepts the evidence and
   * selects for the registered cells and no others.
   */
  lemma CompletedCampaignIsSelectable(raw: RawRoot, scope: Scope, bundles: seq<Record>, reg: Registered)
    requires Sound(raw, scope) && BundlesOf(bundles, raw, scope) && scope.cells.Keys != {}
    requires AllComplete(raw, scope)
    requires reg == RegisteredAs(scope)
    ensures Selectable(bundles, reg)
    ensures CellsOf(bundles) == scope.cells.Keys
  {
    BundlesShareScope(bundles, raw, scope);
    CompleteCellsTerminated(bundles, raw, scope);
    assert CellsOf(bundles) == scope.cells.Keys;
    assert bundles == [] ==> CellsOf(bundles) == {};
  }

  // ----- The dataset validator's own reading of a chain -----

  datatype ChainError = ExceedsBudget | BrokenNumbers | BadPredecessor | IdentityDrifts | AfterComplete | NotComplete

  /** The manifest fields of an attempt that are not in its record. */
  type Design = AttemptId -> (nat, CellIdentity)

  /** Stage, schedule, configuration, seed and design tuple: the same along a chain. */
  predicate SameIdentity(a: Record, b: Record, design: Design) {
    (a.key.stage, a.key.schedule, a.key.config) == (b.key.stage, b.key.schedule, b.key.config)
    && design(a.attemptId) == design(b.attemptId)
  }

  /** No two attempts of the list differ in any of these. */
  ghost predicate OneIdentity(attempts: seq<Record>, design: Design) {
    forall a, b :: a in attempts && b in attempts ==>
      && a.key.stage == b.key.stage && a.key.schedule == b.key.schedule && a.key.config == b.key.config
      && design(a.attemptId).0 == design(b.attemptId).0 && design(a.attemptId).1 == design(b.attemptId).1
  }

  /** Errors are collected, not raised; a chain with broken numbers is not looked at further. */
  method ChainErrors(attempts: seq<Record>, design: Design, maxAttempts: nat, requireComplete: bool)
    returns (errors: seq<ChainError>)
    requires attempts != []
    ensures errors == [] <==>
      && |attempts| <= maxAttempts
      && IsChain(Ordered(attempts))
      && OneIdentity(attempts, design)
      && (requireComplete ==> !IsOpen(Ordered(attempts)))
  {
    var ordered := Ordered(attempts);
    SortSorts(attempts, ByNumber());
    errors := if |ordered| > maxAttempts then [ExceedsBudget] else [];
    var bad := CheckNumbers(ordered);
    if bad.Some? {
      return errors + [BrokenNumbers];
    }
    NumberedIsChain(ordered);
    var found := LinkErrors(ordered, design);
    FirstDecides(attempts, ordered, design);
    errors := errors + found;
    if ordered[|ordered| - 1].status != Complete && requireComplete {
      errors := errors + [NotComplete];
    }
  }

  /** None differs exactly if none differs from the first in order. */
  lemma FirstDecides(attempts: seq<Record>, ordered: seq<Record>, design: Design)
    requires ordered != [] && multiset(ordered) == multiset(attempts)
    ensures OneIdentity(attempts, design) <==>
      forall i :: 0 <= i < |ordered| ==> SameIdentity(ordered[i], ordered[0], design)
  {
    SameElements(attempts, ordered);
    assert ordered[0] in ordered;
    if forall i :: 0 <= i < |ordered| ==> SameIdentity(ordered[i], ordered[0], design) {
      forall a | a in attempts ensures SameIdentity(a, ordered[0], design) {
        var i :| 0 <= i < |ordered| && ordered[i] == a;
      }
    }
    if OneIdentity(attempts, design) {
      forall i | 0 <= i < |ordered| ensures SameIdentity(ordered[i], ordered[0], design) {
        assert ordered[i] in ordered;
      }
    }
  }

  lemma NumberedIsChain(c: seq<Record>)
    requires forall i :: 0 <= i < |c| ==> c[i].number == i + 1
    ensures IsChain(c) <==> IsLinked(c) && forall i :: 0 <= i < |c| - 1 ==> c[i].status == Incomplete
  {
  }

  method LinkErrors(ordered: seq<Record>, design: Design) returns (errors: seq<ChainError>)
    ensures errors == [] <==>
      && IsLinked(ordered)
      && (forall i :: 0 <= i < |ordered| ==> SameIdentity(ordered[i], ordered[0], design))
      && (forall i :: 0 <= i < |ordered| - 1 ==> ordered[i].status == Incomplete)
  {
    errors := [];
    var expected: Option<AttemptId> := None;
    var completeSeen := false;
    for i := 0 to |ordered|
      invariant expected == if i == 0 then None else Some(ordered[i - 1].attemptId)
      invariant completeSeen <==> exists k :: 0 <= k < i && ordered[k].status == Complete
      invariant errors == [] <==>
        && (forall k :: 0 <= k < i ==> LinkAt(ordered, k))
        && (forall k :: 0 <= k < i ==> SameIdentity(ordered[k], ordered[0], design))
        && (forall k :: 0 <= k < i - 1 ==> ordered[k].status == Incomplete)
    {
      assert LinkAt(ordered, i) <==> ordered[i].supersedes == expected;
      if ordered[i].supersedes != expected {
        errors := errors + [BadPredecessor];
      }
      if !SameIdentity(ordered[i], ordered[0], design) {
        errors := errors + [IdentityDrifts];
      }
      if completeSeen {
        errors := errors + [AfterComplete];
      }
      if ordered[i].status == Complete {
        completeSeen := true;
      }
      expected := Some(ordered[i].attemptId);
    }
  }
}
