/** Campaign processes sharing one evidence root: every interleaving keeps the inventory sound. */
module Campaign {
  import opened Common
  import opened Sorting
  import opened Attempts
  import opened RawInventory

  type Proc = nat

  /** Where a campaign process is inside its lock-protected loop. */
  datatype Phase = Idle | Holding | Allocated(a: Allocation) | Staged(a: Allocation)

  datatype State = State(raw: RawRoot, staging: set<nat>, holder: Option<Proc>, phase: map<Proc, Phase>)

  datatype Event = Acquire | AllocateCell(cell: CellId, candidate: AttemptId) | Stage | Publish(status: Status) | Leave

  // ----- Publishing the next attempt keeps the root sound -----

  function EntryFor(a: Allocation, status: Status): Entry
    requires a.cell in a.scope.cells
  {
    Entry(true, Some(Attempt(RecordOf(a, status), a.scope.seed, a.scope.cells[a.cell])))
  }

  ghost function WithRecord(rs: Reservations, r: Record): Reservations
    requires r.number >= 1
  {
    rs[r.attemptId := r]
  }

  lemma InsertKeepsOtherChain(rs: Reservations, r: Record, g: ScopeKey, c: seq<Record>)
    requires r.number >= 1 && r.attemptId !in rs && ChainOf(c, rs, g) && g != r.key
    ensures ChainOf(c, WithRecord(rs, r), g)
  {
    forall x ensures x in c <==> InGroup(WithRecord(rs, r), g, x) {
      assert x in c <==> InGroup(rs, g, x);
    }
  }

  lemma InsertExtendsChain(rs: Reservations, r: Record, c: seq<Record>)
    requires r.number >= 1 && r.attemptId !in rs && ChainOf(c, rs, r.key) && IsChain(c + [r])
    ensures ChainOf(c + [r], WithRecord(rs, r), r.key)
  {
    var g, after := r.key, WithRecord(rs, r);
    forall x ensures x in c + [r] <==> InGroup(after, g, x) {
      assert x in c <==> InGroup(rs, g, x);
    }
    assert r !in c by {
      assert r in c <==> InGroup(rs, g, r);
    }
  }

  lemma InsertKeepsPasses(rs: Reservations, a: Allocation, status: Status)
    requires PassesAll(rs) && IsNext(rs, a) && a.number >= 1
    ensures PassesAll(WithRecord(rs, RecordOf(a, status)))
  {
    var r := RecordOf(a, status);
    PassesIffChains(rs);
    forall g ensures GroupIsChain(WithRecord(rs, r), g) {
      assert GroupIsChain(rs, g);
      if g == r.key {
        var c :| ChainOf(c, rs, g) && |c| < a.scope.maxAttempts && Extends(c, a);
        InsertExtendsChain(rs, r, c);
      } else {
        var c :| ChainOf(c, rs, g);
        InsertKeepsOtherChain(rs, r, g, c);
      }
    }
    PassesIffChains(WithRecord(rs, r));
  }

  lemma InsertKeepsBudget(rs: Reservations, a: Allocation, status: Status, scope: Scope)
    requires PassesAll(rs) && IsNext(rs, a) && a.number >= 1 && WithinBudget(rs, scope)
    requires a.scope == scope || a.scope.dataset != scope.dataset
    ensures WithinBudget(WithRecord(rs, RecordOf(a, status)), scope)
  {
    var r := RecordOf(a, status);
    var after := WithRecord(rs, r);
    PassesIffChains(rs);
    forall cell, d | ChainOf(d, after, KeyOf(scope, cell)) ensures |d| <= scope.maxAttempts {
      var g := KeyOf(scope, cell);
      assert GroupIsChain(rs, g);
      if g == r.key {
        var c :| ChainOf(c, rs, g) && |c| < a.scope.maxAttempts && Extends(c, a);
        InsertExtendsChain(rs, r, c);
        ChainsAgree(d, c + [r], after, g);
      } else {
        var c :| ChainOf(c, rs, g);
        InsertKeepsOtherChain(rs, r, g, c);
        ChainsAgree(d, c, after, g);
      }
    }
  }

  lemma NextIsPositive(rs: Reservations, a: Allocation)
    requires IsNext(rs, a)
    ensures a.number >= 1
  {
    var c :| ChainOf(c, rs, KeyOf(a.scope, a.cell)) && |c| < a.scope.maxAttempts && Extends(c, a);
    assert IsChain(c + [RecordOf(a, Complete)]);
    assert (c + [RecordOf(a, Complete)])[|c|].number == |c| + 1;
  }

  lemma PublishedReservations(raw: RawRoot, a: Allocation, status: Status)
    requires RootOk(raw) && a.number >= 1 && a.cell in a.scope.cells && a.attemptId !in raw
    ensures RootOk(raw[a.attemptId := EntryFor(a, status)])
    ensures ReservationsOf(raw[a.attemptId := EntryFor(a, status)])
      == WithRecord(ReservationsOf(raw), RecordOf(a, status))
  {
  }

  lemma PublishKeepsSound(raw: RawRoot, a: Allocation, status: Status, scope: Scope)
    requires Sound(raw, scope) && IsNext(ReservationsOf(raw), a) && a.attemptId !in raw
    requires a.scope == scope || a.scope.dataset != scope.dataset
    ensures Sound(raw[a.attemptId := EntryFor(a, status)], scope)
  {
    NextIsPositive(ReservationsOf(raw), a);
    PublishedReservations(raw, a, status);
    InsertKeepsPasses(ReservationsOf(raw), a, status);
    InsertKeepsBudget(ReservationsOf(raw), a, status, scope);
  }

  // ----- The step system -----

  ghost function TheInventory(raw: RawRoot, scope: Scope): (inv: Inventory)
    requires Sound(raw, scope)
    ensures Describes(inv, raw, scope)
  {
    var rs := ReservationsOf(raw);
    var inv := Inventory(scope, rs, map cell | cell in scope.cells && GroupListing(rs, KeyOf(scope, cell)) != []
                                      :: Ordered(GroupListing(rs, KeyOf(scope, cell))));
    InventoryDescribes(raw, scope, inv);
    inv
  }

  lemma InventoryDescribes(raw: RawRoot, scope: Scope, inv: Inventory)
    requires Sound(raw, scope) && inv.scope == scope && inv.byAttempt == ReservationsOf(raw)
    requires inv.byCell == map cell |
      cell in scope.cells && GroupListing(inv.byAttempt, KeyOf(scope, cell)) != []
      :: Ordered(GroupListing(inv.byAttempt, KeyOf(scope, cell)))
    ensures Describes(inv, raw, scope)
  {
    var rs := inv.byAttempt;
    forall cell ensures ChainOf(ChainIn(inv, cell), rs, KeyOf(scope, cell)) {
      if cell in scope.cells {
        PassesAllGivesChain(rs, KeyOf(scope, cell));
      } else {
        UnregisteredCellsAreEmpty(raw, scope, cell);
      }
    }
    forall cell | cell in inv.byCell ensures inv.byCell[cell] != [] {
      SortSorts(GroupListing(rs, KeyOf(scope, cell)), ByNumber());
    }
  }

  /** Unlocking, an ordinary error and a crash all end the same way: the kernel drops the lock. */
  ghost function Left(s: State, p: Proc): State
    requires p in s.phase
  {
    s.(holder := if s.holder == Some(p) then None else s.holder, phase := s.phase[p := Idle])
  }

  ghost function Step(scopes: map<Proc, Scope>, s: State, p: Proc, e: Event): State
    requires p in scopes && s.phase.Keys == scopes.Keys
  {
    match (e, s.phase[p])
    case (Acquire, Idle) =>
      if s.holder.None? && s.staging == {} then s.(holder := Some(p), phase := s.phase[p := Holding]) else s
    case (AllocateCell(cell, candidate), Holding) =>
      if !Accepts(s.raw, scopes[p]) then Left(s, p)
      else
        var r := Allocate(TheInventory(s.raw, scopes[p]), scopes[p], cell, candidate);
        if r.Err? then Left(s, p) else s.(phase := s.phase[p := Allocated(r.value)])
    case (Stage, Allocated(a)) =>
      if a.attemptId in s.staging || a.attemptId in s.raw then Left(s, p)
      else s.(staging := s.staging + {a.attemptId}, phase := s.phase[p := Staged(a)])
    case (Publish(status), Staged(a)) =>
      if a.cell !in a.scope.cells || a.attemptId in s.raw then Left(s, p)
      else s.(raw := s.raw[a.attemptId := EntryFor(a, status)], staging := s.staging - {a.attemptId},
              phase := s.phase[p := Holding])
    case (Leave, _) => Left(s, p)
    case _ => s
  }

  ghost function Run(scopes: map<Proc, Scope>, s: State, events: seq<(Proc, Event)>): State
    requires s.phase.Keys == scopes.Keys
    requires forall i :: 0 <= i < |events| ==> events[i].0 in scopes
    decreases |events|
  {
    if events == [] then s
    else Run(scopes, Step(scopes, s, events[0].0, events[0].1), events[1..])
  }

  /** Only the lock holder is inside the loop, and its allocation is still the next one. */
  ghost predicate PhaseOk(scopes: map<Proc, Scope>, s: State, p: Proc)
    requires p in scopes && p in s.phase && RootOk(s.raw)
  {
    && (s.phase[p] != Idle <==> s.holder == Some(p))
    && (s.phase[p].Allocated? || s.phase[p].Staged? ==>
      s.phase[p].a.scope == scopes[p] && IsNext(ReservationsOf(s.raw), s.phase[p].a))
    && (s.phase[p].Staged? ==> s.phase[p].a.attemptId in s.staging - s.raw.Keys)
  }

  ghost predicate Inv(scopes: map<Proc, Scope>, s: State) {
    && s.phase.Keys == scopes.Keys
    && RootOk(s.raw)
    && (forall p :: p in scopes ==> PhaseOk(scopes, s, p))
  }

  /** The processes of the dataset of `scope` all use `scope` itself. */
  ghost predicate Compatible(scopes: map<Proc, Scope>, scope: Scope) {
    forall p :: p in scopes ==> scopes[p] == scope || scopes[p].dataset != scope.dataset
  }

  ghost predicate Grows(before: RawRoot, after: RawRoot) {
    forall name :: name in before ==> name in after && after[name] == before[name]
  }

  /** An empty root with idle processes is where every campaign may start. */
  lemma EmptyRootStarts(scopes: map<Proc, Scope>, scope: Scope)
    ensures Sound(map[], scope)
    ensures Inv(scopes, State(map[], {}, None, map p | p in scopes :: Idle))
  {
    var rs := ReservationsOf(map[]);
    forall g, list | Lists(list, rs, g) ensures list == [] {
      assert list != [] ==> list[0] in list && InGroup(rs, g, list[0]);
    }
    forall g ensures GroupIsCounted(rs, g) {
    }
  }

  lemma StepKeepsRootOk(scopes: map<Proc, Scope>, s: State, p: Proc, e: Event)
    requires Inv(scopes, s) && p in scopes
    ensures RootOk(Step(scopes, s, p, e).raw)
    ensures (e.Publish? && s.phase[p].Staged?) || Step(scopes, s, p, e).raw == s.raw
  {
    assert PhaseOk(scopes, s, p);
    if e.Publish? && s.phase[p].Staged? {
      NextIsPositive(ReservationsOf(s.raw), s.phase[p].a);
      PublishedReservations(s.raw, s.phase[p].a, e.status);
    }
  }

  lemma StepKeepsOwnPhase(scopes: map<Proc, Scope>, s: State, p: Proc, e: Event)
    requires Inv(scopes, s) && p in scopes && RootOk(Step(scopes, s, p, e).raw)
    ensures PhaseOk(scopes, Step(scopes, s, p, e), p)
  {
    assert PhaseOk(scopes, s, p);
    if e.AllocateCell? && s.phase[p].Holding? && Accepts(s.raw, scopes[p]) {
      AllocationIsNext(TheInventory(s.raw, scopes[p]), s.raw, scopes[p], e.cell, e.candidate);
    }
  }

  lemma StepKeepsOtherPhase(scopes: map<Proc, Scope>, s: State, p: Proc, e: Event, q: Proc)
    requires Inv(scopes, s) && p in scopes && q in scopes && q != p && RootOk(Step(scopes, s, p, e).raw)
    ensures PhaseOk(scopes, Step(scopes, s, p, e), q)
  {
    assert PhaseOk(scopes, s, p) && PhaseOk(scopes, s, q);
  }

  lemma StepKeepsInv(scopes: map<Proc, Scope>, s: State, p: Proc, e: Event)
    requires Inv(scopes, s) && p in scopes
    ensures Inv(scopes, Step(scopes, s, p, e))
  {
    StepKeepsRootOk(scopes, s, p, e);
    forall q | q in scopes ensures PhaseOk(scopes, Step(scopes, s, p, e), q) {
      if q == p {
        StepKeepsOwnPhase(scopes, s, p, e);
      } else {
        StepKeepsOtherPhase(scopes, s, p, e, q);
      }
    }
  }

  lemma StepRaw(scopes: map<Proc, Scope>, s: State, p: Proc, e: Event)
    requires Inv(scopes, s) && p in scopes
    ensures
      var raw := Step(scopes, s, p, e).raw;
      if e.Publish? && s.phase[p].Staged? then
        raw == s.raw[s.phase[p].a.attemptId := EntryFor(s.phase[p].a, e.status)]
      else raw == s.raw
  {
    assert PhaseOk(scopes, s, p);
  }

  lemma StepKeepsSound(scopes: map<Proc, Scope>, s: State, p: Proc, e: Event, scope: Scope)
    requires Inv(scopes, s) && p in scopes && Compatible(scopes, scope) && Sound(s.raw, scope)
    ensures var t := Step(scopes, s, p, e);
      Sound(t.raw, scope) && Grows(s.raw, t.raw)
  {
    assert PhaseOk(scopes, s, p);
    StepRaw(scopes, s, p, e);
    if e.Publish? && s.phase[p].Staged? {
      PublishKeepsSound(s.raw, s.phase[p].a, e.status, scope);
    }
  }

  /** Idle processes over a readable root, whatever was left in staging. */
  ghost predicate Starts(scopes: map<Proc, Scope>, s: State) {
    && s.phase.Keys == scopes.Keys && RootOk(s.raw) && s.holder.None?
    && forall p :: p in scopes ==> s.phase[p] == Idle
  }

  lemma {:induction false} RunKeepsInv(scopes: map<Proc, Scope>, s: State, events: seq<(Proc, Event)>)
    requires Inv(scopes, s) && forall i :: 0 <= i < |events| ==> events[i].0 in scopes
    ensures Inv(scopes, Run(scopes, s, events))
    decreases |events|
  {
    if events != [] {
      StepKeepsInv(scopes, s, events[0].0, events[0].1);
      RunKeepsInv(scopes, Step(scopes, s, events[0].0, events[0].1), events[1..]);
    }
  }

  /** However the processes interleave, fail and crash, no two are ever inside the loop at once. */
  lemma MutualExclusion(scopes: map<Proc, Scope>, s: State, events: seq<(Proc, Event)>)
    requires Starts(scopes, s) && forall i :: 0 <= i < |events| ==> events[i].0 in scopes
    ensures var t := Run(scopes, s, events);
      && t.phase.Keys == scopes.Keys
      && forall p, q :: p in scopes && q in scopes && t.phase[p] != Idle && t.phase[q] != Idle ==> p == q
  {
    var t := Run(scopes, s, events);
    RunKeepsInv(scopes, s, events);
    forall p, q | p in scopes && q in scopes && t.phase[p] != Idle && t.phase[q] != Idle ensures p == q {
      assert PhaseOk(scopes, t, p) && PhaseOk(scopes, t, q);
    }
  }

  /**
   * Whatever the campaigns do and wherever they fail or crash, a sound root stays sound, nothing
   * published is changed, and the inventory accepts it exactly while it is under the entry cap.
   */
  lemma {:induction false} EveryRunKeepsSound(scopes: map<Proc, Scope>, s: State, events: seq<(Proc, Event)>,
                                              scope: Scope)
    requires Inv(scopes, s) && Compatible(scopes, scope) && Sound(s.raw, scope)
    requires forall i :: 0 <= i < |events| ==> events[i].0 in scopes
    ensures var t := Run(scopes, s, events);
      && Inv(scopes, t)
      && Sound(t.raw, scope)
      && Grows(s.raw, t.raw)
      && (Accepts(t.raw, scope) <==> |t.raw| <= MAX_DATASET_BUNDLES)
    decreases |events|
  {
    if events != [] {
      var (p, e) := events[0];
      StepKeepsInv(scopes, s, p, e);
      StepKeepsSound(scopes, s, p, e, scope);
      EveryRunKeepsSound(scopes, Step(scopes, s, p, e), events[1..], scope);
    }
  }

  lemma SamePlace(c: seq<Record>, d: seq<Record>, rs: Reservations, g: ScopeKey, i: nat)
    requires IsChain(c) && i < |c| && ChainOf(d, rs, g) && InGroup(rs, g, c[i])
    ensures i < |d| && d[i] == c[i]
  {
    assert c[i] in d;
    var j :| 0 <= j < |d| && d[j] == c[i];
    assert d[j].number == j + 1 && c[i].number == i + 1;
  }

  /** Chains only grow at the end. */
  lemma ChainsGrow(before: RawRoot, after: RawRoot, scope: Scope, cell: CellId, c: seq<Record>, d: seq<Record>)
    requires RootOk(before) && RootOk(after) && Grows(before, after)
    requires ChainOf(c, ReservationsOf(before), KeyOf(scope, cell))
    requires ChainOf(d, ReservationsOf(after), KeyOf(scope, cell))
    ensures c <= d
  {
    var g := KeyOf(scope, cell);
    forall i | 0 <= i < |c| ensures i < |d| && d[i] == c[i] {
      assert c[i] in c && InGroup(ReservationsOf(before), g, c[i]);
      SamePlace(c, d, ReservationsOf(after), g, i);
    }
    if c != [] {
      var last := |c| - 1;
      assert c[last] == c[last] && last < |d|;
    }
  }

  /** A complete cell is closed: no later run adds an attempt to it. */
  lemma CompleteIsFinal(scopes: map<Proc, Scope>, s: State, events: seq<(Proc, Event)>, scope: Scope,
                        cell: CellId, c: seq<Record>)
    requires Inv(scopes, s) && Compatible(scopes, scope) && Sound(s.raw, scope)
    requires forall i :: 0 <= i < |events| ==> events[i].0 in scopes
    requires ChainOf(c, ReservationsOf(s.raw), KeyOf(scope, cell)) && !IsOpen(c)
    ensures RootOk(Run(scopes, s, events).raw)
    ensures ChainOf(c, ReservationsOf(Run(scopes, s, events).raw), KeyOf(scope, cell))
  {
    var t := Run(scopes, s, events);
    EveryRunKeepsSound(scopes, s, events, scope);
    var g := KeyOf(scope, cell);
    PassesAllGivesChain(ReservationsOf(t.raw), g);
    var d := Ordered(GroupListing(ReservationsOf(t.raw), g));
    ChainsGrow(s.raw, t.raw, scope, cell, c, d);
    assert d[|c| - 1] == c[|c| - 1];
    assert d == c;
  }
}
