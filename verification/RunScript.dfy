/** The calls and writes of one run in order, and which plans of faults lead it to which end. */
module RunScript {
  import opened Common
  import opened Publish
  import opened Bundle

  datatype Call =
    | AssertClean | Setup | Calibrate | StartServer | Impair | RunPhase | StopServer | LabStatus | Cleanup
    | Finalised(status: Status)

  /** A call that was made, and whether it returned. */
  datatype Event = Event(call: Call, ok: bool)

  /** A call to the lab, the server or the executor, or a write that the bundle may refuse. */
  datatype Step = Ask(call: Call) | Write(accepted: bool)

  predicate Accepted(s: Step) {
    s.Write? ==> s.accepted
  }

  // ----- What one run is given -----

  /** A packet row and the bundle's verdict on it, duplicates aside. */
  datatype Row = Row(sequence: nat, accepted: bool)

  /** The paths to impair, and what the executor hands back, with the bundle's verdict on each event. */
  datatype Phase = Phase(paths: nat, started: bool, rows: seq<Row>, events: seq<bool>, completed: bool)

  datatype Material = Material(calibration: bool, phases: seq<Phase>, status: bool)

  /** The sequences written once these rows follow the ones seen. */
  function SeenAfterRows(rows: seq<Row>, seen: set<nat>): set<nat> {
    if rows == [] then seen else SeenAfterRows(rows[1..], seen + {rows[0].sequence})
  }

  function SeenAfter(phases: seq<Phase>, seen: set<nat>): set<nat> {
    if phases == [] then seen else SeenAfter(phases[1..], SeenAfterRows(phases[0].rows, seen))
  }

  /** The events of the phases: one before, one after, and those handed back. */
  function EventCount(phases: seq<Phase>): nat {
    if phases == [] then 0 else |phases[0].events| + 2 + EventCount(phases[1..])
  }

  lemma {:induction false} SeenAfterRowsAdds(rows: seq<Row>, seen: set<nat>)
    ensures SeenAfterRows(rows, seen) == seen + set i | 0 <= i < |rows| :: rows[i].sequence
  {
    if rows != [] {
      SeenAfterRowsAdds(rows[1..], seen + {rows[0].sequence});
      assert forall i :: 0 < i < |rows| ==> rows[i] == rows[1..][i - 1];
      assert forall i :: 0 <= i < |rows| - 1 ==> rows[1..][i] == rows[i + 1];
    }
  }

  /** What is seen in the end is what the rows say. */
  lemma {:induction false} SeenIsRows(phases: seq<Phase>, seen: set<nat>)
    ensures forall n :: n in SeenAfter(phases, seen) <==>
      n in seen || exists p, row :: p in phases && row in p.rows && row.sequence == n
  {
    if phases != [] {
      var p := phases[0];
      SeenAfterRowsAdds(p.rows, seen);
      SeenIsRows(phases[1..], SeenAfterRows(p.rows, seen));
      assert forall q :: q in phases <==> q == p || q in phases[1..];
      forall n
        ensures n in SeenAfterRows(p.rows, seen) <==> n in seen || exists row :: row in p.rows && row.sequence == n
      {
        if n in SeenAfterRows(p.rows, seen) && n !in seen {
          var i :| 0 <= i < |p.rows| && p.rows[i].sequence == n;
          assert p.rows[i] in p.rows;
        }
      }
    }
  }

  predicate HasRows(m: Material) {
    SeenAfter(m.phases, {}) != {}
  }

  // ----- Its steps -----

  datatype Steps = Nothing | One(step: Step) | Both(first: Steps, rest: Steps) {
    function Size(): nat {
      match this
      case Nothing => 0
      case One(_) => 1
      case Both(a, b) => a.Size() + b.Size()
    }

    predicate AllAccepted() {
      match this
      case Nothing => true
      case One(s) => Accepted(s)
      case Both(a, b) => a.AllAccepted() && b.AllAccepted()
    }
  }

  function Impairments(paths: nat): Steps {
    if paths == 0 then Nothing else Both(One(Ask(Impair)), Impairments(paths - 1))
  }

  /** A row is refused by its own verdict or as a duplicate of one written before. */
  function RowStep(row: Row, seen: set<nat>): Step {
    Write(row.accepted && row.sequence !in seen)
  }

  function RowSteps(rows: seq<Row>, seen: set<nat>): Steps {
    if rows == [] then Nothing
    else Both(One(RowStep(rows[0], seen)), RowSteps(rows[1..], seen + {rows[0].sequence}))
  }

  function EventSteps(events: seq<bool>): Steps {
    if events == [] then Nothing else Both(One(Write(events[0])), EventSteps(events[1..]))
  }

  function RecordSteps(p: Phase, seen: set<nat>): Steps {
    Both(RowSteps(p.rows, seen), EventSteps(p.events + [p.completed]))
  }

  function PhaseSteps(p: Phase, seen: set<nat>): Steps {
    Both(Impairments(p.paths), Both(Both(One(Write(p.started)), One(Ask(RunPhase))), RecordSteps(p, seen)))
  }

  function CollectSteps(phases: seq<Phase>, seen: set<nat>): Steps {
    if phases == [] then Nothing
    else Both(PhaseSteps(phases[0], seen), CollectSteps(phases[1..], SeenAfterRows(phases[0].rows, seen)))
  }

  function StartSteps(m: Material): Steps {
    Both(One(Ask(Calibrate)), Both(One(Write(m.calibration)), One(Ask(StartServer))))
  }

  function PrepareSteps(m: Material): Steps {
    Both(One(Ask(AssertClean)), Both(One(Ask(Setup)), StartSteps(m)))
  }

  /** The status file is opened and then written. */
  function FileSteps(accepted: bool): Steps {
    Both(One(Write(accepted)), One(Write(true)))
  }

  function StatusSteps(m: Material): Steps {
    Both(One(Ask(LabStatus)), FileSteps(m.status))
  }

  function CaptureSteps(m: Material): Steps {
    Both(One(Ask(StopServer)), StatusSteps(m))
  }

  const CLEANING: Steps := Both(One(Ask(Cleanup)), One(Ask(AssertClean)))

  function StopSteps(m: Material): Steps {
    Both(CaptureSteps(m), CLEANING)
  }

  function MeasureSteps(m: Material): Steps {
    Both(CollectSteps(m.phases, {}), StopSteps(m))
  }

  /** Everything in the `try` before `finalise`. */
  function Script(m: Material): Steps {
    Both(PrepareSteps(m), MeasureSteps(m))
  }

  // Where in the script the server is started and stopped; from the stop on, where the status file is
  // opened and the lab cleaned.
  const STARTED := 5
  const OPENED := 2
  const CLEANED := 4

  function StopAt(m: Material): nat {
    STARTED + CollectSteps(m.phases, {}).Size()
  }

  // ----- Running steps under a plan -----

  /** What the first step that does not succeed raises. */
  ghost function Failure(plan: Faults, s: Steps, from: nat): Option<Kind> {
    match s
    case Nothing => None
    case One(step) => if Accepted(step) then plan(from) else Some(Ordinary)
    case Both(a, b) =>
      if Failure(plan, a, from).Some? then Failure(plan, a, from) else Failure(plan, b, from + a.Size())
  }

  /** How many steps succeed before it. */
  ghost function Passing(plan: Faults, s: Steps, from: nat): nat {
    match s
    case Nothing => 0
    case One(_) => if Failure(plan, s, from).Some? then 0 else 1
    case Both(a, b) =>
      if Failure(plan, a, from).Some? then Passing(plan, a, from) else a.Size() + Passing(plan, b, from + a.Size())
  }

  /** How many calls are made up to it; a refused write makes none. */
  ghost function CallsMade(plan: Faults, s: Steps, from: nat): nat {
    match s
    case Nothing => 0
    case One(step) => if Accepted(step) then 1 else 0
    case Both(a, b) =>
      if Failure(plan, a, from).Some? then CallsMade(plan, a, from) else a.Size() + CallsMade(plan, b, from + a.Size())
  }

  /** The calls other than writes that are made up to it, and whether they returned. */
  ghost function Asked(plan: Faults, s: Steps, from: nat): seq<Event> {
    match s
    case Nothing => []
    case One(step) => if step.Ask? then [Event(step.call, plan(from).None?)] else []
    case Both(a, b) =>
      if Failure(plan, a, from).Some? then Asked(plan, a, from)
      else Asked(plan, a, from) + Asked(plan, b, from + a.Size())
  }

  lemma {:induction false} PassingBounds(plan: Faults, s: Steps, from: nat)
    ensures Passing(plan, s, from) <= s.Size()
    ensures Failure(plan, s, from).None? <==> Passing(plan, s, from) == s.Size()
    ensures Failure(plan, s, from).None? ==> CallsMade(plan, s, from) == s.Size()
  {
    if s.Both? {
      PassingBounds(plan, s.first, from);
      PassingBounds(plan, s.rest, from + s.first.Size());
    }
  }

  /** How far a run has got: the number of its next call, and what it has logged. */
  datatype Point = Point(next: nat, log: seq<Event>)

  /** Running `s` from one point raises `e` at another. */
  ghost predicate Ran(plan: Faults, s: Steps, from: Point, to: Point, e: Option<Kind>) {
    && e == Failure(plan, s, from.next)
    && to.next == from.next + CallsMade(plan, s, from.next)
    && to.log == from.log + Asked(plan, s, from.next)
  }

  /** Running `s` from `from` on comes to running `rest` from `at` on. */
  ghost predicate Resumes(plan: Faults, s: Steps, from: Point, rest: Steps, at: Point) {
    && Failure(plan, s, from.next) == Failure(plan, rest, at.next)
    && from.next + CallsMade(plan, s, from.next) == at.next + CallsMade(plan, rest, at.next)
    && from.log + Asked(plan, s, from.next) == at.log + Asked(plan, rest, at.next)
  }

  lemma LogContinues(plan: Faults, a: Steps, b: Steps, from: Point, to: Point)
    requires Failure(plan, a, from.next).None?
    requires to.next == from.next + a.Size() && to.log == from.log + Asked(plan, a, from.next)
    ensures from.log + Asked(plan, Both(a, b), from.next) == to.log + Asked(plan, b, to.next)
  {
    var first, rest := Asked(plan, a, from.next), Asked(plan, b, to.next);
    assert Asked(plan, Both(a, b), from.next) == first + rest;
    assert from.log + (first + rest) == from.log + first + rest;
  }

  /** What the first part raised is what all raise; otherwise the rest decides. */
  lemma Continue(plan: Faults, a: Steps, b: Steps, from: Point, to: Point, e: Option<Kind>)
    requires Ran(plan, a, from, to, e)
    ensures e.Some? ==> Ran(plan, Both(a, b), from, to, e)
    ensures e.None? ==> to.next == from.next + a.Size() && Resumes(plan, Both(a, b), from, b, to)
    ensures Passing(plan, Both(a, b), from.next) ==
      if e.Some? then Passing(plan, a, from.next) else a.Size() + Passing(plan, b, to.next)
    ensures if e.Some? then Passing(plan, a, from.next) < a.Size() else Passing(plan, a, from.next) == a.Size()
  {
    PassingBounds(plan, a, from.next);
    if e.None? {
      LogContinues(plan, a, b, from, to);
    }
  }

  lemma ContinueRest(plan: Faults, all: Steps, start: Point, a: Steps, b: Steps, from: Point, to: Point,
                     e: Option<Kind>)
    requires Resumes(plan, all, start, Both(a, b), from) && Ran(plan, a, from, to, e)
    ensures e.Some? ==> Ran(plan, all, start, to, e)
    ensures e.None? ==> Resumes(plan, all, start, b, to)
  {
    Continue(plan, a, b, from, to, e);
  }

  lemma Finished(plan: Faults, all: Steps, start: Point, to: Point)
    requires Resumes(plan, all, start, Nothing, to)
    ensures Ran(plan, all, start, to, None)
  {
    assert to.log + [] == to.log;
  }

  // The fixed parts of the script, step by step.

  lemma TwoByStep(plan: Faults, a: Step, b: Step, from: nat)
    ensures
      var fails, then_ := !Accepted(a) || plan(from).Some?, !Accepted(b) || plan(from + 1).Some?;
      var s := Both(One(a), One(b));
      && Passing(plan, s, from) == (if fails then 0 else if then_ then 1 else 2)
      && Failure(plan, s, from) ==
        (if !Accepted(a) then Some(Ordinary)
         else if plan(from).Some? then plan(from)
         else if !Accepted(b) then Some(Ordinary)
         else plan(from + 1))
      && CallsMade(plan, s, from) ==
        (if !Accepted(a) then 0 else if plan(from).Some? || !Accepted(b) then 1 else 2)
      && Asked(plan, s, from) ==
        (if fails then Asked(plan, One(a), from) else Asked(plan, One(a), from) + Asked(plan, One(b), from + 1))
  {
    assert One(a).Size() == 1;
    assert Failure(plan, One(a), from) == if Accepted(a) then plan(from) else Some(Ordinary);
    assert Failure(plan, One(b), from + 1) == if Accepted(b) then plan(from + 1) else Some(Ordinary);
  }

  lemma FileByStep(plan: Faults, accepted: bool, from: nat)
    ensures Failure(plan, FileSteps(accepted), from) ==
      if !accepted then Some(Ordinary) else if plan(from).Some? then plan(from) else plan(from + 1)
    ensures CallsMade(plan, FileSteps(accepted), from) == if !accepted then 0 else if plan(from).Some? then 1 else 2
    ensures Passing(plan, FileSteps(accepted), from) ==
      if !accepted || plan(from).Some? then 0 else if plan(from + 1).Some? then 1 else 2
    ensures Asked(plan, FileSteps(accepted), from) == []
  {
    TwoByStep(plan, Write(accepted), Write(true), from);
  }

  lemma CleaningByStep(plan: Faults, from: nat)
    ensures Failure(plan, CLEANING, from) == if plan(from).Some? then plan(from) else plan(from + 1)
    ensures CallsMade(plan, CLEANING, from) == if plan(from).Some? then 1 else 2
    ensures Asked(plan, CLEANING, from) ==
      [Event(Cleanup, plan(from).None?)] + if plan(from).Some? then [] else [Event(AssertClean, plan(from + 1).None?)]
  {
    TwoByStep(plan, Ask(Cleanup), Ask(AssertClean), from);
  }

  const CLEAN: seq<Event> := [Event(Cleanup, true), Event(AssertClean, true)]

  lemma CleaningRan(plan: Faults, from: Point, to: Point, e: Option<Kind>)
    requires plan(from.next).Some? ==>
      e == plan(from.next) && to == Point(from.next + 1, from.log + [Event(Cleanup, false)])
    requires plan(from.next).None? ==>
      && e == plan(from.next + 1)
      && to == Point(from.next + 2, from.log + [Event(Cleanup, true)] + [Event(AssertClean, e.None?)])
    ensures Ran(plan, CLEANING, from, to, e)
    ensures e.None? ==> to.log == from.log + CLEAN
  {
    CleaningByStep(plan, from.next);
  }

  /** Every step succeeds exactly when every write is accepted and no call fails. */
  lemma {:induction false} PassesIff(plan: Faults, s: Steps, from: nat)
    ensures Failure(plan, s, from).None? <==> s.AllAccepted() && NoFaults(plan, from, s.Size())
  {
    match s
    case Nothing =>
    case One(_) =>
      CountOne(plan, from);
    case Both(a, b) =>
      PassesIff(plan, a, from);
      PassesIff(plan, b, from + a.Size());
      SucceedingPast(plan, from, s.Size(), a.Size());
  }

  /** Accepted steps go as far as the only fault. */
  lemma {:induction false} OneFaultFails(plan: Faults, s: Steps, from: nat, fault: nat)
    requires s.AllAccepted() && OnlyFault(plan, fault)
    ensures
      if from <= fault < from + s.Size() then
        && Passing(plan, s, from) == fault - from
        && Failure(plan, s, from) == plan(fault)
        && CallsMade(plan, s, from) == fault - from + 1
      else Failure(plan, s, from).None?
  {
    match s
    case Nothing =>
    case One(_) =>
    case Both(a, b) =>
      OneFaultFails(plan, a, from, fault);
      OneFaultFails(plan, b, from + a.Size(), fault);
  }

  lemma ScriptSize(m: Material)
    ensures Script(m).Size() == StopAt(m) + 6
    ensures PrepareSteps(m).Size() == STARTED && CaptureSteps(m).Size() == 4 && CLEANING.Size() == 2
  {
    assert Both(One(Write(m.calibration)), One(Ask(StartServer))).Size() == 2;
    assert StartSteps(m).Size() == 3;
    assert Both(One(Ask(Setup)), StartSteps(m)).Size() == 4;
    assert PrepareSteps(m).Size() == 5;
    assert FileSteps(m.status).Size() == 2;
    assert StatusSteps(m).Size() == 3;
    assert CaptureSteps(m).Size() == 4 && CLEANING.Size() == 2;
    var stop := Both(CaptureSteps(m), CLEANING);
    assert stop.Size() == 6;
    var collect := Both(CollectSteps(m.phases, {}), stop);
    assert collect.Size() == CollectSteps(m.phases, {}).Size() + 6;
    assert Script(m) == Both(PrepareSteps(m), collect);
  }

  // ----- The calls of a run, in order -----

  function Times(n: nat, call: Call): (calls: seq<Call>)
    ensures |calls| == n && forall i :: 0 <= i < n ==> calls[i] == call
  {
    if n == 0 then [] else [call] + Times(n - 1, call)
  }

  /** The calls that measure the phases: each impairs its paths and is then run. */
  function PhaseCalls(phases: seq<Phase>): seq<Call> {
    if phases == [] then [] else Times(phases[0].paths, Impair) + [RunPhase] + PhaseCalls(phases[1..])
  }

  /** The calls up to `finalise` when nothing fails. */
  function CallsOf(m: Material): seq<Call> {
    [AssertClean, Setup, Calibrate, StartServer] + PhaseCalls(m.phases) + [StopServer, LabStatus, Cleanup, AssertClean]
  }

  /** These events are the first of these calls, and only the last of them may have failed. */
  ghost predicate Begins(events: seq<Event>, calls: seq<Call>) {
    && |events| <= |calls|
    && (forall i :: 0 <= i < |events| ==> events[i].call == calls[i])
    && (forall i :: 0 <= i < |events| - 1 ==> events[i].ok)
  }

  ghost predicate AllReturned(events: seq<Event>, calls: seq<Call>) {
    Begins(events, calls) && |events| == |calls| && forall i :: 0 <= i < |events| ==> events[i].ok
  }

  /** `calls` are what `s` asks for. */
  ghost function AskedCalls(s: Steps): seq<Call> {
    match s
    case Nothing => []
    case One(step) => if step.Ask? then [step.call] else []
    case Both(a, b) => AskedCalls(a) + AskedCalls(b)
  }

  lemma {:induction false} AskedBegins(plan: Faults, s: Steps, from: nat)
    ensures Begins(Asked(plan, s, from), AskedCalls(s))
    ensures Failure(plan, s, from).None? ==> AllReturned(Asked(plan, s, from), AskedCalls(s))
  {
    match s
    case Nothing =>
    case One(_) =>
    case Both(a, b) =>
      AskedBegins(plan, a, from);
      AskedBegins(plan, b, from + a.Size());
  }

  lemma {:induction false} ImpairmentCalls(paths: nat)
    ensures AskedCalls(Impairments(paths)) == Times(paths, Impair)
  {
    if paths > 0 {
      ImpairmentCalls(paths - 1);
    }
  }

  lemma {:induction false} RowsAskNothing(rows: seq<Row>, seen: set<nat>)
    ensures AskedCalls(RowSteps(rows, seen)) == []
  {
    if rows != [] {
      RowsAskNothing(rows[1..], seen + {rows[0].sequence});
    }
  }

  lemma {:induction false} EventsAskNothing(events: seq<bool>)
    ensures AskedCalls(EventSteps(events)) == []
  {
    if events != [] {
      EventsAskNothing(events[1..]);
    }
  }

  lemma {:induction false} CollectCalls(phases: seq<Phase>, seen: set<nat>)
    ensures AskedCalls(CollectSteps(phases, seen)) == PhaseCalls(phases)
  {
    if phases != [] {
      var p := phases[0];
      ImpairmentCalls(p.paths);
      RowsAskNothing(p.rows, seen);
      EventsAskNothing(p.events + [p.completed]);
      var run := Both(One(Write(p.started)), One(Ask(RunPhase)));
      assert AskedCalls(RecordSteps(p, seen)) == [];
      assert AskedCalls(run) == [RunPhase];
      assert AskedCalls(Both(run, RecordSteps(p, seen))) == [RunPhase];
      CollectCalls(phases[1..], SeenAfterRows(p.rows, seen));
    }
  }

  lemma PrepareCalls(m: Material)
    ensures AskedCalls(PrepareSteps(m)) == [AssertClean, Setup, Calibrate, StartServer]
  {
    assert AskedCalls(StartSteps(m)) == [Calibrate, StartServer];
    assert AskedCalls(Both(One(Ask(Setup)), StartSteps(m))) == [Setup, Calibrate, StartServer];
  }

  lemma StopCalls(m: Material)
    ensures AskedCalls(StopSteps(m)) == [StopServer, LabStatus, Cleanup, AssertClean]
  {
    assert AskedCalls(FileSteps(m.status)) == [];
    assert AskedCalls(StatusSteps(m)) == [LabStatus];
    assert AskedCalls(CaptureSteps(m)) == [StopServer, LabStatus];
  }

  lemma ScriptCalls(m: Material)
    ensures AskedCalls(Script(m)) == CallsOf(m)
  {
    PrepareCalls(m);
    CollectCalls(m.phases, {});
    StopCalls(m);
    var a, b, c := AskedCalls(PrepareSteps(m)), PhaseCalls(m.phases), AskedCalls(StopSteps(m));
    assert a + (b + c) == a + b + c;
  }

  /** What follows once the calls of the `try` are over: stopping, cleaning and finalising. */
  ghost predicate Closes(before: seq<Event>, after: seq<Event>) {
    before <= after && forall i :: |before| <= i < |after| ==> IsClosing(after[i].call)
  }

  predicate IsClosing(c: Call) {
    c == StopServer || c == Cleanup || c == AssertClean || c.Finalised?
  }

  lemma ClosesTransitive(a: seq<Event>, b: seq<Event>, c: seq<Event>)
    requires Closes(a, b) && Closes(b, c)
    ensures Closes(a, c)
  {
  }

  /** The log of a run: `n` calls of the `try`, in the source's order, and then only closing ones. */
  ghost predicate IsLog(log: seq<Event>, m: Material, n: nat) {
    n <= |log| && Begins(log[..n], CallsOf(m)) && Closes(log[..n], log)
  }

  lemma ScriptLog(plan: Faults, m: Material, from: Point, to: Point, e: Option<Kind>) returns (calls: seq<Event>)
    requires Ran(plan, Script(m), from, to, e)
    ensures to.log == from.log + calls && Begins(calls, CallsOf(m))
    ensures e.None? ==> AllReturned(calls, CallsOf(m))
  {
    calls := Asked(plan, Script(m), from.next);
    AskedBegins(plan, Script(m), from.next);
    ScriptCalls(m);
  }

  lemma LogOfCalls(calls: seq<Event>, log: seq<Event>, m: Material)
    requires Begins(calls, CallsOf(m)) && Closes([] + calls, log)
    ensures |calls| <= |log| && IsLog(log, m, |calls|)
    ensures AllReturned(calls, CallsOf(m)) && log == [] + calls + [Event(Finalised(Complete), true)] ==>
      IsCompleteLog(log, m)
  {
    assert [] + calls == calls;
    assert log[..|calls|] == calls;
  }

  /** Nothing is impaired or measured before the lab is clean, set up, calibrated and served, in that order. */
  lemma MeasuredOnlyWhenPrepared(log: seq<Event>, m: Material, n: nat)
    requires IsLog(log, m, n)
    ensures forall i :: 0 <= i < |log| && log[i].call in {Impair, RunPhase, LabStatus} ==>
      && i >= 4
      && log[0] == Event(AssertClean, true) && log[1] == Event(Setup, true)
      && log[2] == Event(Calibrate, true) && log[3] == Event(StartServer, true)
  {
    var events := log[..n];
    forall i | 0 <= i < |log| && log[i].call in {Impair, RunPhase, LabStatus}
      ensures i >= 4 && i < n
      ensures log[0] == events[0] && log[1] == events[1] && log[2] == events[2] && log[3] == events[3]
    {
      assert i < n && events[i] == log[i];
    }
  }

  /** Each phase is run after exactly its impairments, which follow the phase before it. */
  ghost predicate Measured(events: seq<Event>, phases: seq<Phase>) {
    if phases == [] then events == []
    else
      var n := phases[0].paths;
      && n < |events|
      && (forall i :: 0 <= i < n ==> events[i] == Event(Impair, true))
      && events[n] == Event(RunPhase, true)
      && Measured(events[n + 1..], phases[1..])
  }

  lemma {:induction false} PhasesAreMeasured(events: seq<Event>, phases: seq<Phase>)
    requires AllReturned(events, PhaseCalls(phases))
    ensures Measured(events, phases)
  {
    if phases != [] {
      FirstPhase(events, phases);
      PhasesAreMeasured(events[phases[0].paths + 1..], phases[1..]);
    }
  }

  lemma {:induction false} FirstPhase(events: seq<Event>, phases: seq<Phase>)
    requires phases != [] && AllReturned(events, PhaseCalls(phases))
    ensures
      var n := phases[0].paths;
      && |events| > n && events[n] == Event(RunPhase, true)
      && (forall i :: 0 <= i < n ==> events[i] == Event(Impair, true))
      && AllReturned(events[n + 1..], PhaseCalls(phases[1..]))
  {
    var rest := events[phases[0].paths + 1..];
    forall i | 0 <= i < |rest| ensures rest[i] == Event(PhaseCalls(phases[1..])[i], true) {
      assert rest[i] == events[phases[0].paths + 1 + i];
    }
  }

  function Count(events: seq<Event>, e: Event): nat {
    if events == [] then 0 else (if events[0] == e then 1 else 0) + Count(events[1..], e)
  }

  lemma {:induction false} CountSplits(a: seq<Event>, b: seq<Event>, e: Event)
    ensures Count(a + b, e) == Count(a, e) + Count(b, e)
  {
    if a == [] {
      assert a + b == b;
    } else {
      assert (a + b)[1..] == a[1..] + b;
      CountSplits(a[1..], b, e);
    }
  }

  lemma {:induction false} CountNone(events: seq<Event>, e: Event)
    requires forall i :: 0 <= i < |events| ==> events[i] != e
    ensures Count(events, e) == 0
  {
    if events != [] {
      CountNone(events[1..], e);
    }
  }

  lemma {:induction false} MeasuredRuns(events: seq<Event>, phases: seq<Phase>)
    requires Measured(events, phases)
    ensures Count(events, Event(RunPhase, true)) == |phases|
  {
    if phases != [] {
      var n, run := phases[0].paths, Event(RunPhase, true);
      MeasuredRuns(events[n + 1..], phases[1..]);
      CountNone(events[..n], run);
      CountSplits(events[..n], events[n..], run);
      assert events == events[..n] + events[n..];
    }
  }

  /** Everything that a complete run called. */
  ghost predicate IsCompleteLog(log: seq<Event>, m: Material) {
    var n := |CallsOf(m)|;
    |log| == n + 1 && AllReturned(log[..n], CallsOf(m)) && log[n] == Event(Finalised(Complete), true)
  }

  const PREPARED: seq<Event> :=
    [Event(AssertClean, true), Event(Setup, true), Event(Calibrate, true), Event(StartServer, true)]

  const STOPPED: seq<Event> :=
    [Event(StopServer, true), Event(LabStatus, true), Event(Cleanup, true), Event(AssertClean, true)]

  /**
    * A complete run, call by call: preparation, then each phase after exactly its impairments, then the
    * stop, the status, the cleanup, the clean check and `finalise`; all of them returned.
    */
  lemma CompleteLog(log: seq<Event>, m: Material) returns (measured: seq<Event>)
    requires IsCompleteLog(log, m)
    ensures log == PREPARED + measured + STOPPED + [Event(Finalised(Complete), true)]
    ensures Measured(measured, m.phases)
    ensures Count(log, Event(RunPhase, true)) == |m.phases|
  {
    var n := |CallsOf(m)|;
    measured := ReturnedCalls(log[..n], m);
    assert log == log[..n] + [log[n]];
    PhasesAreMeasured(measured, m.phases);
    MeasuredRuns(measured, m.phases);
    CountWhole(measured);
  }

  lemma ReturnedCalls(events: seq<Event>, m: Material) returns (measured: seq<Event>)
    requires AllReturned(events, CallsOf(m))
    ensures events == PREPARED + measured + STOPPED && AllReturned(measured, PhaseCalls(m.phases))
  {
    measured := events[4..|events| - 4];
    forall i | 0 <= i < |measured| ensures measured[i] == Event(PhaseCalls(m.phases)[i], true) {
      assert measured[i] == events[i + 4];
    }
    assert events[..4] == PREPARED;
    assert events[|events| - 4..] == STOPPED;
    assert events == events[..4] + measured + events[|events| - 4..];
  }

  lemma CountWhole(measured: seq<Event>)
    ensures
      var log := PREPARED + measured + STOPPED + [Event(Finalised(Complete), true)];
      Count(log, Event(RunPhase, true)) == Count(measured, Event(RunPhase, true))
  {
    var run, last := Event(RunPhase, true), [Event(Finalised(Complete), true)];
    CountNone(PREPARED, run);
    CountNone(STOPPED, run);
    CountNone(last, run);
    CountSplits(PREPARED + measured + STOPPED, last, run);
    CountSplits(PREPARED + measured, STOPPED, run);
    CountSplits(PREPARED, measured, run);
  }

  // ----- How a run ends -----

  /** The calls of `finalise` over this many files. */
  function Finalising(files: nat): nat {
    STREAMS + files + WRITING + CLOSED
  }

  /** A run returns complete: everything was accepted, something was measured, and nothing failed. */
  ghost predicate Completes(plan: Faults, from: nat, m: Material, verdict: Status -> bool) {
    && Script(m).AllAccepted() && HasRows(m) && verdict(Complete)
    && NoFaults(plan, from, Script(m).Size() + Finalising(3))
  }

  /** After this many calls of the failure handler the server is stopped and the lab cleaned. */
  ghost function CleanedBy(plan: Faults, from: nat, started: bool, cleaned: bool): nat {
    var stopped := if started then from + 1 else from;
    if cleaned then stopped else if plan(stopped).Some? then stopped + 1 else stopped + 2
  }

  /** An interrupt gets out of stopping and cleaning; ordinary failures do not. */
  ghost predicate CleansUp(plan: Faults, from: nat, started: bool, cleaned: bool) {
    var stopped := if started then from + 1 else from;
    && (started ==> plan(from) != Some(Interrupt))
    && (!cleaned ==> plan(stopped) != Some(Interrupt) && (plan(stopped).None? ==> plan(stopped + 1) != Some(Interrupt)))
  }

  /** The failure handler keeps the failure: it cleans up, records it and publishes what there is. */
  ghost predicate Keeps(plan: Faults, from: nat, started: bool, cleaned: bool, files: nat, accepted: bool) {
    var clean := CleanedBy(plan, from, started, cleaned);
    && CleansUp(plan, from, started, cleaned)
    && accepted && plan(clean).None? && NoFaults(plan, clean + 1, Finalising(files))
  }

  /** A run returns incomplete: an ordinary failure before `finalise`, or nothing measured, and it was kept. */
  ghost predicate KeepsFailure(plan: Faults, from: nat, m: Material, verdict: Status -> bool) {
    var failure, k := Failure(plan, Script(m), from), Passing(plan, Script(m), from);
    && (if failure.Some? then failure == Some(Ordinary) else !HasRows(m))
    && Keeps(plan, from + CallsMade(plan, Script(m), from), STARTED <= k <= StopAt(m), k >= StopAt(m) + CLEANED,
             if k > StopAt(m) + OPENED then 3 else 2, verdict(Incomplete))
  }

  /** A run leaves a server running: an interrupt between the start that returned and the stop. */
  ghost predicate Abandons(plan: Faults, from: nat, m: Material) {
    STARTED <= Passing(plan, Script(m), from) < StopAt(m) && Failure(plan, Script(m), from) == Some(Interrupt)
  }

  /** How a run ends: published complete, kept incomplete, abandoned with its server running, or raised. */
  datatype Ending = Completed | Kept | Abandoned | Failed

  ghost function EndingOf(plan: Faults, from: nat, m: Material, verdict: Status -> bool): Ending {
    if Completes(plan, from, m, verdict) then Completed
    else if KeepsFailure(plan, from, m, verdict) then Kept
    else if Abandons(plan, from, m) then Abandoned
    else Failed
  }

  /** When a step fails, its place in the script and what it raised decide the end. */
  lemma FailedEnding(plan: Faults, from: nat, m: Material, verdict: Status -> bool, next: nat, kind: Kind)
    requires Failure(plan, Script(m), from) == Some(kind) && next == from + CallsMade(plan, Script(m), from)
    ensures
      var k, end := Passing(plan, Script(m), from), EndingOf(plan, from, m, verdict);
      && !end.Completed?
      && (end.Kept? <==>
            && kind == Ordinary
            && Keeps(plan, next, STARTED <= k <= StopAt(m), k >= StopAt(m) + CLEANED,
                     if k > StopAt(m) + OPENED then 3 else 2, verdict(Incomplete)))
      && (end.Abandoned? <==> kind == Interrupt && STARTED <= k < StopAt(m))
  {
    PassesIff(plan, Script(m), from);
    SucceedingPast(plan, from, Script(m).Size() + Finalising(3), Script(m).Size());
  }

  /** When every step succeeds, what was measured and the calls of the publication decide the end. */
  lemma PassedEnding(plan: Faults, from: nat, m: Material, verdict: Status -> bool, next: nat)
    requires Failure(plan, Script(m), from).None? && next == from + CallsMade(plan, Script(m), from)
    ensures
      var k, end := Passing(plan, Script(m), from), EndingOf(plan, from, m, verdict);
      && k == StopAt(m) + 6 && !end.Abandoned?
      && (end.Completed? <==> HasRows(m) && verdict(Complete) && NoFaults(plan, next, Finalising(3)))
      && (end.Kept? <==> !HasRows(m) && Keeps(plan, next, false, true, 3, verdict(Incomplete)))
  {
    PassesIff(plan, Script(m), from);
    PassingBounds(plan, Script(m), from);
    ScriptSize(m);
    SucceedingPast(plan, from, Script(m).Size() + Finalising(3), Script(m).Size());
  }

  /** How a run ends, read off where its script stopped. */
  lemma EndingByParts(plan: Faults, from: nat, m: Material, verdict: Status -> bool, next: nat, e: Option<Kind>)
    requires e == Failure(plan, Script(m), from) && next == from + CallsMade(plan, Script(m), from)
    ensures
      var k, end := Passing(plan, Script(m), from), EndingOf(plan, from, m, verdict);
      && (e.None? ==> k == StopAt(m) + 6)
      && (end.Completed? <==> e.None? && HasRows(m) && verdict(Complete) && NoFaults(plan, next, Finalising(3)))
      && (end.Kept? <==>
            && (e == Some(Ordinary) || (e.None? && !HasRows(m)))
            && Keeps(plan, next, STARTED <= k <= StopAt(m), k >= StopAt(m) + CLEANED,
                     if k > StopAt(m) + OPENED then 3 else 2, verdict(Incomplete)))
      && (end.Abandoned? <==> e == Some(Interrupt) && STARTED <= k < StopAt(m))
  {
    if e.Some? {
      FailedEnding(plan, from, m, verdict, next, e.value);
    } else {
      PassedEnding(plan, from, m, verdict, next);
    }
  }

  // ----- What a single fault does -----

  lemma NoFaultAfter(plan: Faults, fault: nat, from: nat, n: nat)
    requires OnlyFault(plan, fault) && fault < from
    ensures NoFaults(plan, from, n)
  {
    SucceedingIsFirst(plan, from, n, n);
  }

  /** One ordinary failure anywhere before `finalise`: the run returns an incomplete bundle. */
  lemma OneFailureIsKept(plan: Faults, from: nat, m: Material, verdict: Status -> bool, fault: nat)
    requires Script(m).AllAccepted() && verdict(Incomplete)
    requires OnlyFault(plan, fault) && plan(fault) == Some(Ordinary) && from <= fault < from + Script(m).Size()
    ensures KeepsFailure(plan, from, m, verdict) && !Completes(plan, from, m, verdict)
  {
    OneFaultFails(plan, Script(m), from, fault);
    ScriptSize(m);
    var k := fault - from;
    var clean := CleanedBy(plan, fault + 1, STARTED <= k <= StopAt(m), k >= StopAt(m) + CLEANED);
    NoFaultAfter(plan, fault, clean + 1, Finalising(if k > StopAt(m) + OPENED then 3 else 2));
    SucceedingPast(plan, from, Script(m).Size() + Finalising(3), Script(m).Size());
    PassesIff(plan, Script(m), from);
  }

  /** One interrupt: the server is left running exactly if it falls between start and stop, and nothing is returned. */
  lemma OneInterruptAbandons(plan: Faults, from: nat, m: Material, verdict: Status -> bool, fault: nat)
    requires Script(m).AllAccepted()
    requires OnlyFault(plan, fault) && plan(fault) == Some(Interrupt) && from <= fault < from + Script(m).Size()
    ensures Abandons(plan, from, m) <==> from + STARTED <= fault < from + StopAt(m)
    ensures !KeepsFailure(plan, from, m, verdict) && !Completes(plan, from, m, verdict)
  {
    OneFaultFails(plan, Script(m), from, fault);
    ScriptSize(m);
    SucceedingPast(plan, from, Script(m).Size() + Finalising(3), Script(m).Size());
    PassesIff(plan, Script(m), from);
  }

  /** No fault: the run returns complete if something was measured and incomplete if nothing was. */
  lemma NoFaultReturns(plan: Faults, from: nat, m: Material, verdict: Status -> bool)
    requires Script(m).AllAccepted() && verdict(Complete) && verdict(Incomplete)
    requires NoFaults(plan, from, Script(m).Size() + 1 + Finalising(3))
    ensures if HasRows(m) then Completes(plan, from, m, verdict) else KeepsFailure(plan, from, m, verdict)
  {
    var n := Script(m).Size();
    SucceedingPast(plan, from, n + 1 + Finalising(3), n);
    SucceedingPast(plan, from, n + 1 + Finalising(3), n + Finalising(3));
    SucceedingPast(plan, from + n, 1 + Finalising(3), 1);
    CountOne(plan, from + n);
    PassesIff(plan, Script(m), from);
    PassingBounds(plan, Script(m), from);
    ScriptSize(m);
  }
}
