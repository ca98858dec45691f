/** One registered run: lab, server, executor and bundle, with a plan of which calls fail. */
module Runner {
  import opened Common
  import opened Inventory
  import opened Publish
  import opened Bundle
  import opened RunScript

  datatype RunResult = Returned(status: Status) | Raised(kind: Kind)

  // ----- What the log of a run says -----

  function Cleanups(log: seq<Event>): nat {
    if log == [] then 0
    else Cleanups(log[..|log| - 1]) + if log[|log| - 1].call == Cleanup then 1 else 0
  }

  /** A server was started and no stop has been tried since. */
  predicate Running(log: seq<Event>) {
    if log == [] then false
    else
      var last := log[|log| - 1];
      if last == Event(StartServer, true) then true
      else if last.call == StopServer then false
      else Running(log[..|log| - 1])
  }

  ghost predicate StopFollows(log: seq<Event>, i: nat) {
    exists j :: i < j < |log| && log[j].call == StopServer
  }

  /** No server is left running exactly when a stop follows every start that returned. */
  lemma {:induction false} NotRunning(log: seq<Event>)
    ensures !Running(log) <==> forall i :: 0 <= i < |log| && log[i] == Event(StartServer, true) ==> StopFollows(log, i)
  {
    if log != [] {
      var n := |log| - 1;
      NotRunning(log[..n]);
      if log[n] == Event(StartServer, true) {
        assert !StopFollows(log, n);
      } else if log[n].call == StopServer {
        forall i | 0 <= i < |log| && log[i] == Event(StartServer, true) ensures StopFollows(log, i) {
          assert i < n < |log| && log[n].call == StopServer;
        }
      } else {
        forall i: nat | i < n ensures StopFollows(log, i) <==> StopFollows(log[..n], i) {
          StopFollowsEarlier(log, i);
        }
      }
    }
  }

  lemma StopFollowsEarlier(log: seq<Event>, i: nat)
    requires log != [] && log[|log| - 1].call != StopServer && i < |log| - 1
    ensures StopFollows(log, i) <==> StopFollows(log[..|log| - 1], i)
  {
    var front := log[..|log| - 1];
    if StopFollows(log, i) {
      var j :| i < j < |log| && log[j].call == StopServer;
      assert front[j].call == StopServer;
    }
    if StopFollows(front, i) {
      var j :| i < j < |front| && front[j].call == StopServer;
      assert log[j].call == StopServer;
    }
  }

  lemma LogSnoc(log: seq<Event>, e: Event)
    ensures Cleanups(log + [e]) == Cleanups(log) + if e.call == Cleanup then 1 else 0
    ensures Running(log + [e]) ==
      if e == Event(StartServer, true) then true else if e.call == StopServer then false else Running(log)
  {
    assert (log + [e])[..|log|] == log;
  }

  const CLEAN_END: seq<Event> := CLEAN + [Event(Finalised(Complete), true)]

  predicate EndsWith(log: seq<Event>, end: seq<Event>) {
    |end| <= |log| && log[|log| - |end|..] == end
  }

  const STATUS: Inventory.Name := "lab-status.json"

  lemma StatusNameIsSafe()
    ensures IsSafeName(STATUS)
  {
  }

  lemma StatusNameIsPrintable()
    ensures IsAscii(STATUS) && Unbroken(STATUS)
  {
  }

  lemma StatusNameIsFree()
    ensures STATUS !in {MANIFEST, SUMS, PACKETS, EVENTS}
  {
    assert |STATUS| == 15 && |MANIFEST| == 13 && |SUMS| == 10 && |PACKETS| == 11 && |EVENTS| == 12;
  }

  lemma CoreNamesArePrintable()
    ensures IsAscii(PACKETS) && Unbroken(PACKETS) && IsAscii(EVENTS) && Unbroken(EVENTS)
    ensures PACKETS != EVENTS && PACKETS != SUMS && EVENTS != SUMS
  {
    assert |PACKETS| == 11 && |EVENTS| == 12 && |SUMS| == 10;
  }

  const REASON := "run failed"

  lemma ReasonIsNotBlank()
    ensures !IsBlank(REASON)
  {
    assert REASON[0] == 'r' && !IsSpace('r');
  }

  /** A name that the inventory can list. */
  ghost predicate CanName(x: Inventory.Name) {
    IsAscii(x) && Unbroken(x) && IsSafeName(x)
  }

  /** Files of these names can be sealed. */
  ghost predicate NamesSeal(names: set<Inventory.Name>, n: nat) {
    |names| == n && n + 2 <= MAX_BUNDLE_ENTRIES && forall x {:trigger CanName(x)} :: x in names ==> CanName(x)
  }

  lemma NamedFilesSeal(files: Files, sha: Sha, n: nat)
    requires NamesSeal(files.Keys, n)
    ensures |files| == n && CanSeal(files, sha, true)
  {
    assert |files| == |files.Keys|;
    assert HashesOf(files, sha).Keys <= files.Keys;
    assert forall x :: x in HashesOf(files, sha) ==> CanName(x);
  }

  lemma RunNamesSeal()
    ensures NamesSeal({PACKETS, EVENTS}, 2) && NamesSeal({PACKETS, EVENTS} + {STATUS}, 3)
  {
    CoreNamesArePrintable();
    StatusNameIsPrintable();
    StatusNameIsFree();
    PacketsNameIsSafe();
    EventsNameIsSafe();
    StatusNameIsSafe();
  }

  class ExperimentRun {
    const bundle: EvidenceBundle
    /** The two parents as the run found them. */
    ghost const staging: map<Publish.Name, Identity>
    ghost const before: map<Publish.Name, Identity>
    /** The names of its files before and after the status is captured. */
    ghost const names: set<Inventory.Name>
    ghost const more: set<Inventory.Name>
    var log: seq<Event>
    var serverStarted: bool
    var cleanupAttempted: bool

    /** What the log has to do with the flags. */
    ghost predicate Logged()
      reads this
    {
      Cleanups(log) == (if cleanupAttempted then 1 else 0) && (Running(log) ==> serverStarted)
    }

    ghost predicate Valid()
      reads this, bundle, bundle.dirs`staging, bundle.dirs`final_
    {
      bundle.Valid() && Logged()
    }

    ghost predicate Named() {
      more == names + {STATUS} && NamesSeal(names, 2) && NamesSeal(more, 3)
    }

    ghost function RunFiles(captured: bool): set<Inventory.Name> {
      if captured then more else names
    }

    ghost predicate HasFiles(n: nat)
      reads bundle`files
    {
      2 <= n <= 3 && bundle.files.Keys == RunFiles(n == 3)
    }

    /** The bundle is still open, and nothing was published. */
    ghost predicate Held()
      reads bundle, bundle.dirs`staging, bundle.dirs`final_
    {
      && bundle.Valid() && Named() && bundle.state == Open
      && bundle.dirs.staging == staging && bundle.dirs.final_ == before
    }

    /** Still collecting evidence: nothing cleaned up, nothing sealed. */
    ghost predicate Collecting()
      reads this, bundle, bundle.dirs`staging, bundle.dirs`final_
    {
      Held() && Logged() && !cleanupAttempted
    }

    ghost function Here(): Point
      reads `log, bundle.dirs`next
    {
      Point(bundle.dirs.next, log)
    }

    /** The calls since `from` are those of `s`, and `e` is what they raised. */
    ghost predicate Did(s: Steps, from: Point, e: Option<Kind>)
      reads `log, bundle.dirs`next
    {
      Ran(bundle.dirs.plan, s, from, Here(), e)
    }

    constructor (bundle: EvidenceBundle)
      requires bundle.Valid() && bundle.state == Open && bundle.files.Keys == {PACKETS, EVENTS}
      ensures Collecting() && this.bundle == bundle && log == [] && bundle.files.Keys == RunFiles(false)
      ensures staging == bundle.dirs.staging && before == bundle.dirs.final_
      ensures !cleanupAttempted && !serverStarted
    {
      RunNamesSeal();
      this.bundle, staging, before := bundle, bundle.dirs.staging, bundle.dirs.final_;
      names, more := {PACKETS, EVENTS}, {PACKETS, EVENTS} + {STATUS};
      log, serverStarted, cleanupAttempted := [], false, false;
    }

    /** A call to the lab, the server or the executor. */
    method Make(call: Call) returns (e: Option<Kind>)
      modifies this`log, bundle.dirs`next
      ensures e == bundle.dirs.plan(old(bundle.dirs.next)) && bundle.dirs.next == old(bundle.dirs.next) + 1
      ensures log == old(log) + [Event(call, e.None?)]
      ensures Cleanups(log) == Cleanups(old(log)) + if call == Cleanup then 1 else 0
      ensures Running(log) ==
        if call == StartServer && e.None? then true else if call == StopServer then false else Running(old(log))
    {
      e := bundle.dirs.Call();
      LogSnoc(log, Event(call, e.None?));
      log := log + [Event(call, e.None?)];
    }

    /** A call that leaves the run collecting evidence, and the server as it is. */
    method Request(call: Call) returns (e: Option<Kind>)
      requires Collecting() && call != StartServer && call != StopServer && call != Cleanup
      modifies this`log, bundle.dirs`next
      ensures Collecting() && Running(log) == Running(old(log))
      ensures Did(One(Ask(call)), old(Here()), e)
    {
      e := Make(call);
    }

    method StopTheServer() returns (e: Option<Kind>)
      requires Collecting() && serverStarted
      modifies this`log, this`serverStarted, bundle.dirs`next
      ensures Collecting() && !Running(log) && serverStarted == e.Some?
      ensures Did(One(Ask(StopServer)), old(Here()), e)
    {
      e := Make(StopServer);
      if e.None? {
        serverStarted := false;
      }
    }

    method StartTheServer() returns (e: Option<Kind>)
      requires Collecting() && !Running(log) && !serverStarted
      modifies this`log, this`serverStarted, bundle.dirs`next
      ensures Collecting() && Running(log) == serverStarted == e.None?
      ensures Did(One(Ask(StartServer)), old(Here()), e)
    {
      e := Make(StartServer);
      if e.None? {
        serverStarted := true;
      }
    }

    /** The lab is cleaned up once, however the run ends. */
    method CleanUp() returns (e: Option<Kind>)
      requires Logged() && !cleanupAttempted
      modifies this`log, this`cleanupAttempted, bundle.dirs`next
      ensures Logged() && cleanupAttempted && log == old(log) + [Event(Cleanup, e.None?)]
      ensures Running(log) == Running(old(log))
      ensures e == bundle.dirs.plan(old(bundle.dirs.next)) && bundle.dirs.next == old(bundle.dirs.next) + 1
    {
      cleanupAttempted := true;
      e := Make(Cleanup);
    }

    // ----- Writing evidence -----

    method RecordEvent(accepted: bool) returns (e: Option<Kind>)
      requires Collecting()
      modifies bundle`files, bundle`eventCount, bundle.dirs`next
      ensures Collecting() && bundle.files.Keys == old(bundle.files.Keys)
      ensures Did(One(Write(accepted)), old(Here()), e)
      ensures bundle.eventCount == old(bundle.eventCount) + if e.None? then 1 else 0
    {
      assert log + [] == log;
      var event: string := *;
      e := bundle.WriteEvent(event, accepted);
    }

    method RecordRow(row: Row) returns (e: Option<Kind>)
      requires Collecting()
      modifies bundle`files, bundle`packetCount, bundle`sequences, bundle.dirs`next
      ensures Collecting() && bundle.files.Keys == old(bundle.files.Keys)
      ensures Did(One(RowStep(row, old(bundle.sequences))), old(Here()), e)
      ensures e.None? ==> bundle.sequences == old(bundle.sequences) + {row.sequence}
    {
      assert log + [] == log;
      var text: string := *;
      e := bundle.WritePacket(row.sequence, text, row.accepted);
    }

    method RecordPackets(rows: seq<Row>) returns (e: Option<Kind>)
      requires Collecting()
      modifies bundle`files, bundle`packetCount, bundle`sequences, bundle.dirs`next
      ensures Collecting() && bundle.files.Keys == old(bundle.files.Keys)
      ensures Did(RowSteps(rows, old(bundle.sequences)), old(Here()), e)
      ensures e.None? ==> bundle.sequences == SeenAfterRows(rows, old(bundle.sequences))
    {
      ghost var plan, all, from := bundle.dirs.plan, RowSteps(rows, bundle.sequences), Here();
      assert rows[0..] == rows;
      for i := 0 to |rows|
        invariant Collecting() && bundle.files.Keys == old(bundle.files.Keys)
        invariant SeenAfterRows(rows[i..], bundle.sequences) == SeenAfterRows(rows, old(bundle.sequences))
        invariant Resumes(plan, all, from, RowSteps(rows[i..], bundle.sequences), Here())
      {
        assert rows[i..][1..] == rows[i + 1..];
        ghost var seen, before := bundle.sequences, Here();
        e := RecordRow(rows[i]);
        ContinueRest(plan, all, from, One(RowStep(rows[i], seen)), RowSteps(rows[i + 1..], seen + {rows[i].sequence}),
                     before, Here(), e);
        if e.Some? { return e; }
      }
      Finished(plan, all, from, Here());
      return None;
    }

    method RecordEvents(events: seq<bool>) returns (e: Option<Kind>)
      requires Collecting()
      modifies bundle`files, bundle`eventCount, bundle.dirs`next
      ensures Collecting() && bundle.files.Keys == old(bundle.files.Keys)
      ensures Did(EventSteps(events), old(Here()), e)
      ensures e.None? ==> bundle.eventCount == old(bundle.eventCount) + |events|
    {
      ghost var plan, all, from := bundle.dirs.plan, EventSteps(events), Here();
      assert events[0..] == events;
      for i := 0 to |events|
        invariant Collecting() && bundle.files.Keys == old(bundle.files.Keys)
        invariant bundle.eventCount == old(bundle.eventCount) + i
        invariant Resumes(plan, all, from, EventSteps(events[i..]), Here())
      {
        assert events[i..][1..] == events[i + 1..];
        ghost var before := Here();
        e := RecordEvent(events[i]);
        ContinueRest(plan, all, from, One(Write(events[i])), EventSteps(events[i + 1..]), before, Here(), e);
        if e.Some? { return e; }
      }
      Finished(plan, all, from, Here());
      return None;
    }

    // ----- The parts of the `try` -----

    method CalibrateAndStart(m: Material) returns (e: Option<Kind>)
      requires Collecting() && !Running(log) && !serverStarted
      modifies this`log, this`serverStarted, bundle`files, bundle`eventCount, bundle.dirs`next
      ensures Collecting() && bundle.files.Keys == old(bundle.files.Keys)
      ensures Did(StartSteps(m), old(Here()), e)
      ensures Running(log) == serverStarted == e.None?
      ensures e.None? ==> bundle.eventCount == old(bundle.eventCount) + 1
    {
      ghost var plan, all, from := bundle.dirs.plan, StartSteps(m), Here();
      e := Request(Calibrate);
      Continue(plan, One(Ask(Calibrate)), Both(One(Write(m.calibration)), One(Ask(StartServer))), from, Here(), e);
      if e.Some? { return e; }
      ghost var before := Here();
      e := RecordEvent(m.calibration);
      ContinueRest(plan, all, from, One(Write(m.calibration)), One(Ask(StartServer)), before, Here(), e);
      if e.Some? { return e; }
      e := StartTheServer();
    }

    method Prepare(m: Material) returns (e: Option<Kind>)
      requires Collecting() && !Running(log) && !serverStarted
      modifies this`log, this`serverStarted, bundle`files, bundle`eventCount, bundle.dirs`next
      ensures Collecting() && bundle.files.Keys == old(bundle.files.Keys)
      ensures Did(PrepareSteps(m), old(Here()), e)
      ensures Running(log) == serverStarted == e.None?
      ensures e.None? ==> bundle.eventCount == old(bundle.eventCount) + 1
    {
      ghost var plan, all, from := bundle.dirs.plan, PrepareSteps(m), Here();
      e := Request(AssertClean);
      Continue(plan, One(Ask(AssertClean)), Both(One(Ask(Setup)), StartSteps(m)), from, Here(), e);
      if e.Some? { return e; }
      ghost var before := Here();
      e := Request(Setup);
      ContinueRest(plan, all, from, One(Ask(Setup)), StartSteps(m), before, Here(), e);
      if e.Some? { return e; }
      e := CalibrateAndStart(m);
    }

    method ImpairPaths(paths: nat) returns (e: Option<Kind>)
      requires Collecting()
      modifies this`log, bundle.dirs`next
      ensures Collecting() && Running(log) == Running(old(log))
      ensures Did(Impairments(paths), old(Here()), e)
    {
      ghost var plan, all, from := bundle.dirs.plan, Impairments(paths), Here();
      for i := 0 to paths
        invariant Collecting() && Running(log) == Running(old(log))
        invariant Resumes(plan, all, from, Impairments(paths - i), Here())
      {
        ghost var before := Here();
        e := Request(Impair);
        ContinueRest(plan, all, from, One(Ask(Impair)), Impairments(paths - i - 1), before, Here(), e);
        if e.Some? { return e; }
      }
      Finished(plan, all, from, Here());
      return None;
    }

    /** Write what the executor handed back. */
    method RecordPhase(p: Phase) returns (e: Option<Kind>)
      requires Collecting()
      modifies bundle`files, bundle`packetCount, bundle`sequences, bundle`eventCount, bundle.dirs`next
      ensures Collecting() && bundle.files.Keys == old(bundle.files.Keys)
      ensures Did(RecordSteps(p, old(bundle.sequences)), old(Here()), e)
      ensures e.None? ==> bundle.sequences == SeenAfterRows(p.rows, old(bundle.sequences))
      ensures e.None? ==> bundle.eventCount == old(bundle.eventCount) + |p.events| + 1
    {
      ghost var from, events := Here(), EventSteps(p.events + [p.completed]);
      e := RecordPackets(p.rows);
      Continue(bundle.dirs.plan, RowSteps(p.rows, old(bundle.sequences)), events, from, Here(), e);
      if e.Some? { return e; }
      e := RecordEvents(p.events + [p.completed]);
    }

    /** Announce the phase and have the executor run it. */
    method RunPhaseOn(p: Phase) returns (e: Option<Kind>)
      requires Collecting()
      modifies this`log, bundle`files, bundle`eventCount, bundle.dirs`next
      ensures Collecting() && Running(log) == Running(old(log)) && bundle.files.Keys == old(bundle.files.Keys)
      ensures Did(Both(One(Write(p.started)), One(Ask(RunPhase))), old(Here()), e)
      ensures e.None? ==> bundle.eventCount == old(bundle.eventCount) + 1
    {
      ghost var from := Here();
      e := RecordEvent(p.started);
      Continue(bundle.dirs.plan, One(Write(p.started)), One(Ask(RunPhase)), from, Here(), e);
      if e.Some? { return e; }
      e := Request(RunPhase);
    }

    /** Impair every path, run the phase, and record what it observed. */
    method CollectPhase(p: Phase) returns (e: Option<Kind>)
      requires Collecting()
      modifies this`log, bundle`files, bundle`packetCount, bundle`sequences, bundle`eventCount, bundle.dirs`next
      ensures Collecting() && Running(log) == Running(old(log)) && bundle.files.Keys == old(bundle.files.Keys)
      ensures Did(PhaseSteps(p, old(bundle.sequences)), old(Here()), e)
      ensures e.None? ==> bundle.sequences == SeenAfterRows(p.rows, old(bundle.sequences))
      ensures e.None? ==> bundle.eventCount == old(bundle.eventCount) + |p.events| + 2
    {
      ghost var plan, all, from := bundle.dirs.plan, PhaseSteps(p, bundle.sequences), Here();
      ghost var run, record := Both(One(Write(p.started)), One(Ask(RunPhase))), RecordSteps(p, bundle.sequences);
      e := ImpairPaths(p.paths);
      Continue(plan, Impairments(p.paths), Both(run, record), from, Here(), e);
      if e.Some? { return e; }
      ghost var impaired := Here();
      e := RunPhaseOn(p);
      ContinueRest(plan, all, from, run, record, impaired, Here(), e);
      if e.Some? { return e; }
      e := RecordPhase(p);
    }

    method CollectPhases(phases: seq<Phase>) returns (e: Option<Kind>)
      requires Collecting()
      modifies this`log, bundle`files, bundle`packetCount, bundle`sequences, bundle`eventCount, bundle.dirs`next
      ensures Collecting() && Running(log) == Running(old(log)) && bundle.files.Keys == old(bundle.files.Keys)
      ensures Did(CollectSteps(phases, old(bundle.sequences)), old(Here()), e)
      ensures e.None? ==> bundle.sequences == SeenAfter(phases, old(bundle.sequences))
      ensures e.None? ==> bundle.eventCount == old(bundle.eventCount) + EventCount(phases)
    {
      ghost var plan, all, from := bundle.dirs.plan, CollectSteps(phases, bundle.sequences), Here();
      assert phases[0..] == phases;
      for i := 0 to |phases|
        invariant Collecting() && Running(log) == Running(old(log)) && bundle.files.Keys == old(bundle.files.Keys)
        invariant bundle.eventCount + EventCount(phases[i..]) == old(bundle.eventCount) + EventCount(phases)
        invariant SeenAfter(phases[i..], bundle.sequences) == SeenAfter(phases, old(bundle.sequences))
        invariant Resumes(plan, all, from, CollectSteps(phases[i..], bundle.sequences), Here())
      {
        assert phases[i..][1..] == phases[i + 1..];
        ghost var seen, before := bundle.sequences, Here();
        e := CollectPhase(phases[i]);
        ContinueRest(plan, all, from, PhaseSteps(phases[i], seen),
                     CollectSteps(phases[i + 1..], SeenAfterRows(phases[i].rows, seen)), before, Here(), e);
        if e.Some? { return e; }
      }
      Finished(plan, all, from, Here());
      return None;
    }

    /** Open the status file and write the status of the lab to it. */
    method RecordStatus(accepted: bool) returns (e: Option<Kind>, ghost k: nat)
      requires Collecting() && bundle.files.Keys == RunFiles(false)
      modifies bundle`files, bundle.dirs`next
      ensures Collecting()
      ensures Did(FileSteps(accepted), old(Here()), e)
      ensures k == Passing(bundle.dirs.plan, FileSteps(accepted), old(bundle.dirs.next))
      ensures bundle.files.Keys == RunFiles(k > 0)
    {
      ghost var plan, n := bundle.dirs.plan, bundle.dirs.next;
      FileByStep(plan, accepted, n);
      assert log + [] == log;
      StatusNameIsSafe();
      StatusNameIsFree();
      var content: string := *;
      e := bundle.WriteTextArtifact(STATUS, content, accepted);
      k := Passing(plan, FileSteps(accepted), n);
    }

    /** Ask for the status of the lab and record it. */
    method CaptureStatus(m: Material) returns (e: Option<Kind>, ghost k: nat)
      requires Collecting() && bundle.files.Keys == RunFiles(false)
      modifies this`log, bundle`files, bundle.dirs`next
      ensures Collecting() && Running(log) == Running(old(log))
      ensures Did(StatusSteps(m), old(Here()), e)
      ensures k == Passing(bundle.dirs.plan, StatusSteps(m), old(bundle.dirs.next))
      ensures bundle.files.Keys == RunFiles(k > 1)
    {
      ghost var from := Here();
      e := Request(LabStatus);
      Continue(bundle.dirs.plan, One(Ask(LabStatus)), FileSteps(m.status), from, Here(), e);
      if e.Some? { return e, 0; }
      e, k := RecordStatus(m.status);
      k := 1 + k;
    }

    /** Stop the server and capture the lab status. */
    method StopAndCapture(m: Material) returns (e: Option<Kind>, ghost k: nat)
      requires Collecting() && serverStarted && bundle.files.Keys == RunFiles(false)
      modifies this`log, this`serverStarted, bundle`files, bundle.dirs`next
      ensures Collecting() && !Running(log)
      ensures Did(CaptureSteps(m), old(Here()), e)
      ensures k == Passing(bundle.dirs.plan, CaptureSteps(m), old(bundle.dirs.next))
      ensures (serverStarted <==> k == 0) && bundle.files.Keys == RunFiles(k > 2)
    {
      ghost var from := Here();
      e := StopTheServer();
      Continue(bundle.dirs.plan, One(Ask(StopServer)), StatusSteps(m), from, Here(), e);
      if e.Some? { return e, 0; }
      e, k := CaptureStatus(m);
      k := 1 + k;
    }

    /** Clean the lab and check that it is clean. */
    method CleanLab() returns (e: Option<Kind>)
      requires Logged() && !cleanupAttempted
      modifies this`log, this`cleanupAttempted, bundle.dirs`next
      ensures Logged() && cleanupAttempted && Running(log) == Running(old(log))
      ensures Did(CLEANING, old(Here()), e)
      ensures e.None? ==> log == old(log) + CLEAN
    {
      ghost var plan, from := bundle.dirs.plan, Here();
      e := CleanUp();
      if e.Some? {
        CleaningRan(plan, from, Here(), e);
        return e;
      }
      e := Make(AssertClean);
      CleaningRan(plan, from, Here(), e);
    }

    /** What step `k` of the script leaves when it fails, with the stop as step `stop`. */
    ghost predicate Reached(k: nat, stop: nat)
      reads this, bundle`files
    {
      && (Running(log) <==> STARTED <= k < stop)
      && (serverStarted <==> STARTED <= k <= stop)
      && (cleanupAttempted <==> k >= stop + CLEANED)
      && bundle.files.Keys == RunFiles(k > stop + OPENED)
    }

    /** Stop the server, capture the status and clean the lab. */
    method StopAndCleanLab(m: Material, ghost stop: nat) returns (e: Option<Kind>, ghost k: nat)
      requires Collecting() && serverStarted && bundle.files.Keys == RunFiles(false) && stop >= STARTED
      modifies this`log, this`serverStarted, this`cleanupAttempted, bundle`files, bundle.dirs`next
      ensures Held() && Logged()
      ensures Did(StopSteps(m), old(Here()), e)
      ensures k == Passing(bundle.dirs.plan, StopSteps(m), old(bundle.dirs.next))
      ensures Reached(stop + k, stop)
      ensures e.None? ==> EndsWith(log, CLEAN)
    {
      ghost var plan, from := bundle.dirs.plan, Here();
      ScriptSize(m);
      e, k := StopAndCapture(m);
      Continue(plan, CaptureSteps(m), CLEANING, from, Here(), e);
      if e.Some? { return; }
      k := k + Passing(plan, CLEANING, bundle.dirs.next);
      e := CleanLab();
    }

    /** Everything after the server is started, up to `finalise`. */
    method CollectAndClean(m: Material, ghost stop: nat) returns (e: Option<Kind>, ghost k: nat)
      requires Collecting() && Running(log) && serverStarted && stop == StopAt(m)
      requires HasFiles(2) && bundle.sequences == {}
      modifies this`log, this`serverStarted, this`cleanupAttempted
      modifies bundle`files, bundle`packetCount, bundle`sequences, bundle`eventCount, bundle.dirs`next
      ensures Held() && Logged()
      ensures Did(MeasureSteps(m), old(Here()), e)
      ensures k == Passing(bundle.dirs.plan, MeasureSteps(m), old(bundle.dirs.next))
      ensures Reached(STARTED + k, stop)
      ensures e.None? ==> bundle.sequences == SeenAfter(m.phases, {}) && EndsWith(log, CLEAN)
      ensures e.None? ==> bundle.eventCount == old(bundle.eventCount) + EventCount(m.phases)
    {
      ghost var plan, from := bundle.dirs.plan, Here();
      e := CollectPhases(m.phases);
      Continue(plan, CollectSteps(m.phases, {}), StopSteps(m), from, Here(), e);
      if e.Some? { return e, Passing(plan, MeasureSteps(m), from.next); }
      e, k := StopAndCleanLab(m, stop);
      k := stop - STARTED + k;
    }

    /** The body of the `try` before `finalise`. */
    method Measure(m: Material) returns (e: Option<Kind>, ghost k: nat)
      requires Collecting() && !Running(log) && !serverStarted
      requires HasFiles(2) && bundle.sequences == {}
      modifies this`log, this`serverStarted, this`cleanupAttempted
      modifies bundle`files, bundle`packetCount, bundle`sequences, bundle`eventCount, bundle.dirs`next
      ensures Held() && Logged()
      ensures Did(Script(m), old(Here()), e)
      ensures k == Passing(bundle.dirs.plan, Script(m), old(bundle.dirs.next))
      ensures Reached(k, StopAt(m))
      ensures e.None? ==> bundle.sequences == SeenAfter(m.phases, {}) && EndsWith(log, CLEAN)
      ensures e.None? ==> bundle.eventCount == old(bundle.eventCount) + 1 + EventCount(m.phases)
    {
      ghost var plan, from := bundle.dirs.plan, Here();
      ScriptSize(m);
      e := Prepare(m);
      Continue(plan, PrepareSteps(m), MeasureSteps(m), from, Here(), e);
      if e.Some? { return e, Passing(plan, Script(m), from.next); }
      e, k := CollectAndClean(m, StopAt(m));
      k := STARTED + k;
    }

    // ----- Finalising -----

    /** One more bundle, this run's, was published with this status. */
    ghost predicate Holds(status: Status)
      reads bundle, bundle.dirs`final_
    {
      bundle.Adds(staging, before) && bundle.state == Published && bundle.files[MANIFEST].status == status
    }

    /** The bundle was handed over and not published, unless its publication stranded it. */
    ghost predicate Fails()
      reads bundle, bundle.dirs`final_
    {
      && bundle.state == Quarantined
      && if bundle.Stranded() then bundle.Adds(staging, before) else bundle.dirs.final_ == before
    }

    lemma WrittenIsKept(written: Files, files: Files)
      requires files - {MANIFEST, SUMS} == written
      ensures STATUS in written ==> STATUS in files
    {
    }

    /** Finalise a bundle that does not refuse the arguments. */
    method Seal(status: Status, reason: Option<string>, verdict: bool, ghost files: nat, ghost good: bool)
      returns (e: Option<Kind>)
      requires Held() && HasFiles(files) && !bundle.Refused(status, reason)
      requires good <==>
        verdict && NoFaults(bundle.dirs.plan, bundle.dirs.next, Finalising(files))
      modifies this`log, bundle`state, bundle`files, bundle`publication, bundle.dirs
      ensures bundle.Valid() && (if e.None? then Holds(status) else Fails()) && (e.None? <==> good)
      ensures log == old(log) + [Event(Finalised(status), e.None?)]
      ensures e.None? && files == 3 ==> STATUS in bundle.files
    {
      assert |bundle.files| == files && CanSeal(bundle.files, bundle.sha, true) by {
        NamedFilesSeal(bundle.files, bundle.sha, files);
      }
      e := bundle.Finalise(status, reason, verdict);
      if e.None? {
        WrittenIsKept(old(bundle.files), bundle.files);
      }
      log := log + [Event(Finalised(status), e.None?)];
    }

    /** A bundle without packets refuses to be complete, and stays open. */
    method SealNothing(verdict: bool) returns (e: Option<Kind>)
      requires Held() && bundle.Refused(Complete, None)
      modifies this`log, bundle`state, bundle`files, bundle`publication, bundle.dirs
      ensures e == Some(Ordinary) && Held()
      ensures bundle.files == old(bundle.files) && bundle.dirs.next == old(bundle.dirs.next)
      ensures log == old(log) + [Event(Finalised(Complete), false)]
    {
      e := bundle.Finalise(Complete, None, verdict);
      log := log + [Event(Finalised(Complete), false)];
    }

    lemma FinalisedLogs(before_: seq<Event>, status: Status, ok: bool)
      ensures Cleanups(before_ + [Event(Finalised(status), ok)]) == Cleanups(before_)
      ensures Running(before_ + [Event(Finalised(status), ok)]) == Running(before_)
      ensures EndsWith(before_, CLEAN) && status == Complete && ok ==>
        EndsWith(before_ + [Event(Finalised(status), ok)], CLEAN_END)
    {
      LogSnoc(before_, Event(Finalised(status), ok));
    }

    // ----- The failure handler -----

    /** Stop a started server. */
    method StopIfStarted() returns (interrupt: bool)
      requires Logged()
      modifies this`log, bundle.dirs`next
      ensures Logged() && !Running(log) && Closes(old(log), log)
      ensures interrupt <==> serverStarted && bundle.dirs.plan(old(bundle.dirs.next)) == Some(Interrupt)
      ensures bundle.dirs.next == old(bundle.dirs.next) + if serverStarted then 1 else 0
    {
      interrupt := false;
      if serverStarted {
        var e := Make(StopServer);
        interrupt := e == Some(Interrupt);
      }
    }

    /** Clean the lab and check it, unless that was tried. */
    method CleanIfNeeded() returns (interrupt: bool)
      requires Logged()
      modifies this`log, this`cleanupAttempted, bundle.dirs`next
      ensures Logged() && Running(log) == Running(old(log)) && cleanupAttempted && Closes(old(log), log)
      ensures !interrupt <==> CleansUp(bundle.dirs.plan, old(bundle.dirs.next), false, old(cleanupAttempted))
      ensures bundle.dirs.next == CleanedBy(bundle.dirs.plan, old(bundle.dirs.next), false, old(cleanupAttempted))
    {
      var e: Option<Kind> := None;
      if !cleanupAttempted {
        e := CleanUp();
        if e.None? {
          e := Make(AssertClean);
        }
      }
      interrupt := e == Some(Interrupt);
    }

    /** Stop a started server and clean the lab; only an interrupt gets out of here. */
    method StopAndClean() returns (interrupt: bool)
      requires Logged()
      modifies this`log, this`cleanupAttempted, bundle.dirs`next
      ensures Logged() && !Running(log) && Closes(old(log), log)
      ensures
        var n := old(bundle.dirs.next);
        && (interrupt <==> !CleansUp(bundle.dirs.plan, n, serverStarted, old(cleanupAttempted)))
        && (!interrupt ==>
              && cleanupAttempted
              && bundle.dirs.next == CleanedBy(bundle.dirs.plan, n, serverStarted, old(cleanupAttempted)))
    {
      interrupt := StopIfStarted();
      if !interrupt {
        ghost var stopped := log;
        interrupt := CleanIfNeeded();
        ClosesTransitive(old(log), stopped, log);
      }
    }

    /** The failure event of an open bundle. */
    method RecordFailure(ghost files: nat) returns (e: Option<Kind>)
      requires Held() && HasFiles(files)
      modifies bundle`files, bundle`eventCount, bundle.dirs`next
      ensures Held() && HasFiles(files)
      ensures e == bundle.dirs.plan(old(bundle.dirs.next)) && bundle.dirs.next == old(bundle.dirs.next) + 1
    {
      e := bundle.WriteEvent("run_failed", true);
    }

    /** Finalise the bundle as incomplete. */
    method SealFailure(reason: string, verdict: bool, ghost files: nat, ghost good: bool) returns (e: Option<Kind>)
      requires Held() && Logged() && HasFiles(files) && !IsBlank(reason)
      requires good <==> verdict && NoFaults(bundle.dirs.plan, bundle.dirs.next, Finalising(files))
      modifies this`log, bundle`state, bundle`files, bundle`publication, bundle.dirs
      ensures Logged() && Running(log) == Running(old(log)) && Closes(old(log), log)
      ensures (e.None? <==> good) && if good then Holds(Incomplete) else Fails()
    {
      FinalisedLogs(log, Incomplete, good);
      e := Seal(Incomplete, Some(reason), verdict, files, good);
    }

    /** Record the failure and finalise the bundle as incomplete. */
    method PublishFailure(reason: string, verdict: bool, ghost files: nat, ghost good: bool) returns (e: Option<Kind>)
      requires Held() && Logged() && HasFiles(files) && !IsBlank(reason)
      requires good <==>
        && verdict && bundle.dirs.plan(bundle.dirs.next).None?
        && NoFaults(bundle.dirs.plan, bundle.dirs.next + 1, Finalising(files))
      modifies this`log, bundle, bundle.dirs
      ensures Logged() && Running(log) == Running(old(log)) && Closes(old(log), log)
      ensures (e.None? <==> good) && if good then Holds(Incomplete) else Held() || Fails()
    {
      e := RecordFailure(files);
      if e.None? {
        e := SealFailure(reason, verdict, files, good);
      }
    }

    /** The `except Exception` clause on an open bundle: keep the failure as an incomplete bundle. */
    method Recover(reason: string, verdict: bool, ghost files: nat, ghost keeps: bool) returns (r: RunResult)
      requires Held() && Logged() && HasFiles(files) && !IsBlank(reason)
      requires keeps <==>
        Keeps(bundle.dirs.plan, bundle.dirs.next, serverStarted, cleanupAttempted, files, verdict)
      modifies this, bundle, bundle.dirs
      ensures Logged() && !Running(log) && Closes(old(log), log)
      ensures r != Returned(Complete) && (r == Returned(Incomplete) <==> keeps)
      ensures if r.Returned? then cleanupAttempted && Holds(Incomplete) else Held() || Fails()
    {
      var interrupt := StopAndClean();
      if interrupt {
        return Raised(Interrupt);
      }
      ghost var cleaned := log;
      var e := PublishFailure(reason, verdict, files, keeps);
      ClosesTransitive(old(log), cleaned, log);
      return if e.None? then Returned(Incomplete) else Raised(e.value);
    }

    /** Finalise as complete; if that raises, the handler finds a bundle that takes no failure event. */
    method Conclude(verdict: bool, ghost good: bool) returns (r: RunResult)
      requires Held() && Logged() && HasFiles(3) && bundle.packetCount > 0 && bundle.eventCount > 0
      requires good <==> verdict && NoFaults(bundle.dirs.plan, bundle.dirs.next, Finalising(3))
      modifies this`log, bundle`state, bundle`files, bundle`publication, bundle`eventCount, bundle.dirs
      ensures Logged() && Running(log) == Running(old(log))
      ensures log == old(log) + [Event(Finalised(Complete), good)]
      ensures if good then r == Returned(Complete) else r.Raised?
      ensures if good then Holds(Complete) && bundle.eventCount == old(bundle.eventCount) else Fails()
      ensures good && EndsWith(old(log), CLEAN) ==> EndsWith(log, CLEAN_END)
      ensures good ==> STATUS in bundle.files
    {
      FinalisedLogs(log, Complete, good);
      var e := Seal(Complete, None, verdict, 3, good);
      if e.None? {
        return Returned(Complete);
      }
      if e.value == Ordinary {
        e := bundle.WriteEvent("run_failed", true);
      }
      r := Raised(e.value);
    }

    /** What the `try` makes of a failure: an ordinary one goes to the handler, an interrupt gets out. */
    method HandleFailure(kind: Kind, verdict: bool, ghost files: nat, ghost keeps: bool) returns (r: RunResult)
      requires Held() && Logged() && HasFiles(files)
      requires keeps <==>
        && kind == Ordinary
        && Keeps(bundle.dirs.plan, bundle.dirs.next, serverStarted, cleanupAttempted, files, verdict)
      modifies this, bundle, bundle.dirs
      ensures Logged() && (Running(log) <==> kind == Interrupt && old(Running(log))) && (kind == Interrupt ==> Held())
      ensures Closes(old(log), log)
      ensures r != Returned(Complete) && (r == Returned(Incomplete) <==> keeps)
      ensures if r.Returned? then cleanupAttempted && Holds(Incomplete) else Held() || Fails()
    {
      match kind {
        case Interrupt => r := Raised(Interrupt);
        case Ordinary =>
          ReasonIsNotBlank();
          r := Recover(REASON, verdict, files, keeps);
      }
    }

    /** A run that measured nothing cannot be completed, and is handled as a failure. */
    method ConcludeNothing(verdict: Status -> bool, ghost keeps: bool) returns (r: RunResult)
      requires Held() && Logged() && !Running(log) && HasFiles(3) && bundle.packetCount == 0
      requires keeps <==>
        Keeps(bundle.dirs.plan, bundle.dirs.next, serverStarted, cleanupAttempted, 3, verdict(Incomplete))
      modifies this, bundle, bundle.dirs
      ensures Logged() && !Running(log) && Closes(old(log), log)
      ensures r != Returned(Complete) && (r == Returned(Incomplete) <==> keeps)
      ensures if r.Returned? then cleanupAttempted && Holds(Incomplete) else Held() || Fails()
    {
      FinalisedLogs(log, Complete, false);
      var e := SealNothing(verdict(Complete));
      ghost var refused := log;
      r := HandleFailure(e.value, verdict(Incomplete), 3, keeps);
      ClosesTransitive(old(log), refused, log);
    }

    /** What follows the steps before `finalise`: its last step, or the handler. */
    method Finish(e: Option<Kind>, verdict: Status -> bool, ghost files: nat, ghost completes: bool, ghost keeps: bool)
      returns (r: RunResult)
      requires Held() && Logged() && HasFiles(files)
      requires e.None? ==> files == 3 && !Running(log) && bundle.eventCount > 0 && EndsWith(log, CLEAN)
      requires completes <==>
        && e.None? && bundle.packetCount > 0
        && verdict(Complete) && NoFaults(bundle.dirs.plan, bundle.dirs.next, Finalising(3))
      requires keeps <==>
        && (e == Some(Ordinary) || (e.None? && bundle.packetCount == 0))
        && Keeps(bundle.dirs.plan, bundle.dirs.next, serverStarted, cleanupAttempted, files, verdict(Incomplete))
      modifies this, bundle, bundle.dirs
      ensures Logged() && Closes(old(log), log) && (Running(log) <==> e == Some(Interrupt) && old(Running(log)))
      ensures r == Returned(Complete) <==> completes
      ensures r == Returned(Incomplete) <==> keeps
      ensures if r.Returned? then (completes || cleanupAttempted) && Holds(r.status) else Held() || Fails()
      ensures e == Some(Interrupt) ==> Held()
      ensures completes ==> log == old(log) + [Event(Finalised(Complete), true)]
      ensures completes ==>
        && bundle.sequences == old(bundle.sequences) && bundle.packetCount == old(bundle.packetCount)
        && bundle.eventCount == old(bundle.eventCount) && STATUS in bundle.files
      ensures completes ==> EndsWith(log, CLEAN_END) && cleanupAttempted == old(cleanupAttempted)
    {
      if e.Some? {
        r := HandleFailure(e.value, verdict(Incomplete), files, keeps);
      } else if bundle.packetCount == 0 {
        r := ConcludeNothing(verdict, keeps);
      } else {
        r := Conclude(verdict(Complete), completes);
      }
    }

    /** Every row and every event of the phases was written, once, and the status of the lab. */
    ghost predicate Recorded(m: Material, before: nat)
      reads bundle`sequences, bundle`packetCount, bundle`eventCount, bundle`files
    {
      && "lab-status.json" in bundle.files
      && bundle.sequences == SeenAfter(m.phases, {}) && bundle.packetCount == |bundle.sequences|
      && bundle.eventCount == before + 1 + EventCount(m.phases)
    }

    /** The `try` and its `except Exception` clause. */
    method AttemptOrRecover(m: Material, verdict: Status -> bool, ghost ends: Ending)
      returns (r: RunResult, ghost calls: seq<Event>)
      requires Collecting() && !Running(log) && !serverStarted && HasFiles(2) && bundle.sequences == {}
      requires ends == EndingOf(bundle.dirs.plan, bundle.dirs.next, m, verdict)
      modifies this, bundle, bundle.dirs
      ensures Logged() && (Running(log) <==> ends.Abandoned?) && (ends.Abandoned? ==> Held())
      ensures r == Returned(Complete) <==> ends.Completed?
      ensures r == Returned(Incomplete) <==> ends.Kept?
      ensures if r.Returned? then cleanupAttempted && Holds(r.status) else Held() || Fails()
      ensures r == Returned(Complete) ==> EndsWith(log, CLEAN_END)
      ensures Begins(calls, CallsOf(m)) && Closes(old(log) + calls, log)
      ensures r == Returned(Complete) ==>
        AllReturned(calls, CallsOf(m)) && log == old(log) + calls + [Event(Finalised(Complete), true)]
      ensures r == Returned(Complete) ==> Recorded(m, old(bundle.eventCount))
    {
      ghost var n, from := bundle.dirs.next, Here();
      var e: Option<Kind>;
      ghost var k: nat;
      e, k := Measure(m);
      calls := ScriptLog(bundle.dirs.plan, m, from, Here(), e);
      EndingByParts(bundle.dirs.plan, n, m, verdict, bundle.dirs.next, e);
      r := Finish(e, verdict, if k > StopAt(m) + OPENED then 3 else 2, ends.Completed?, ends.Kept?);
    }

    /** The `finally` clause; after a raised error the lab may not have been cleaned yet. */
    method CleanUpLast(raised: RunResult) returns (r: RunResult)
      requires raised.Raised? && Logged()
      modifies this`log, this`cleanupAttempted, bundle.dirs`next
      ensures r.Raised? && Cleanups(log) == 1 && Running(log) == Running(old(log)) && Closes(old(log), log)
    {
      r := raised;
      if !cleanupAttempted {
        var e := CleanUp();
        r := if e.Some? then Raised(e.value) else r;
      }
    }

    /**
      * `run`. How it ends is what the plan says. The lab is cleaned exactly once, whatever is raised
      * where. A server is left running exactly if the run is abandoned: an interrupt was raised
      * between the start that returned and the stop. An outcome means one published bundle with its
      * status; a raised error means none, unless the publication stranded it.
      */
    method Run(m: Material, verdict: Status -> bool) returns (r: RunResult, ghost ends: Ending, ghost asked: nat)
      requires Collecting() && log == [] && !serverStarted && HasFiles(2) && bundle.sequences == {}
      modifies this, bundle, bundle.dirs
      ensures ends == EndingOf(bundle.dirs.plan, old(bundle.dirs.next), m, verdict)
      ensures r == Returned(Complete) <==> ends.Completed?
      ensures r == Returned(Incomplete) <==> ends.Kept?
      ensures Running(log) <==> ends.Abandoned?
      ensures ends.Abandoned? ==> Held()
      ensures Cleanups(log) == 1
      ensures asked <= |log| && IsLog(log, m, asked)
      ensures r == Returned(Complete) ==> IsCompleteLog(log, m) && Recorded(m, old(bundle.eventCount))
      ensures if r.Returned? then Holds(r.status) else Held() || Fails()
      ensures r == Returned(Complete) ==> EndsWith(log, CLEAN_END)
    {
      ends := EndingOf(bundle.dirs.plan, bundle.dirs.next, m, verdict);
      ghost var calls: seq<Event>;
      r, calls := AttemptOrRecover(m, verdict, ends);
      asked := |calls|;
      if r.Raised? {
        ghost var attempted := log;
        r := CleanUpLast(r);
        ClosesTransitive([] + calls, attempted, log);
      }
      LogOfCalls(calls, log, m);
    }
  }

  // ----- One interrupted run -----

  /** A run over empty parents. */
  method NewRun(plan: Faults) returns (run: ExperimentRun)
    ensures fresh(run) && fresh(run.bundle) && fresh(run.bundle.dirs)
    ensures run.bundle.dirs.plan == plan && run.bundle.dirs.next == 0
    ensures run.Collecting() && run.log == [] && !run.serverStarted && run.HasFiles(2) && run.bundle.sequences == {}
    ensures run.before == map[]
  {
    DigestIsSha();
    var dirs := new Parents(map[], map[], plan);
    var bundle := new EvidenceBundle(dirs, "run", 7, Digest);
    run := new ExperimentRun(bundle);
  }

  /** One phase with one packet, everything accepted. */
  const ONE_PHASE: Material := Material(true, [Phase(0, true, [Row(0, true)], [], true)], true)

  /** Its seventh call: the phase itself. */
  const PHASE_CALL: nat := STARTED + 1

  lemma OnePhase()
    ensures Script(ONE_PHASE).AllAccepted() && HasRows(ONE_PHASE)
    ensures StopAt(ONE_PHASE) == STARTED + 4
  {
    var p := ONE_PHASE.phases[0];
    assert RowSteps(p.rows, {}) == Both(One(Write(true)), Nothing);
    assert p.events + [p.completed] == [true];
    assert EventSteps([true]) == Both(One(Write(true)), Nothing);
    assert RecordSteps(p, {}).Size() == 2 && RecordSteps(p, {}).AllAccepted();
    assert PhaseSteps(p, {}).Size() == 4 && PhaseSteps(p, {}).AllAccepted();
    assert CollectSteps(ONE_PHASE.phases, {}) == Both(PhaseSteps(p, {}), Nothing);
    assert SeenAfterRows(p.rows, {}) == {0};
  }

  lemma InterruptedPhaseAbandons(plan: Faults, verdict: Status -> bool)
    requires OnlyFault(plan, PHASE_CALL) && plan(PHASE_CALL) == Some(Interrupt)
    ensures EndingOf(plan, 0, ONE_PHASE, verdict).Abandoned?
  {
    OnePhase();
    OneInterruptAbandons(plan, 0, ONE_PHASE, verdict, PHASE_CALL);
  }

  /** The executor is interrupted: the lab is cleaned, nothing is published, and the server stays up. */
  method InterruptLeavesServerRunning(verdict: Status -> bool) returns (run: ExperimentRun, r: RunResult)
    ensures OnlyFault(run.bundle.dirs.plan, PHASE_CALL) && run.bundle.dirs.plan(PHASE_CALL) == Some(Interrupt)
    ensures r.Raised? && Running(run.log) && Cleanups(run.log) == 1
    ensures run.bundle.dirs.final_ == map[]
  {
    var plan: Faults := i => if i == PHASE_CALL then Some(Interrupt) else None;
    run := NewRun(plan);
    InterruptedPhaseAbandons(plan, verdict);
    ghost var ends: Ending;
    ghost var asked: nat;
    r, ends, asked := run.Run(ONE_PHASE, verdict);
  }
}
