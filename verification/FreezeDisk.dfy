/** The freezer itself, step by step on a disk whose calls may fail and whose directories lag. */
module FreezeDisk {
  import opened Common
  import opened FileSystem
  import opened Freeze

  type File = (Inode, Content)

  lemma WithinTransitive(a: Fs, b: Fs, c: Fs, d: DirId, m: set<Name>, n: set<Name>, all: set<Name>)
    requires Within(a, b, d, m) && Within(b, c, d, n) && m <= all && n <= all
    ensures Within(a, c, d, all)
  {
  }

  /** Steps on temps leave the plan entry, and what it holds, alone. */
  lemma CommittedKept(cfg: Config, before: Fs, after: Fs, d: DirId, names: set<Name>)
    requires Good(cfg, before) && Within(before, after, d, names)
    requires d != cfg.planDir || cfg.plan !in names
    ensures Committed(cfg, after) == Committed(cfg, before)
  {
    assert Holds(cfg, before, NoLosses);
    assert PlanAt(cfg, after, NoLosses) == Seen(before, cfg.planDir, cfg.plan);
  }

  /** Nothing stands under the content-addressed name, or exactly the schedule does. */
  predicate ScheduleFits(cfg: Config, fs: Fs) {
    var s := SchedAt(cfg, fs, NoLosses);
    s.Some? ==> ContentOf(fs, s.value) == cfg.schedule
  }

  lemma SeenScheduleIsSynced(cfg: Config, fs: Fs)
    requires cfg.Valid() && Good(cfg, fs)
    ensures SchedAt(cfg, fs, NoLosses).Some? ==> SchedAt(cfg, fs, NoLosses).value in fs.synced
  {
    assert Holds(cfg, fs, NoLosses);
  }

  lemma FitsKept(cfg: Config, before: Fs, after: Fs)
    requires cfg.Valid() && Good(cfg, before) && Within(before, after, cfg.schedDir, {cfg.schedTmp})
    ensures ScheduleFits(cfg, after) == ScheduleFits(cfg, before)
  {
    SeenScheduleIsSynced(cfg, before);
    assert SchedAt(cfg, after, NoLosses) == Seen(before, cfg.schedDir, cfg.sched);
  }

  /** The published schedule is under its name in every survivor. */
  ghost predicate ScheduleSettled(cfg: Config, fs: Fs) {
    FileIs(fs, SchedAt(cfg, fs, NoLosses), cfg.schedule) && Settled(fs, cfg.schedDir, cfg.sched)
  }

  lemma ScheduleSettledKept(cfg: Config, before: Fs, after: Fs, names: set<Name>)
    requires cfg.Valid() && names <= {cfg.planTmp, cfg.plan}
    requires ScheduleSettled(cfg, before) && Within(before, after, cfg.planDir, names)
    ensures ScheduleSettled(cfg, after)
  {
    assert SchedAt(cfg, after, NoLosses) == Seen(before, cfg.schedDir, cfg.sched);
  }

  /** The switched plan is under its name, and its temp is gone, in every survivor. */
  ghost predicate PlanSettled(cfg: Config, fs: Fs) {
    && Committed(cfg, fs) && Settled(fs, cfg.planDir, cfg.plan)
    && PlanTmpAt(cfg, fs, NoLosses).None? && Settled(fs, cfg.planDir, cfg.planTmp)
  }

  lemma PlanSeen(cfg: Config, fs: Fs)
    requires cfg.Valid() && Good(cfg, fs)
    ensures
      var p := PlanAt(cfg, fs, NoLosses);
      && p.Some? && p.value in fs.synced
      && Registered(ContentOf(fs, p.value), cfg.sched, cfg.schedule) == cfg.New()
      && (ContentOf(fs, p.value) == cfg.old_ || ContentOf(fs, p.value) == cfg.New())
      && (ContentOf(fs, p.value) == cfg.New() <==> Committed(cfg, fs))
  {
    assert Holds(cfg, fs, NoLosses);
  }

  predicate PlanReads(cfg: Config, fs: Fs, original: File) {
    PlanAt(cfg, fs, NoLosses) == Some(original.0) && ContentOf(fs, original.0) == original.1
  }

  lemma PlanReadsKept(cfg: Config, before: Fs, after: Fs, d: DirId, names: set<Name>, original: File)
    requires cfg.Valid() && Good(cfg, before) && PlanReads(cfg, before, original)
    requires Within(before, after, d, names) && (d != cfg.planDir || cfg.plan !in names)
    ensures PlanReads(cfg, after, original)
  {
    PlanSeen(cfg, before);
    assert PlanAt(cfg, after, NoLosses) == Seen(before, cfg.planDir, cfg.plan);
  }

  /** The schedule is published for good and its temp is gone. */
  ghost predicate Published(cfg: Config, fs: Fs) {
    && ScheduleSettled(cfg, fs)
    && SchedTmpAt(cfg, fs, NoLosses).None? && Settled(fs, cfg.schedDir, cfg.schedTmp)
  }

  lemma PublishedKept(cfg: Config, before: Fs, after: Fs)
    requires cfg.Valid() && Published(cfg, before) && Within(before, after, cfg.planDir, {cfg.planTmp, cfg.plan})
    ensures Published(cfg, after)
  {
    ScheduleSettledKept(cfg, before, after, {cfg.planTmp, cfg.plan});
    assert SchedTmpAt(cfg, after, NoLosses) == Seen(before, cfg.schedDir, cfg.schedTmp);
  }

  /** What a finished freeze leaves: the plan at its target, the schedule on disk for good, no temps. */
  ghost predicate Finished(cfg: Config, fs: Fs) {
    && Committed(cfg, fs) && Published(cfg, fs)
    && (cfg.old_ != cfg.New() ==> PlanTmpAt(cfg, fs, NoLosses).None?)
  }

  lemma SwitchedHasNoTemp(cfg: Config, fs: Fs)
    requires cfg.Valid() && Good(cfg, fs) && Committed(cfg, fs)
    ensures cfg.old_ != cfg.New() ==> PlanTmpAt(cfg, fs, NoLosses).None?
  {
    assert Holds(cfg, fs, NoLosses);
  }

  /** No power loss can bring the old plan back. */
  ghost predicate PlanDurable(cfg: Config, fs: Fs) {
    forall kept :: FileIs(fs, PlanAt(cfg, fs, kept), cfg.New())
  }

  /** In this survivor the plan registers the schedule, and everything else in it is as it was. */
  ghost predicate Registers(cfg: Config, fs: Fs, kept: Losses) {
    var p := PlanAt(cfg, fs, kept);
    && p.Some? && p.value in fs.synced
    && var c := ContentOf(fs, p.value);
       cfg.old_.PlanFile? && c.PlanFile?
       && c.target == cfg.sched && c.digest == Sha256(cfg.schedule) && c.rest == cfg.old_.rest
  }

  lemma NewRegisters(cfg: Config, fs: Fs, kept: Losses)
    requires cfg.Valid() && FileIs(fs, PlanAt(cfg, fs, kept), cfg.New())
    ensures Registers(cfg, fs, kept)
  {
  }

  /** What a durable switch looks like, whatever a power loss keeps. */
  lemma DurableRegisters(cfg: Config, fs: Fs)
    requires cfg.Valid() && Committed(cfg, fs)
    ensures Registers(cfg, fs, NoLosses)
    ensures PlanDurable(cfg, fs) ==> forall kept :: Registers(cfg, fs, kept)
  {
    NewRegisters(cfg, fs, NoLosses);
    forall kept | PlanDurable(cfg, fs) ensures Registers(cfg, fs, kept) {
      NewRegisters(cfg, fs, kept);
    }
  }

  /** At every step, in every survivor: the plan is as it was, or only its registration has changed. */
  lemma OnlyRegistrationChanges(cfg: Config, fs: Fs, kept: Losses)
    requires cfg.Valid() && Good(cfg, fs)
    ensures PlanAt(cfg, fs, kept).Some?
    ensures ContentOf(fs, PlanAt(cfg, fs, kept).value) == cfg.old_ || Registers(cfg, fs, kept)
  {
    assert Holds(cfg, fs, kept);
    if FileIs(fs, PlanAt(cfg, fs, kept), cfg.New()) {
      NewRegisters(cfg, fs, kept);
    }
  }

  /** The run itself syncs the plan's directory: it switches the plan, or the schedule lives there too. */
  predicate Switches(cfg: Config, fs: Fs) {
    !Committed(cfg, fs) || cfg.planDir == cfg.schedDir
  }

  /** `_assert_registration_transition`. */
  predicate Admits(cfg: Config, fs: Fs, expected: Ref) {
    var p := PlanAt(cfg, fs, NoLosses);
    && p.Some?
    && var c := ContentOf(fs, p.value);
       c.PlanFile? && ((c.target, c.digest) == expected || (c.target, c.digest) == (cfg.sched, Sha256(cfg.schedule)))
  }

  lemma SettledIsDurable(cfg: Config, fs: Fs)
    requires Committed(cfg, fs) && Settled(fs, cfg.planDir, cfg.plan)
    ensures PlanDurable(cfg, fs)
  {
    forall kept ensures FileIs(fs, PlanAt(cfg, fs, kept), cfg.New()) {
      assert Entry(fs, kept, cfg.planDir, cfg.plan) == Seen(fs, cfg.planDir, cfg.plan);
    }
  }

  lemma DurableKept(cfg: Config, before: Fs, after: Fs)
    requires cfg.Valid() && Good(cfg, before) && Grown(before, after)
    requires cfg.planDir in after.dirs && after.dirs[cfg.planDir] == before.dirs[cfg.planDir]
    ensures PlanDurable(cfg, after) <==> PlanDurable(cfg, before)
  {
    forall kept
      ensures FileIs(after, PlanAt(cfg, after, kept), cfg.New()) <==>
        FileIs(before, PlanAt(cfg, before, kept), cfg.New())
    {
      assert Holds(cfg, before, kept);
      assert PlanAt(cfg, after, kept) == PlanAt(cfg, before, kept);
    }
  }

  lemma PublishKeepsPlan(cfg: Config, before: Fs, after: Fs, original: File)
    requires cfg.Valid() && Good(cfg, before) && PlanReads(cfg, before, original)
    requires Within(before, after, cfg.schedDir, {cfg.schedTmp, cfg.sched})
    ensures PlanReads(cfg, after, original) && Committed(cfg, after) == Committed(cfg, before)
    ensures cfg.planDir != cfg.schedDir ==> (PlanDurable(cfg, after) <==> PlanDurable(cfg, before))
  {
    PlanReadsKept(cfg, before, after, cfg.schedDir, {cfg.schedTmp, cfg.sched}, original);
    CommittedKept(cfg, before, after, cfg.schedDir, {cfg.schedTmp, cfg.sched});
    if cfg.planDir != cfg.schedDir {
      DurableKept(cfg, before, after);
    }
  }

  /** Exactly when the switch is on disk for good once the freeze returns. */
  lemma DurabilityOf(cfg: Config, before: Fs, published: Fs, after: Fs)
    requires cfg.Valid() && Committed(cfg, after)
    requires Committed(cfg, published) == Committed(cfg, before)
    requires cfg.planDir != cfg.schedDir ==> (PlanDurable(cfg, published) <==> PlanDurable(cfg, before))
    requires cfg.planDir == cfg.schedDir ==> Settled(published, cfg.planDir, cfg.plan)
    requires if Committed(cfg, published) then after == published else PlanSettled(cfg, after)
    ensures PlanDurable(cfg, after) <==> Switches(cfg, before) || PlanDurable(cfg, before)
  {
    if !Committed(cfg, before) || cfg.planDir == cfg.schedDir {
      SettledIsDurable(cfg, after);
    }
  }

  lemma ProbeKeepsInputs(cfg: Config, before: Fs, after: Fs)
    requires cfg.Valid() && Good(cfg, before) && Within(before, after, cfg.planDir, {})
    requires Settled(after, cfg.planDir, cfg.plan)
    ensures ScheduleFits(cfg, after) == ScheduleFits(cfg, before)
    ensures Committed(cfg, after) ==> PlanDurable(cfg, after)
  {
    PlanSeen(cfg, before);
    SeenScheduleIsSynced(cfg, before);
    assert PlanAt(cfg, after, NoLosses) == Seen(before, cfg.planDir, cfg.plan);
    assert SchedAt(cfg, after, NoLosses) == Seen(before, cfg.schedDir, cfg.sched);
    if Committed(cfg, after) {
      SettledIsDurable(cfg, after);
    }
  }

  /** What stood under the content-addressed name at the start, if anything, was the schedule. */
  predicate BaseFits(cfg: Config) {
    cfg.base.Some? ==> cfg.base.value in cfg.files && cfg.files[cfg.base.value] == cfg.schedule
  }

  lemma BaseDecidesFit(cfg: Config, fs: Fs)
    requires cfg.Valid() && Good(cfg, fs)
    ensures ScheduleFits(cfg, fs) <==> BaseFits(cfg)
  {
    assert Holds(cfg, fs, NoLosses);
  }

  method FreshInode(used: set<Inode>) returns (i: Inode)
    ensures i !in used
  {
    i := 0;
    var rest := used;
    while rest != {}
      invariant rest <= used
      invariant forall x :: x in used && x !in rest ==> x < i
      decreases |rest|
    {
      var x :| x in rest;
      rest := rest - {x};
      if i <= x {
        i := x + 1;
      }
    }
  }

  /** A disk holding one freeze. `trace` lists the disk after every step taken on it. */
  class Disk {
    const cfg: Config
    const faulty: bool
    var fs: Fs
    var trace: seq<Fs>

    ghost predicate Valid()
      reads this
    {
      cfg.Valid() && Good(cfg, fs) && forall s :: s in trace ==> Good(cfg, s)
    }

    constructor (cfg: Config, fs: Fs, faulty: bool)
      requires cfg.Valid() && Good(cfg, fs)
      ensures Valid() && this.cfg == cfg && this.fs == fs && this.faulty == faulty && trace == [fs]
    {
      this.cfg, this.fs, this.faulty, this.trace := cfg, fs, faulty, [fs];
    }

    method Step(after: Fs)
      requires Valid() && Good(cfg, after)
      modifies this
      ensures Valid() && fs == after && trace == old(trace) + [after]
    {
      fs := after;
      trace := trace + [after];
    }

    /** A call that may fail, with its effect or without. */
    method Attempt(after: Fs) returns (r: Result<(), Failure>)
      requires Valid() && Good(cfg, after)
      modifies this
      ensures Valid() && old(trace) <= trace
      ensures fs == after || (r.Err? && fs == old(fs))
      ensures r.Err? ==> faulty && r.error == OsError
    {
      var fails: bool, done: bool := *, *;
      if !faulty || !fails || done {
        Step(after);
      }
      return if faulty && fails then Err(OsError) else Ok(());
    }

    method ReadAt(d: DirId, n: Name) returns (r: Result<File, Failure>)
      ensures r.Ok? ==> Seen(fs, d, n) == Some(r.value.0) && r.value.1 == ContentOf(fs, r.value.0)
      ensures r == Err(NotFound) ==> Seen(fs, d, n).None?
      ensures !faulty ==> if Seen(fs, d, n).Some? then r.Ok? else r == Err(NotFound)
    {
      var fails: bool := *;
      if faulty && fails {
        return Err(OsError);
      }
      var entry := Seen(fs, d, n);
      return if entry.None? then Err(NotFound) else Ok((entry.value, ContentOf(fs, entry.value)));
    }

    method VerifyExact(d: DirId, n: Name, content: Content) returns (r: Result<Inode, Failure>)
      ensures r.Ok? ==> Seen(fs, d, n) == Some(r.value) && ContentOf(fs, r.value) == content
      ensures r == Err(NotFound) ==> Seen(fs, d, n).None?
      ensures !faulty && Seen(fs, d, n).None? ==> r == Err(NotFound)
      ensures !faulty && Seen(fs, d, n).Some? ==> (r.Ok? <==> ContentOf(fs, Seen(fs, d, n).value) == content)
    {
      var file :- ReadAt(d, n);
      return if file.1 == content then Ok(file.0) else Err(Unexpected);
    }

    method FsyncDir(d: DirId) returns (r: Result<(), Failure>)
      requires Valid() && d in fs.dirs
      modifies this
      ensures Valid() && old(trace) <= trace
      ensures Within(old(fs), fs, d, {})
      ensures r.Ok? ==> fs == SyncDir(old(fs), d) && forall n :: Settled(fs, d, n)
      ensures !faulty ==> r.Ok?
    {
      SyncKeepsGood(cfg, fs, d);
      SyncIsWithin(fs, d);
      r := Attempt(SyncDir(fs, d));
    }

    method Unlink(d: DirId, n: Name) returns (r: Result<(), Failure>)
      requires Valid() && d in fs.dirs && cfg.IsTemp(d, n)
      modifies this
      ensures Valid() && old(trace) <= trace
      ensures Within(old(fs), fs, d, {n})
      ensures r.Ok? ==> Seen(fs, d, n).None?
      ensures !faulty ==> (r.Ok? <==> Seen(old(fs), d, n).Some?)
    {
      if Seen(fs, d, n).None? {
        return Err(NotFound);
      }
      TempUpdateKeepsGood(cfg, fs, d, Remove(n));
      UpdateIsWithin(fs, d, Remove(n), {n});
      UpdateSeen(fs, d, Remove(n));
      MovesOne(fs, NoLosses, NoLosses, d, Remove(n), true, d, n);
      r := Attempt(Update(fs, d, Remove(n)));
    }

    /** Exclusive creation of an empty temporary file. */
    method Create(d: DirId, n: Name) returns (r: Result<Inode, Failure>)
      requires Valid() && d in fs.dirs && cfg.IsTemp(d, n) && MayStage(cfg, fs, d, n)
      modifies this
      ensures Valid() && old(trace) <= trace
      ensures Within(old(fs), fs, d, {n})
      ensures r.Ok? ==> Seen(fs, d, n) == Some(r.value) && r.value in fs.contents && r.value !in fs.synced
      ensures !faulty ==> (r.Ok? <==> Seen(old(fs), d, n).None?)
    {
      if Seen(fs, d, n).Some? {
        return Err(Exists);
      }
      var i := FreshInode(fs.contents.Keys);
      var made := fs.(contents := fs.contents[i := Other("")]);
      ContentsKeepGood(cfg, fs, made);
      ContentsAreWithin(fs, made, d);
      CommittedKept(cfg, fs, made, d, {});
      TempUpdateKeepsGood(cfg, made, d, Set(n, i));
      UpdateIsWithin(made, d, Set(n, i), {n});
      WithinTransitive(fs, made, Update(made, d, Set(n, i)), d, {}, {n}, {n});
      UpdateSeen(made, d, Set(n, i));
      MovesOne(made, NoLosses, NoLosses, d, Set(n, i), true, d, n);
      var set_ :- Attempt(Update(made, d, Set(n, i)));
      return Ok(i);
    }

    /** Write, flush and sync one file, the content reaching the disk only at the sync. */
    method WriteSynced(ghost d: DirId, i: Inode, content: Content) returns (r: Result<(), Failure>)
      requires Valid() && i in fs.contents && i !in fs.synced
      modifies this
      ensures Valid() && old(trace) <= trace
      ensures Within(old(fs), fs, d, {}) && fs.dirs == old(fs).dirs
      ensures r.Ok? ==> FileIs(fs, Some(i), content)
      ensures !faulty ==> r.Ok?
    {
      var written := fs.(contents := fs.contents[i := content]);
      ContentsKeepGood(cfg, fs, written);
      ContentsAreWithin(fs, written, d);
      var flushed :- Attempt(written);
      var synced := fs.(synced := fs.synced + {i});
      ContentsKeepGood(cfg, fs, synced);
      ContentsAreWithin(fs, synced, d);
      WithinTransitive(old(fs), fs, synced, d, {}, {}, {});
      r := Attempt(synced);
    }

    /** Remove a stale temporary file, durably. */
    method ClearTemp(d: DirId, n: Name) returns (r: Result<(), Failure>)
      requires Valid() && d in fs.dirs && cfg.IsTemp(d, n)
      modifies this
      ensures Valid() && old(trace) <= trace
      ensures Within(old(fs), fs, d, {n})
      ensures r.Ok? ==> Seen(fs, d, n).None?
      ensures !faulty ==> r.Ok?
    {
      var existing := ReadAt(d, n);
      if existing.Err? {
        ContentsAreWithin(fs, fs, d);
        WithinTransitive(fs, fs, fs, d, {}, {}, {n});
        return if existing.error == NotFound then Ok(()) else Err(existing.error);
      }
      var gone :- Unlink(d, n);
      label Unlinked:
      r := FsyncDir(d);
      WithinTransitive(old(fs), old@Unlinked(fs), fs, d, {n}, {}, {n});
    }

    method StageTemp(d: DirId, n: Name, content: Content) returns (r: Result<Inode, Failure>)
      requires Valid() && d in fs.dirs && cfg.IsTemp(d, n) && MayStage(cfg, fs, d, n)
      modifies this
      ensures Valid() && old(trace) <= trace
      ensures Within(old(fs), fs, d, {n})
      ensures r.Ok? ==> Seen(fs, d, n) == Some(r.value) && FileIs(fs, Some(r.value), content)
      ensures !faulty ==> r.Ok?
    {
      var cleared :- ClearTemp(d, n);
      CommittedKept(cfg, old(fs), fs, d, {n});
      label Clear:
      var created := Create(d, n);
      WithinTransitive(old(fs), old@Clear(fs), fs, d, {n}, {n}, {n});
      if created.Err? {
        return Err(created.error);
      }
      label Created:
      var written := WriteSynced(d, created.value, content);
      WithinTransitive(old(fs), old@Created(fs), fs, d, {n}, {}, {n});
      if written.Err? {
        return Err(written.error);
      }
      var staged :- ReadAt(d, n);
      return Ok(staged.0);
    }

    /** Only the very file that was staged is removed. */
    method RemoveStagedTemp(d: DirId, n: Name, staged: Inode) returns (r: Result<(), Failure>)
      requires Valid() && d in fs.dirs && cfg.IsTemp(d, n)
      modifies this
      ensures Valid() && old(trace) <= trace
      ensures Within(old(fs), fs, d, {n})
      ensures r.Ok? ==> Seen(fs, d, n).None? && forall m :: Settled(fs, d, m)
      ensures !faulty && Seen(old(fs), d, n) == Some(staged) ==> r.Ok?
    {
      ContentsAreWithin(fs, fs, d);
      WithinTransitive(fs, fs, fs, d, {}, {}, {n});
      var current :- ReadAt(d, n);
      if current.0 != staged {
        return Err(Unexpected);
      }
      var gone :- Unlink(d, n);
      label Unlinked:
      r := FsyncDir(d);
      WithinTransitive(old(fs), old@Unlinked(fs), fs, d, {n}, {}, {n});
    }

    /** Hard-link the staged schedule under its content-addressed name, never over another file. */
    method PublishNoReplace(staged: Inode) returns (r: Result<(), Failure>)
      requires Valid() && FileIs(fs, Some(staged), cfg.schedule)
      requires Seen(fs, cfg.schedDir, cfg.schedTmp) == Some(staged)
      modifies this
      ensures Valid() && old(trace) <= trace
      ensures Within(old(fs), fs, cfg.schedDir, {cfg.sched})
      ensures r.Ok? ==> SchedAt(cfg, fs, NoLosses) == Some(staged)
      ensures !faulty ==> (r.Ok? <==> SchedAt(cfg, old(fs), NoLosses).None?)
    {
      if Seen(fs, cfg.schedDir, cfg.sched).Some? {
        ContentsAreWithin(fs, fs, cfg.schedDir);
        WithinTransitive(fs, fs, fs, cfg.schedDir, {}, {}, {cfg.sched});
        return Err(Exists);
      }
      var op := Set(cfg.sched, staged);
      LinkKeepsGood(cfg, fs, staged);
      UpdateIsWithin(fs, cfg.schedDir, op, {cfg.sched});
      ContentsAreWithin(fs, fs, cfg.schedDir);
      WithinTransitive(fs, fs, fs, cfg.schedDir, {}, {}, {cfg.sched});
      UpdateSeen(fs, cfg.schedDir, op);
      MovesOne(fs, NoLosses, NoLosses, cfg.schedDir, op, true, cfg.schedDir, cfg.sched);
      r := Attempt(Update(fs, cfg.schedDir, op));
    }

    /** Publish the schedule unless it is already there; anything else there is an error. */
    method LinkSchedule(staged: Inode) returns (r: Result<Inode, Failure>)
      requires Valid() && FileIs(fs, Some(staged), cfg.schedule)
      requires Seen(fs, cfg.schedDir, cfg.schedTmp) == Some(staged)
      modifies this
      ensures Valid() && old(trace) <= trace
      ensures Within(old(fs), fs, cfg.schedDir, {cfg.sched})
      ensures r.Ok? ==> SchedAt(cfg, fs, NoLosses) == Some(r.value) && ContentOf(fs, r.value) == cfg.schedule
      ensures !faulty ==> (r.Ok? <==> ScheduleFits(cfg, old(fs)))
    {
      ContentsAreWithin(fs, fs, cfg.schedDir);
      WithinTransitive(fs, fs, fs, cfg.schedDir, {}, {}, {cfg.sched});
      var found := VerifyExact(cfg.schedDir, cfg.sched, cfg.schedule);
      if found.Ok? || found.error != NotFound {
        return found;
      }
      var linked :- PublishNoReplace(staged);
      label Linked:
      var synced := FsyncDir(cfg.schedDir);
      WithinTransitive(old(fs), old@Linked(fs), fs, cfg.schedDir, {cfg.sched}, {}, {cfg.sched});
      if synced.Err? {
        return Err(synced.error);
      }
      var published :- VerifyExact(cfg.schedDir, cfg.sched, cfg.schedule);
      return if published == staged then Ok(published) else Err(Unexpected);
    }

    method PublishImmutable() returns (r: Result<(), Failure>)
      requires Valid()
      modifies this
      ensures Valid() && old(trace) <= trace
      ensures Within(old(fs), fs, cfg.schedDir, {cfg.schedTmp, cfg.sched})
      ensures r.Ok? ==> FileIs(fs, SchedAt(cfg, fs, NoLosses), cfg.schedule)
      ensures r.Ok? ==> SchedTmpAt(cfg, fs, NoLosses).None? && forall n :: Settled(fs, cfg.schedDir, n)
      ensures !faulty ==> (r.Ok? <==> ScheduleFits(cfg, old(fs)))
    {
      var staged := StageTemp(cfg.schedDir, cfg.schedTmp, cfg.schedule);
      FitsKept(cfg, old(fs), fs);
      if staged.Err? {
        ContentsAreWithin(fs, fs, cfg.schedDir);
        WithinTransitive(old(fs), fs, fs, cfg.schedDir, {cfg.schedTmp}, {}, {cfg.schedTmp, cfg.sched});
        return Err(staged.error);
      }
      label Staged:
      var linked := LinkSchedule(staged.value);
      WithinTransitive(old(fs), old@Staged(fs), fs, cfg.schedDir, {cfg.schedTmp}, {cfg.sched},
                       {cfg.schedTmp, cfg.sched});
      if linked.Err? {
        return Err(linked.error);
      }
      label Linked:
      var removed := RemoveStagedTemp(cfg.schedDir, cfg.schedTmp, staged.value);
      WithinTransitive(old(fs), old@Linked(fs), fs, cfg.schedDir, {cfg.schedTmp, cfg.sched}, {cfg.schedTmp},
                       {cfg.schedTmp, cfg.sched});
      if removed.Err? {
        return Err(removed.error);
      }
      SeenScheduleIsSynced(cfg, old@Linked(fs));
      var final :- VerifyExact(cfg.schedDir, cfg.sched, cfg.schedule);
      SeenScheduleIsSynced(cfg, fs);
      return if final == linked.value then Ok(()) else Err(Unexpected);
    }

    /** The last look before the switch: the plan is still the one read, the schedule still there. */
    method AssertCommitInputs(original: File) returns (r: Result<(), Failure>)
      requires Valid()
      ensures !faulty && PlanReads(cfg, fs, original) && FileIs(fs, SchedAt(cfg, fs, NoLosses), cfg.schedule) ==> r.Ok?
    {
      var latest :- ReadAt(cfg.planDir, cfg.plan);
      if latest != original {
        return Err(Unexpected);
      }
      var verified :- VerifyExact(cfg.schedDir, cfg.sched, cfg.schedule);
      return Ok(());
    }

    /** Atomically rename the staged plan over the registered one. */
    method Replace(staged: Inode) returns (r: Result<(), Failure>)
      requires Valid() && FileIs(fs, Some(staged), cfg.New()) && ScheduleSettled(cfg, fs)
      requires PlanTmpAt(cfg, fs, NoLosses) == Some(staged)
      modifies this
      ensures Valid() && old(trace) <= trace
      ensures Within(old(fs), fs, cfg.planDir, {cfg.planTmp, cfg.plan})
      ensures r.Ok? ==> PlanAt(cfg, fs, NoLosses) == Some(staged) && PlanTmpAt(cfg, fs, NoLosses).None?
      ensures !faulty ==> r.Ok?
    {
      var op := Rename(cfg.planTmp, cfg.plan, staged);
      ReplaceKeepsGood(cfg, fs, staged);
      UpdateIsWithin(fs, cfg.planDir, op, {cfg.planTmp, cfg.plan});
      ContentsAreWithin(fs, fs, cfg.planDir);
      WithinTransitive(fs, fs, fs, cfg.planDir, {}, {}, {cfg.planTmp, cfg.plan});
      UpdateSeen(fs, cfg.planDir, op);
      MovesOne(fs, NoLosses, NoLosses, cfg.planDir, op, true, cfg.planDir, cfg.plan);
      MovesOne(fs, NoLosses, NoLosses, cfg.planDir, op, true, cfg.planDir, cfg.planTmp);
      r := Attempt(Update(fs, cfg.planDir, op));
    }

    /** The body guarded by the cleanup: `replaced` says whether the switch was reported done. */
    method Commit(staged: Inode, original: File) returns (replaced: bool, r: Result<Inode, Failure>)
      requires Valid() && FileIs(fs, Some(staged), cfg.New()) && ScheduleSettled(cfg, fs)
      requires PlanTmpAt(cfg, fs, NoLosses) == Some(staged)
      modifies this
      ensures Valid() && old(trace) <= trace
      ensures Within(old(fs), fs, cfg.planDir, {cfg.planTmp, cfg.plan})
      ensures r.Ok? ==> replaced && PlanAt(cfg, fs, NoLosses) == Some(r.value) && PlanSettled(cfg, fs)
      ensures !faulty && PlanReads(cfg, old(fs), original) ==> r.Ok?
    {
      replaced := false;
      ContentsAreWithin(fs, fs, cfg.planDir);
      WithinTransitive(fs, fs, fs, cfg.planDir, {}, {}, {cfg.planTmp, cfg.plan});
      var checked := AssertCommitInputs(original);
      if checked.Err? {
        return replaced, Err(checked.error);
      }
      var current := ReadAt(cfg.planDir, cfg.plan);
      if current.Err? || current.value.0 != original.0 {
        return replaced, Err(if current.Err? then current.error else Unexpected);
      }
      var renamed := Replace(staged);
      if renamed.Err? {
        return replaced, Err(renamed.error);
      }
      replaced := true;
      label Renamed:
      var synced := FsyncDir(cfg.planDir);
      WithinTransitive(old(fs), old@Renamed(fs), fs, cfg.planDir, {cfg.planTmp, cfg.plan}, {}, {cfg.planTmp, cfg.plan});
      if synced.Err? {
        return replaced, Err(synced.error);
      }
      r := VerifyExact(cfg.planDir, cfg.plan, cfg.New());
      if r.Ok? && r.value != staged {
        r := Err(Unexpected);
      }
    }

    method ReplacePlan(original: File) returns (r: Result<Inode, Failure>)
      requires Valid() && cfg.old_ != cfg.New() && !Committed(cfg, fs) && ScheduleSettled(cfg, fs)
      requires PlanReads(cfg, fs, original)
      modifies this
      ensures Valid() && old(trace) <= trace
      ensures Within(old(fs), fs, cfg.planDir, {cfg.planTmp, cfg.plan})
      ensures r.Ok? ==> PlanAt(cfg, fs, NoLosses) == Some(r.value) && PlanSettled(cfg, fs)
      ensures !faulty ==> r.Ok?
    {
      ghost var names := {cfg.planTmp, cfg.plan};
      PlanSeen(cfg, fs);
      var staged := StageTemp(cfg.planDir, cfg.planTmp, cfg.New());
      ContentsAreWithin(fs, fs, cfg.planDir);
      WithinTransitive(old(fs), fs, fs, cfg.planDir, {cfg.planTmp}, {}, names);
      if staged.Err? {
        return Err(staged.error);
      }
      ScheduleSettledKept(cfg, old(fs), fs, {cfg.planTmp});
      PlanReadsKept(cfg, old(fs), fs, cfg.planDir, {cfg.planTmp}, original);
      label Staged:
      var replaced, committed := Commit(staged.value, original);
      WithinTransitive(old(fs), old@Staged(fs), fs, cfg.planDir, {cfg.planTmp}, names, names);
      if !replaced {
        label Failed:
        var removed := RemoveStagedTemp(cfg.planDir, cfg.planTmp, staged.value);
        WithinTransitive(old(fs), old@Failed(fs), fs, cfg.planDir, names, {cfg.planTmp}, names);
        if removed.Err? && removed.error != NotFound {
          return Err(removed.error);
        }
      }
      return committed;
    }

    /** Switch the plan unless it already reads as switched. */
    method Register(original: File) returns (r: Result<(), Failure>)
      requires Valid() && PlanReads(cfg, fs, original) && Published(cfg, fs)
      modifies this
      ensures Valid() && old(trace) <= trace
      ensures r.Ok? ==> Finished(cfg, fs)
      ensures r.Ok? ==> if Committed(cfg, old(fs)) then fs == old(fs) else PlanSettled(cfg, fs)
      ensures !faulty ==> r.Ok?
    {
      PlanSeen(cfg, fs);
      var updated := Registered(original.1, cfg.sched, cfg.schedule);
      var committed := original.0;
      if updated != original.1 {
        committed :- ReplacePlan(original);
        PublishedKept(cfg, old(fs), fs);
      }
      PlanSeen(cfg, fs);
      var final :- VerifyExact(cfg.planDir, cfg.plan, updated);
      if final != committed {
        return Err(Unexpected);
      }
      var scheduled :- VerifyExact(cfg.schedDir, cfg.sched, cfg.schedule);
      SwitchedHasNoTemp(cfg, fs);
      return Ok(());
    }

    /** The freeze, given the registration its caller expects the plan to hold. */
    method Freeze(expected: Ref) returns (r: Result<(), Failure>)
      requires Valid()
      modifies this
      ensures Valid() && old(trace) <= trace
      ensures r.Ok? ==> Finished(cfg, fs)
      ensures r.Ok? ==> (PlanDurable(cfg, fs) <==> Switches(cfg, old(fs)) || PlanDurable(cfg, old(fs)))
      ensures r.Ok? ==> Registers(cfg, fs, NoLosses)
      ensures r.Ok? && PlanDurable(cfg, fs) ==> forall kept :: Registers(cfg, fs, kept)
      ensures !faulty ==> (r.Ok? <==> Admits(cfg, old(fs), expected) && ScheduleFits(cfg, old(fs)))
    {
      PlanSeen(cfg, fs);
      var original :- ReadAt(cfg.planDir, cfg.plan);
      if RefOf(original.1) != Some(expected) && RefOf(original.1) != Some((cfg.sched, Sha256(cfg.schedule))) {
        return Err(Unexpected);
      }
      var published :- PublishImmutable();
      PublishKeepsPlan(cfg, old(fs), fs, original);
      var current :- ReadAt(cfg.planDir, cfg.plan);
      if current != original {
        return Err(Unexpected);
      }
      label Published:
      r := Register(original);
      if r.Ok? {
        DurabilityOf(cfg, old(fs), old@Published(fs), fs);
        DurableRegisters(cfg, fs);
      }
    }

    /**
      * `freeze_all` for this plan. Its capability probe syncs the plan's directory first, and the plan is
      * built from the file as it reads then, so the transition check cannot fail.
      */
    method FreezeAll() returns (r: Result<(), Failure>)
      requires Valid()
      modifies this
      ensures Valid() && old(trace) <= trace
      ensures r.Ok? ==> Finished(cfg, fs) && PlanDurable(cfg, fs)
      ensures r.Ok? ==> forall kept :: Registers(cfg, fs, kept)
      ensures !faulty ==> (r.Ok? <==> ScheduleFits(cfg, old(fs)))
    {
      ContentsAreWithin(fs, fs, cfg.planDir);
      var probed :- FsyncDir(cfg.planDir);
      ProbeKeepsInputs(cfg, old(fs), fs);
      PlanSeen(cfg, fs);
      var captured :- ReadAt(cfg.planDir, cfg.plan);
      r := Freeze(RefOf(captured.1).value);
    }
  }

  /** A crash: the process dies with the disk as it was after some step, and the power may go too. */
  method Crash(cfg: Config, trace: seq<Fs>) returns (fs: Fs)
    requires cfg.Valid() && trace != [] && forall s :: s in trace ==> Good(cfg, s)
    ensures Good(cfg, fs)
  {
    var k: nat, powerLost: bool, kept: Losses, scribble: map<Inode, Content> := *, *, *, *;
    fs := trace[if k < |trace| then k else 0];
    if powerLost {
      PowerLossKeepsGood(cfg, fs, kept, scribble);
      fs := PowerLoss(fs, kept, scribble);
    }
  }

  /**
    * Any number of freezes, each failing or crashing anywhere, then one that meets no fault: it
    * ends with the plan at its target, whatever the crashes left behind.
    */
  method RecoverAfterCrashes(cfg: Config, start: Fs, crashes: nat) returns (end: Fs, r: Result<(), Failure>)
    requires cfg.Valid() && Good(cfg, start)
    ensures Good(cfg, end)
    ensures r.Ok? <==> BaseFits(cfg)
    ensures r.Ok? ==> Finished(cfg, end) && PlanDurable(cfg, end)
    ensures r.Ok? ==> forall kept :: Registers(cfg, end, kept)
  {
    end := start;
    for i := 0 to crashes
      invariant Good(cfg, end)
    {
      var disk := new Disk(cfg, end, true);
      var crashed := disk.FreezeAll();
      end := Crash(cfg, disk.trace);
    }
    BaseDecidesFit(cfg, end);
    var disk := new Disk(cfg, end, false);
    r := disk.FreezeAll();
    end := disk.fs;
  }

  // ----- Why the rerun of a single freeze is not enough -----

  /** Right after the rename the switch can still be seen and be lost. */
  lemma SwitchCanBeLost(cfg: Config, fs: Fs, i: Inode)
    requires cfg.Valid() && Good(cfg, fs) && !Committed(cfg, fs) && FileIs(fs, Some(i), cfg.New())
    ensures
      var after := Update(fs, cfg.planDir, Rename(cfg.planTmp, cfg.plan, i));
      Committed(cfg, after) && !PlanDurable(cfg, after)
  {
    var d, op := cfg.planDir, Rename(cfg.planTmp, cfg.plan, i);
    var after, size := Update(fs, d, op), |fs.dirs[d].pending|;
    UpdatedSeen(fs.dirs[d], d, op, cfg.plan);
    var kept: Losses := map[d := AllKept(size) + [false]];
    UpdatedDir(fs.dirs[d], d, op, kept, cfg.plan);
    assert (AllKept(size) + [false])[..size] == AllKept(size);
    assert PlanAt(cfg, after, kept) == PlanAt(cfg, fs, NoLosses);
  }
}
