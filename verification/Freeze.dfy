/** Freezing a schedule: two files committed in order, safe under a crash at any step. */
module Freeze {
  import opened Common
  import opened FileSystem

  datatype Failure = NotFound | Exists | OsError | Unexpected

  type Ref = (Name, Digest)

  /**
    * One freeze. `base` and `others` describe the disk the freeze was first given: the entry under
    * the content-addressed name, and every entry the freeze does not own. `files` are contents that
    * must never change, the old schedule's among them.
    */
  datatype Config = Config(
    planDir: DirId, plan: Name, planTmp: Name,
    schedDir: DirId, sched: Name, schedTmp: Name,
    old_: Content, schedule: Content,
    base: Option<Inode>, others: map<DirId, Entries>, files: map<Inode, Content>)
  {
    ghost predicate Valid() {
      && old_.PlanFile?
      && plan != planTmp && sched != schedTmp
      && (planDir == schedDir ==> plan != sched && plan != schedTmp && planTmp != sched && planTmp != schedTmp)
      && (base.Some? ==> base.value in files)
    }

    function New(): Content {
      Registered(old_, sched, schedule)
    }

    predicate Owns(d: DirId, n: Name) {
      (d == planDir && (n == plan || n == planTmp)) || (d == schedDir && (n == sched || n == schedTmp))
    }

    predicate IsTemp(d: DirId, n: Name) {
      (d == planDir && n == planTmp) || (d == schedDir && n == schedTmp)
    }
  }

  /** `_updated_registration_bytes`: only the two registration lines change. */
  function Registered(plan: Content, name: Name, schedule: Content): Content {
    if plan.PlanFile? then plan.(target := name, digest := Sha256(schedule)) else plan
  }

  function RefOf(plan: Content): Option<Ref> {
    if plan.PlanFile? then Some((plan.target, plan.digest)) else None
  }

  /** The entry names a synced file with exactly this content. */
  predicate FileIs(fs: Fs, entry: Option<Inode>, c: Content) {
    entry.Some? && entry.value in fs.synced && ContentOf(fs, entry.value) == c
  }

  function PlanAt(cfg: Config, fs: Fs, kept: Losses): Option<Inode> {
    Entry(fs, kept, cfg.planDir, cfg.plan)
  }

  function PlanTmpAt(cfg: Config, fs: Fs, kept: Losses): Option<Inode> {
    Entry(fs, kept, cfg.planDir, cfg.planTmp)
  }

  function SchedAt(cfg: Config, fs: Fs, kept: Losses): Option<Inode> {
    Entry(fs, kept, cfg.schedDir, cfg.sched)
  }

  function SchedTmpAt(cfg: Config, fs: Fs, kept: Losses): Option<Inode> {
    Entry(fs, kept, cfg.schedDir, cfg.schedTmp)
  }

  /** The plan names an existing schedule whose bytes have the registered digest. */
  predicate Loadable(fs: Fs, kept: Losses, cfg: Config) {
    var p := PlanAt(cfg, fs, kept);
    p.Some? && p.value in fs.synced && ContentOf(fs, p.value).PlanFile?
    && var s := Entry(fs, kept, cfg.schedDir, ContentOf(fs, p.value).target);
       s.Some? && s.value in fs.synced && Sha256(ContentOf(fs, s.value)) == ContentOf(fs, p.value).digest
  }

  ghost predicate IsOther(cfg: Config, d: DirId, n: Name) {
    && (d == cfg.planDir ==> n != cfg.plan && n != cfg.planTmp)
    && (d == cfg.schedDir ==> n != cfg.sched && n != cfg.schedTmp)
  }

  /** Every entry but the plan, the schedule and their temps is as it was. */
  ghost predicate OthersKept(fs: Fs, kept: Losses, cfg: Config) {
    forall d, n :: IsOther(cfg, d, n) ==>
      Entry(fs, kept, d, n) == if d in cfg.others then Lookup(cfg.others[d], n) else None
  }

  /** Running programs see the switched plan. */
  predicate Committed(cfg: Config, fs: Fs) {
    FileIs(fs, PlanAt(cfg, fs, NoLosses), cfg.New())
  }

  /**
    * The owned entries of one survivor: the plan is the old one or the new one; if it was switched,
    * the schedule it names is there, its temp is gone, and running programs see the switch too.
    */
  predicate OwnedHold(cfg: Config, fs: Fs, plan: Option<Inode>, planTmp: Option<Inode>, sched: Option<Inode>,
                      committed: bool) {
    && (FileIs(fs, plan, cfg.old_) || FileIs(fs, plan, cfg.New()))
    && (cfg.old_ != cfg.New() && FileIs(fs, plan, cfg.New()) ==>
          committed && planTmp.None? && FileIs(fs, sched, cfg.schedule))
    && (if cfg.base.Some? then sched == cfg.base else sched.Some? ==> FileIs(fs, sched, cfg.schedule))
  }

  /** What one possible survivor looks like. */
  ghost predicate Holds(cfg: Config, fs: Fs, kept: Losses) {
    && OwnedHold(cfg, fs, PlanAt(cfg, fs, kept), PlanTmpAt(cfg, fs, kept), SchedAt(cfg, fs, kept), Committed(cfg, fs))
    && OthersKept(fs, kept, cfg)
  }

  ghost predicate FilesKept(cfg: Config, fs: Fs) {
    && fs.synced <= fs.contents.Keys
    && cfg.planDir in fs.dirs && cfg.schedDir in fs.dirs
    && forall i :: i in cfg.files ==> i in fs.synced && fs.contents[i] == cfg.files[i]
  }

  /** The invariant of every step boundary, whatever a power loss there would keep. */
  ghost predicate Good(cfg: Config, fs: Fs) {
    FilesKept(cfg, fs) && forall kept :: Holds(cfg, fs, kept)
  }

  /** A disk at rest, described by its own contents, is where every freeze may start. */
  lemma DiskAtRestIsGood(cfg: Config, fs: Fs)
    requires cfg.Valid() && cfg.planDir in fs.dirs && cfg.schedDir in fs.dirs
    requires fs.synced == fs.contents.Keys && cfg.files == fs.contents
    requires cfg.others.Keys == fs.dirs.Keys && forall d :: d in fs.dirs ==> fs.dirs[d] == Dir(cfg.others[d], [])
    requires cfg.base == Lookup(cfg.others[cfg.schedDir], cfg.sched)
    requires cfg.old_ != cfg.New() && FileIs(fs, Lookup(cfg.others[cfg.planDir], cfg.plan), cfg.old_)
    ensures Good(cfg, fs)
  {
    forall kept ensures Holds(cfg, fs, kept) {
      forall d, n ensures Entry(fs, kept, d, n) == if d in cfg.others then Lookup(cfg.others[d], n) else None {
        if d in fs.dirs {
          assert Surviving(fs.dirs[d], d, kept) == cfg.others[d];
        }
      }
      assert PlanAt(cfg, fs, kept) == Lookup(cfg.others[cfg.planDir], cfg.plan);
      assert SchedAt(cfg, fs, kept) == cfg.base;
    }
  }

  // ----- What the invariant is worth -----

  /** The disk the freeze was given had a loadable plan that names neither a temp nor the plan itself. */
  ghost predicate StartedLoadable(cfg: Config) {
    && cfg.Valid()
    && var n := cfg.old_.target;
       if n == cfg.sched then cfg.base.Some? && Sha256(cfg.files[cfg.base.value]) == cfg.old_.digest
       else
         && !cfg.Owns(cfg.schedDir, n)
         && cfg.schedDir in cfg.others && n in cfg.others[cfg.schedDir]
         && cfg.others[cfg.schedDir][n] in cfg.files
         && Sha256(cfg.files[cfg.others[cfg.schedDir][n]]) == cfg.old_.digest
  }

  lemma OldStaysLoadable(cfg: Config, fs: Fs, kept: Losses)
    requires StartedLoadable(cfg) && Good(cfg, fs) && FileIs(fs, PlanAt(cfg, fs, kept), cfg.old_)
    ensures Loadable(fs, kept, cfg)
  {
    assert Holds(cfg, fs, kept);
    var n := cfg.old_.target;
    if n != cfg.sched {
      assert !cfg.Owns(cfg.schedDir, n);
      assert Entry(fs, kept, cfg.schedDir, n) == Lookup(cfg.others[cfg.schedDir], n);
    }
  }

  /** A loadable plan stays loadable at every step boundary, and after any power loss there. */
  lemma GoodIsLoadable(cfg: Config, fs: Fs, kept: Losses)
    requires StartedLoadable(cfg) && Good(cfg, fs)
    ensures Loadable(fs, kept, cfg)
  {
    assert Holds(cfg, fs, kept);
    if FileIs(fs, PlanAt(cfg, fs, kept), cfg.old_) {
      OldStaysLoadable(cfg, fs, kept);
    }
  }

  lemma PowerLossKeepsGood(cfg: Config, fs: Fs, kept: Losses, scribble: map<Inode, Content>)
    requires cfg.Valid() && Good(cfg, fs)
    ensures Good(cfg, PowerLoss(fs, kept, scribble))
  {
    var after := PowerLoss(fs, kept, scribble);
    assert Holds(cfg, fs, kept);
    PowerLossEntries(fs, kept, scribble, NoLosses);
    forall again ensures Holds(cfg, after, again) {
      PowerLossEntries(fs, kept, scribble, again);
      assert OthersKept(after, again, cfg) by {
        forall d, n | !cfg.Owns(d, n) ensures Entry(after, again, d, n) == Entry(fs, kept, d, n) {}
      }
    }
  }

  // ----- Every primitive step keeps the invariant -----

  /** Only contents that were never synced change; synced ones are for good. */
  ghost predicate Grown(before: Fs, after: Fs) {
    && before.synced <= after.synced <= after.contents.Keys
    && before.synced <= before.contents.Keys
    && forall i :: i in before.synced ==> after.contents[i] == before.contents[i]
  }

  lemma ContentsKeepGood(cfg: Config, before: Fs, after: Fs)
    requires cfg.Valid() && Good(cfg, before) && before.dirs == after.dirs && Grown(before, after)
    ensures Good(cfg, after)
  {
    forall kept ensures Holds(cfg, after, kept) {
      assert Holds(cfg, before, kept);
      assert forall d, n :: Entry(after, kept, d, n) == Entry(before, kept, d, n);
      assert forall e, c :: FileIs(before, e, c) ==> FileIs(after, e, c);
    }
  }

  lemma SyncKeepsGood(cfg: Config, fs: Fs, d: DirId)
    requires cfg.Valid() && Good(cfg, fs) && d in fs.dirs
    ensures Good(cfg, SyncDir(fs, d))
  {
    var after := SyncDir(fs, d);
    SyncSeen(fs, d);
    forall kept ensures Holds(cfg, after, kept) {
      var before := SyncEntries(fs, d, kept);
      assert Holds(cfg, fs, before);
      assert OthersKept(after, kept, cfg) by {
        forall x, n | !cfg.Owns(x, n) ensures Entry(after, kept, x, n) == Entry(fs, before, x, n) {}
      }
    }
  }

  /** The names an update can touch. */
  function Touched(op: DirOp): set<Name> {
    match op
    case Set(name, _) => {name}
    case Remove(name) => {name}
    case Rename(src, dst, _) => {src, dst}
  }

  lemma OthersMove(cfg: Config, fs: Fs, before: Losses, kept: Losses, d: DirId, op: DirOp, reached: bool)
    requires d in fs.dirs && Moves(fs, before, kept, d, op, reached) && OthersKept(fs, before, cfg)
    requires forall n :: n in Touched(op) ==> cfg.Owns(d, n)
    ensures OthersKept(Update(fs, d, op), kept, cfg)
  {
    forall x, n | !cfg.Owns(x, n)
      ensures Entry(Update(fs, d, op), kept, x, n) == Entry(fs, before, x, n)
    {
      MovesOne(fs, before, kept, d, op, reached, x, n);
    }
  }

  function Moved(op: DirOp, here: bool, n: Name, entry: Option<Inode>): Option<Inode> {
    if here then AfterOp(op, n, entry) else entry
  }

  lemma OwnedMove(cfg: Config, fs: Fs, before: Losses, kept: Losses, d: DirId, op: DirOp, reached: bool)
    requires d in fs.dirs && Moves(fs, before, kept, d, op, reached) && Moves(fs, NoLosses, NoLosses, d, op, true)
    ensures
      var after := Update(fs, d, op);
      && PlanAt(cfg, after, kept) == Moved(op, reached && d == cfg.planDir, cfg.plan, PlanAt(cfg, fs, before))
      && PlanTmpAt(cfg, after, kept) == Moved(op, reached && d == cfg.planDir, cfg.planTmp, PlanTmpAt(cfg, fs, before))
      && SchedAt(cfg, after, kept) == Moved(op, reached && d == cfg.schedDir, cfg.sched, SchedAt(cfg, fs, before))
      && PlanAt(cfg, after, NoLosses) == Moved(op, d == cfg.planDir, cfg.plan, PlanAt(cfg, fs, NoLosses))
  {
    MovesOne(fs, before, kept, d, op, reached, cfg.planDir, cfg.plan);
    MovesOne(fs, before, kept, d, op, reached, cfg.planDir, cfg.planTmp);
    MovesOne(fs, before, kept, d, op, reached, cfg.schedDir, cfg.sched);
    MovesOne(fs, NoLosses, NoLosses, d, op, true, cfg.planDir, cfg.plan);
  }

  /** A plan that still reads as old here may be given a temp: no survivor of it was switched. */
  predicate MayStage(cfg: Config, fs: Fs, d: DirId, n: Name) {
    d == cfg.planDir && n == cfg.planTmp ==> cfg.old_ != cfg.New() && !Committed(cfg, fs)
  }

  lemma TempUpdateHolds(cfg: Config, fs: Fs, d: DirId, op: DirOp, before: Losses, kept: Losses, reached: bool)
    requires cfg.Valid() && d in fs.dirs && Holds(cfg, fs, before)
    requires Moves(fs, before, kept, d, op, reached) && Moves(fs, NoLosses, NoLosses, d, op, true)
    requires !op.Rename? && cfg.IsTemp(d, op.name)
    requires op.Remove? || MayStage(cfg, fs, d, op.name)
    ensures Holds(cfg, Update(fs, d, op), kept)
  {
    TempUpdateOwned(cfg, fs, d, op, before, kept, reached);
    OthersMove(cfg, fs, before, kept, d, op, reached);
  }

  lemma TempUpdateOwned(cfg: Config, fs: Fs, d: DirId, op: DirOp, before: Losses, kept: Losses, reached: bool)
    requires cfg.Valid() && d in fs.dirs
    requires OwnedHold(cfg, fs, PlanAt(cfg, fs, before), PlanTmpAt(cfg, fs, before), SchedAt(cfg, fs, before),
                       Committed(cfg, fs))
    requires Moves(fs, before, kept, d, op, reached) && Moves(fs, NoLosses, NoLosses, d, op, true)
    requires !op.Rename? && cfg.IsTemp(d, op.name)
    requires op.Remove? || MayStage(cfg, fs, d, op.name)
    ensures
      var after := Update(fs, d, op);
      OwnedHold(cfg, after, PlanAt(cfg, after, kept), PlanTmpAt(cfg, after, kept), SchedAt(cfg, after, kept),
                Committed(cfg, after))
  {
    OwnedMove(cfg, fs, before, kept, d, op, reached);
  }

  lemma TempUpdateKeepsGood(cfg: Config, fs: Fs, d: DirId, op: DirOp)
    requires cfg.Valid() && Good(cfg, fs) && d in fs.dirs
    requires !op.Rename? && cfg.IsTemp(d, op.name)
    requires op.Remove? || MayStage(cfg, fs, d, op.name)
    ensures Good(cfg, Update(fs, d, op))
  {
    UpdateSeen(fs, d, op);
    forall kept ensures Holds(cfg, Update(fs, d, op), kept) {
      var before, reached := UpdateEntries(fs, d, op, kept);
      assert Holds(cfg, fs, before);
      TempUpdateHolds(cfg, fs, d, op, before, kept, reached);
    }
  }

  lemma LinkHolds(cfg: Config, fs: Fs, i: Inode, before: Losses, kept: Losses, reached: bool)
    requires cfg.Valid() && cfg.schedDir in fs.dirs && Holds(cfg, fs, before)
    requires Moves(fs, before, kept, cfg.schedDir, Set(cfg.sched, i), reached)
    requires Moves(fs, NoLosses, NoLosses, cfg.schedDir, Set(cfg.sched, i), true)
    requires cfg.base.None? && FileIs(fs, Some(i), cfg.schedule)
    ensures Holds(cfg, Update(fs, cfg.schedDir, Set(cfg.sched, i)), kept)
  {
    OwnedMove(cfg, fs, before, kept, cfg.schedDir, Set(cfg.sched, i), reached);
    OthersMove(cfg, fs, before, kept, cfg.schedDir, Set(cfg.sched, i), reached);
  }

  lemma LinkKeepsGood(cfg: Config, fs: Fs, i: Inode)
    requires cfg.Valid() && Good(cfg, fs)
    requires SchedAt(cfg, fs, NoLosses).None? && FileIs(fs, Some(i), cfg.schedule)
    ensures Good(cfg, Update(fs, cfg.schedDir, Set(cfg.sched, i)))
  {
    UpdateSeen(fs, cfg.schedDir, Set(cfg.sched, i));
    assert Holds(cfg, fs, NoLosses);
    forall kept ensures Holds(cfg, Update(fs, cfg.schedDir, Set(cfg.sched, i)), kept) {
      var before, reached := UpdateEntries(fs, cfg.schedDir, Set(cfg.sched, i), kept);
      assert Holds(cfg, fs, before);
      LinkHolds(cfg, fs, i, before, kept, reached);
    }
  }

  /** The entry is the same in every survivor. */
  ghost predicate Settled(fs: Fs, d: DirId, n: Name) {
    forall kept :: Entry(fs, kept, d, n) == Seen(fs, d, n)
  }

  lemma ReplaceHolds(cfg: Config, fs: Fs, i: Inode, before: Losses, kept: Losses, reached: bool)
    requires cfg.Valid() && cfg.planDir in fs.dirs && Holds(cfg, fs, before)
    requires Moves(fs, before, kept, cfg.planDir, Rename(cfg.planTmp, cfg.plan, i), reached)
    requires Moves(fs, NoLosses, NoLosses, cfg.planDir, Rename(cfg.planTmp, cfg.plan, i), true)
    requires FileIs(fs, Some(i), cfg.New()) && FileIs(fs, SchedAt(cfg, fs, before), cfg.schedule)
    ensures Holds(cfg, Update(fs, cfg.planDir, Rename(cfg.planTmp, cfg.plan, i)), kept)
  {
    OwnedMove(cfg, fs, before, kept, cfg.planDir, Rename(cfg.planTmp, cfg.plan, i), reached);
    OthersMove(cfg, fs, before, kept, cfg.planDir, Rename(cfg.planTmp, cfg.plan, i), reached);
  }

  /** The write-ahead order: the plan may be switched only onto a schedule no crash can take away. */
  lemma ReplaceKeepsGood(cfg: Config, fs: Fs, i: Inode)
    requires cfg.Valid() && Good(cfg, fs) && FileIs(fs, Some(i), cfg.New())
    requires FileIs(fs, SchedAt(cfg, fs, NoLosses), cfg.schedule) && Settled(fs, cfg.schedDir, cfg.sched)
    ensures Good(cfg, Update(fs, cfg.planDir, Rename(cfg.planTmp, cfg.plan, i)))
  {
    UpdateSeen(fs, cfg.planDir, Rename(cfg.planTmp, cfg.plan, i));
    forall kept ensures Holds(cfg, Update(fs, cfg.planDir, Rename(cfg.planTmp, cfg.plan, i)), kept) {
      var before, reached := UpdateEntries(fs, cfg.planDir, Rename(cfg.planTmp, cfg.plan, i), kept);
      assert Holds(cfg, fs, before);
      assert SchedAt(cfg, fs, before) == Seen(fs, cfg.schedDir, cfg.sched);
      ReplaceHolds(cfg, fs, i, before, kept, reached);
    }
  }

  // ----- What a step leaves settled -----

  lemma UpdateKeepsSettled(fs: Fs, d: DirId, op: DirOp, x: DirId, n: Name)
    requires d in fs.dirs && Settled(fs, x, n) && (x != d || n !in Touched(op))
    ensures Settled(Update(fs, d, op), x, n)
  {
    UpdateSeen(fs, d, op);
    forall kept ensures Entry(Update(fs, d, op), kept, x, n) == Seen(Update(fs, d, op), x, n) {
      var before, reached := UpdateEntries(fs, d, op, kept);
    }
  }

  lemma SyncSettles(fs: Fs, d: DirId, x: DirId, n: Name)
    requires d in fs.dirs && (x == d || Settled(fs, x, n))
    ensures Settled(SyncDir(fs, d), x, n)
  {
    SyncSeen(fs, d);
    forall kept ensures Entry(SyncDir(fs, d), kept, x, n) == Seen(SyncDir(fs, d), x, n) {
      var before := SyncEntries(fs, d, kept);
    }
  }

  /** What a run of steps that writes only the entries `names` of directory `d` leaves alone. */
  ghost predicate Within(before: Fs, after: Fs, d: DirId, names: set<Name>) {
    && Grown(before, after)
    && before.dirs.Keys == after.dirs.Keys
    && (forall x :: x in before.dirs && x != d ==> after.dirs[x] == before.dirs[x])
    && (forall x, n :: x != d || n !in names ==> Seen(after, x, n) == Seen(before, x, n))
    && (forall x, n :: (x != d || n !in names) && Settled(before, x, n) ==> Settled(after, x, n))
  }

  lemma UpdateIsWithin(fs: Fs, d: DirId, op: DirOp, names: set<Name>)
    requires d in fs.dirs && Touched(op) <= names && fs.synced <= fs.contents.Keys
    ensures Within(fs, Update(fs, d, op), d, names)
  {
    UpdateSeen(fs, d, op);
    forall x, n | (x != d || n !in names) && Settled(fs, x, n) ensures Settled(Update(fs, d, op), x, n) {
      UpdateKeepsSettled(fs, d, op, x, n);
    }
  }

  lemma SyncIsWithin(fs: Fs, d: DirId)
    requires d in fs.dirs && fs.synced <= fs.contents.Keys
    ensures Within(fs, SyncDir(fs, d), d, {})
    ensures forall n :: Settled(SyncDir(fs, d), d, n)
  {
    SyncSeen(fs, d);
    forall x, n | x == d || Settled(fs, x, n) ensures Settled(SyncDir(fs, d), x, n) {
      SyncSettles(fs, d, x, n);
    }
  }

  lemma ContentsAreWithin(before: Fs, after: Fs, d: DirId)
    requires before.dirs == after.dirs && Grown(before, after)
    ensures Within(before, after, d, {})
  {
    assert forall kept, x, n :: Entry(after, kept, x, n) == Entry(before, kept, x, n);
  }

  // ----- The names one freeze uses -----

  function PlanName(stem: string): Name {
    stem + ".yaml"
  }

  function PlanTmpName(stem: string): Name {
    "." + PlanName(stem) + ".freeze.tmp"
  }

  function SchedName(stem: string, digest: string): Name {
    stem + "." + digest + ".schedule.json"
  }

  function SchedTmpName(stem: string): Name {
    "." + stem + ".schedule.publish.tmp"
  }

  /** The digest can be read off the name of a schedule, so schedules of different content never share one. */
  lemma NameHoldsDigest(stem: string, digest: string)
    requires |digest| == 64
    ensures stem <= SchedName(stem, digest) && SchedName(stem, digest)[|stem| + 1..|stem| + 65] == digest
  {
    var name := SchedName(stem, digest);
    assert name == stem + ("." + digest + ".schedule.json");
    assert name[|stem| + 1..] == digest + ".schedule.json";
  }

  /** For any stem the freezer accepts, the four names are distinct even in one directory. */
  lemma NamesAreDistinct(stem: string, digest: string)
    requires stem != [] && stem[0] != '.' && |digest| == 64
    ensures PlanName(stem) != PlanTmpName(stem) && SchedName(stem, digest) != SchedTmpName(stem)
    ensures PlanName(stem) != SchedName(stem, digest) && PlanName(stem) != SchedTmpName(stem)
    ensures PlanTmpName(stem) != SchedName(stem, digest) && PlanTmpName(stem) != SchedTmpName(stem)
  {
    assert PlanName(stem)[0] == stem[0] && SchedName(stem, digest)[0] == stem[0];
    var k := |stem| + 2;
    assert PlanTmpName(stem)[k] == 'y' && SchedTmpName(stem)[k] == 's';
    assert |PlanName(stem)| == |stem| + 5 && |SchedName(stem, digest)| == |stem| + 79;
  }
}
