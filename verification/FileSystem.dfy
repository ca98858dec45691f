/** Directories whose updates become durable only when the directory is synced. */
module FileSystem {
  import opened Common

  type Name = string
  type DirId = nat
  type Inode = nat

  /** A digest determines its content: SHA-256 taken as injective. */
  datatype Digest = Sha256(of_: Content)

  datatype Content =
    | PlanFile(target: Name, digest: Digest, rest: string)
    | ScheduleFile(payload: string)
    | Other(bytes: string)

  type Entries = map<Name, Inode>

  datatype DirOp = Set(name: Name, inode: Inode) | Remove(name: Name) | Rename(src: Name, dst: Name, inode: Inode)

  /** `pending` are the updates not yet synced; a power loss may lose any of them. */
  datatype Dir = Dir(durable: Entries, pending: seq<DirOp>)

  datatype Fs = Fs(dirs: map<DirId, Dir>, contents: map<Inode, Content>, synced: set<Inode>)

  /** For each directory, which of its pending updates reach the disk. */
  type Losses = map<DirId, seq<bool>>

  const NoLosses: Losses := map[]

  function Lookup(e: Entries, n: Name): Option<Inode> {
    if n in e then Some(e[n]) else None
  }

  function ApplyOp(e: Entries, op: DirOp): Entries {
    match op
    case Set(name, inode) => e[name := inode]
    case Remove(name) => e - {name}
    case Rename(src, dst, inode) => (e - {src})[dst := inode]
  }

  /** What one update does to the entry `n`. */
  function AfterOp(op: DirOp, n: Name, entry: Option<Inode>): Option<Inode> {
    match op
    case Set(name, inode) => if n == name then Some(inode) else entry
    case Remove(name) => if n == name then None else entry
    case Rename(src, dst, inode) => if n == dst then Some(inode) else if n == src then None else entry
  }

  /** The entries left when only the marked updates reach the disk, in order. */
  function ApplyKept(e: Entries, ops: seq<DirOp>, kept: seq<bool>): Entries
    requires |kept| == |ops|
  {
    if ops == [] then e
    else
      var n := |ops| - 1;
      var before := ApplyKept(e, ops[..n], kept[..n]);
      if kept[n] then ApplyOp(before, ops[n]) else before
  }

  function AllKept(n: nat): (m: seq<bool>)
    ensures |m| == n
  {
    if n == 0 then [] else AllKept(n - 1) + [true]
  }

  function MaskOf(kept: Losses, d: DirId, n: nat): (m: seq<bool>)
    ensures |m| == n
  {
    if d in kept && |kept[d]| == n then kept[d] else AllKept(n)
  }

  function Surviving(dir: Dir, d: DirId, kept: Losses): Entries {
    ApplyKept(dir.durable, dir.pending, MaskOf(kept, d, |dir.pending|))
  }

  /** The entry `n` of directory `d` after a power loss that keeps the marked updates. */
  function Entry(fs: Fs, kept: Losses, d: DirId, n: Name): Option<Inode> {
    if d in fs.dirs then Lookup(Surviving(fs.dirs[d], d, kept), n) else None
  }

  /** What running programs see: every update. */
  function Seen(fs: Fs, d: DirId, n: Name): Option<Inode> {
    Entry(fs, NoLosses, d, n)
  }

  function ContentOf(fs: Fs, i: Inode): Content {
    if i in fs.contents then fs.contents[i] else Other("")
  }

  /** Power loss: unsynced updates as marked, contents never synced arbitrary; the rest is then on disk. */
  function PowerLoss(fs: Fs, kept: Losses, scribble: map<Inode, Content>): Fs {
    var contents := map i | i in fs.contents ::
      if i !in fs.synced && i in scribble then scribble[i] else fs.contents[i];
    Fs(map d | d in fs.dirs :: Dir(Surviving(fs.dirs[d], d, kept), []), contents, contents.Keys)
  }

  function Update(fs: Fs, d: DirId, op: DirOp): Fs
    requires d in fs.dirs
  {
    fs.(dirs := fs.dirs[d := fs.dirs[d].(pending := fs.dirs[d].pending + [op])])
  }

  function SyncDir(fs: Fs, d: DirId): Fs
    requires d in fs.dirs
  {
    fs.(dirs := fs.dirs[d := Dir(Surviving(fs.dirs[d], d, NoLosses), [])])
  }

  // ----- How the entries that can survive move with each step -----

  lemma UpdatedDir(dir: Dir, d: DirId, op: DirOp, kept: Losses, n: Name)
    ensures
      var size := |dir.pending|;
      var mask := MaskOf(kept, d, size + 1);
      var was := Lookup(Surviving(dir, d, kept[d := mask[..size]]), n);
      Lookup(Surviving(dir.(pending := dir.pending + [op]), d, kept), n) ==
        if mask[size] then AfterOp(op, n, was) else was
  {
    var size := |dir.pending|;
    var ops := dir.pending + [op];
    assert ops[..size] == dir.pending;
  }

  lemma UpdatedSeen(dir: Dir, d: DirId, op: DirOp, n: Name)
    ensures Lookup(Surviving(dir.(pending := dir.pending + [op]), d, NoLosses), n)
      == AfterOp(op, n, Lookup(Surviving(dir, d, NoLosses), n))
  {
    var size := |dir.pending|;
    var ops := dir.pending + [op];
    assert ops[..size] == dir.pending;
    assert AllKept(size + 1)[..size] == AllKept(size);
  }

  /** How one survivor after an update comes from one before it. */
  ghost predicate Moves(fs: Fs, before: Losses, kept: Losses, d: DirId, op: DirOp, reached: bool)
    requires d in fs.dirs
  {
    forall x, n :: (
      Entry(Update(fs, d, op), kept, x, n)
        == if reached && x == d then AfterOp(op, n, Entry(fs, before, x, n)) else Entry(fs, before, x, n))
  }

  lemma MovesOne(fs: Fs, before: Losses, kept: Losses, d: DirId, op: DirOp, reached: bool, x: DirId, n: Name)
    requires d in fs.dirs && Moves(fs, before, kept, d, op, reached)
    ensures Entry(Update(fs, d, op), kept, x, n)
      == if reached && x == d then AfterOp(op, n, Entry(fs, before, x, n)) else Entry(fs, before, x, n)
  {
  }

  /** Every survivor after an update is a survivor from before it, with the update or without. */
  lemma UpdateEntries(fs: Fs, d: DirId, op: DirOp, kept: Losses) returns (before: Losses, reached: bool)
    requires d in fs.dirs
    ensures Moves(fs, before, kept, d, op, reached)
  {
    var size := |fs.dirs[d].pending|;
    var mask := MaskOf(kept, d, size + 1);
    before, reached := kept[d := mask[..size]], mask[size];
    forall x, n
      ensures Entry(Update(fs, d, op), kept, x, n)
        == if reached && x == d then AfterOp(op, n, Entry(fs, before, x, n)) else Entry(fs, before, x, n)
    {
      if x == d {
        UpdatedDir(fs.dirs[d], d, op, kept, n);
      }
    }
  }

  lemma UpdateSeen(fs: Fs, d: DirId, op: DirOp)
    requires d in fs.dirs
    ensures Moves(fs, NoLosses, NoLosses, d, op, true)
  {
    forall x, n
      ensures Seen(Update(fs, d, op), x, n) == if x == d then AfterOp(op, n, Seen(fs, x, n)) else Seen(fs, x, n)
    {
      if x == d {
        UpdatedSeen(fs.dirs[d], d, op, n);
      }
    }
  }

  lemma AllKeptIsAll(kept: Losses, d: DirId, n: nat)
    ensures MaskOf(kept[d := AllKept(n)], d, n) == MaskOf(NoLosses, d, n)
  {
  }

  /** After a directory sync its survivors show just what programs saw. */
  lemma SyncEntries(fs: Fs, d: DirId, kept: Losses) returns (before: Losses)
    requires d in fs.dirs
    ensures forall x, n :: Entry(SyncDir(fs, d), kept, x, n) == Entry(fs, before, x, n)
    ensures forall n :: Entry(SyncDir(fs, d), kept, d, n) == Seen(fs, d, n)
  {
    before := kept[d := AllKept(|fs.dirs[d].pending|)];
    AllKeptIsAll(kept, d, |fs.dirs[d].pending|);
    forall x, n
      ensures Entry(SyncDir(fs, d), kept, x, n) == Entry(fs, before, x, n)
    {
      if x != d && x in fs.dirs {
        assert SyncDir(fs, d).dirs[x] == fs.dirs[x];
      }
    }
  }

  lemma SyncSeen(fs: Fs, d: DirId)
    requires d in fs.dirs
    ensures forall x, n :: Seen(SyncDir(fs, d), x, n) == Seen(fs, x, n)
  {
    forall x, n ensures Seen(SyncDir(fs, d), x, n) == Seen(fs, x, n) {
      if x != d && x in fs.dirs {
        assert SyncDir(fs, d).dirs[x] == fs.dirs[x];
      }
    }
  }

  /** After a power loss there is one survivor left, the one the loss chose. */
  lemma PowerLossEntries(fs: Fs, kept: Losses, scribble: map<Inode, Content>, again: Losses)
    ensures forall x, n :: Entry(PowerLoss(fs, kept, scribble), again, x, n) == Entry(fs, kept, x, n)
  {
    forall x, n ensures Entry(PowerLoss(fs, kept, scribble), again, x, n) == Entry(fs, kept, x, n) {
      if x in fs.dirs {
        assert PowerLoss(fs, kept, scribble).dirs[x] == Dir(Surviving(fs.dirs[x], x, kept), []);
      }
    }
  }
}
