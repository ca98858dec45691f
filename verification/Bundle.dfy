/** An evidence bundle: written while open, sealed, validated, then published or quarantined. */
module Bundle {
  import opened Common
  import opened Inventory
  import opened Publish

  /** A file's bytes; the manifest is kept as the fields it serialises. */
  datatype Content = Text(text: string) | Manifest(status: Status, reason: Option<string>, evidence: Hashes)

  type Files = map<Inventory.Name, Content>

  type Sha = Content -> string

  /** SHA-256 as any function into 64 hexadecimal digits. */
  ghost predicate IsSha(sha: Sha) {
    forall c :: IsDigest(sha(c))
  }

  const PACKETS: Inventory.Name := "packets.csv"
  const EVENTS: Inventory.Name := "events.jsonl"

  datatype State = Open | Sealing | Published | Quarantined

  function HashesOf(files: Files, sha: Sha): Hashes {
    map n | n in files && n != SUMS :: sha(files[n])
  }

  // ----- Validation -----

  /** The core files are there, and the manifest's evidence map is the digests of the others. */
  ghost predicate HasEvidence(files: Files, sha: Sha) {
    && CORE <= files.Keys
    && MANIFEST in files && files[MANIFEST].Manifest? && files[MANIFEST].evidence == HashesOf(files, sha) - {MANIFEST}
  }

  /** What a valid bundle is: inventory, digests and the manifest's evidence map all agree. */
  ghost predicate IsSealed(files: Files, sha: Sha) {
    && SUMS in files && files[SUMS].Text? && IsAscii(files[SUMS].text)
    && Parse(files[SUMS].text) == Some(HashesOf(files, sha))
    && HasEvidence(files, sha)
  }

  /** `semantics` stands for the checks of rows, events and manifest fields. */
  method ValidateBundle(files: Files, sha: Sha, semantics: bool) returns (valid: bool)
    requires IsSha(sha)
    ensures valid <==> |files| <= MAX_BUNDLE_ENTRIES && IsSealed(files, sha) && semantics
  {
    if |files| > MAX_BUNDLE_ENTRIES || SUMS !in files || !files[SUMS].Text? {
      return false;
    }
    var hashes, text := HashesOf(files, sha), files[SUMS].text;
    assert hashes.Keys == files.Keys - {SUMS};
    assert |hashes.Keys| == |files.Keys| - 1;
    var errors := ValidateInventory(hashes, text);
    if errors != [] || !files[MANIFEST].Manifest? {
      assert MANIFEST in CORE;
      return false;
    }
    ParsedIsInventory(SplitLines(text));
    var evidence := ReconcileEvidence(files[MANIFEST].evidence, hashes);
    return evidence == [] && semantics;
  }

  /** The inventory lists every other file with the digest of its content, and nothing else; so does the manifest. */
  ghost predicate ListsFiles(files: Files, sha: Sha) {
    && SUMS in files && files[SUMS].Text? && Parse(files[SUMS].text).Some?
    && MANIFEST in files && files[MANIFEST].Manifest?
    && var listed, evidence := Parse(files[SUMS].text).value, files[MANIFEST].evidence;
       && (forall n :: n in listed <==> n in files && n != "SHA256SUMS")
       && (forall n :: n in listed ==> listed[n] == sha(files[n]))
       && (forall n :: n in evidence <==> n in files && n != "SHA256SUMS" && n != "manifest.json")
       && (forall n :: n in evidence ==> evidence[n] == sha(files[n]))
  }

  /** Sealed means: ASCII, the three core files, and each file listed by the digest of its content. */
  lemma SealedFileByFile(files: Files, sha: Sha)
    ensures IsSealed(files, sha) <==>
      && ListsFiles(files, sha) && IsAscii(files[SUMS].text) && "packets.csv" in files && "events.jsonl" in files
  {
    var hashes := HashesOf(files, sha);
    if ListsFiles(files, sha) {
      assert Parse(files[SUMS].text).value == hashes;
      assert files[MANIFEST].evidence == hashes - {MANIFEST};
    }
    if IsSealed(files, sha) {
      assert PACKETS in CORE && EVENTS in CORE;
    }
  }

  // ----- The bundle -----

  lemma HashesAreDigests(files: Files, sha: Sha)
    requires IsSha(sha)
    ensures AreDigests(HashesOf(files, sha))
  {
  }

  /** Names that the inventory can list: ASCII, without line breaks, and safe. */
  ghost predicate CanList(hashes: Hashes) {
    AllAscii(hashes) && AllUnbroken(hashes) && AllSafe(hashes)
  }

  ghost predicate Printable(files: Files, sha: Sha) {
    CanList(HashesOf(files, sha))
  }

  /** Files with the manifest written, ready for an inventory that will be found valid. */
  ghost predicate Sealable(files: Files, sha: Sha) {
    && SUMS !in files && |files| < MAX_BUNDLE_ENTRIES && HasEvidence(files, sha)
    && Printable(files, sha)
  }

  lemma SumsAreNoEvidence(files: Files, sha: Sha, text: string)
    requires SUMS !in files
    ensures HashesOf(files[SUMS := Text(text)], sha) == HashesOf(files, sha)
    ensures HasEvidence(files[SUMS := Text(text)], sha) <==> HasEvidence(files, sha)
  {
    var after := files[SUMS := Text(text)];
    assert HashesOf(after, sha) == HashesOf(files, sha);
    assert after.Keys == files.Keys + {SUMS};
    assert SUMS !in CORE;
  }

  /** Adding an inventory seals the bundle exactly when it parses back to the digests of the other files. */
  lemma SealingSeals(files: Files, sha: Sha, text: string)
    requires SUMS !in files && IsAscii(text) && AllAscii(HashesOf(files, sha))
    ensures HashesOf(files[SUMS := Text(text)], sha) == HashesOf(files, sha)
    ensures Sealable(files, sha) && Parse(text) == Some(HashesOf(files, sha)) <==>
      IsSealed(files[SUMS := Text(text)], sha) && |files[SUMS := Text(text)]| <= MAX_BUNDLE_ENTRIES
  {
    SumsAreNoEvidence(files, sha, text);
    OneMoreFile(files, SUMS, Text(text));
    if Parse(text).Some? {
      ParsedIsUnbroken(text);
      ParsedIsInventory(SplitLines(text));
    }
  }

  lemma OneMoreFile(files: Files, n: Inventory.Name, c: Content)
    requires n !in files
    ensures |files[n := c]| == |files| + 1
  {
    assert files[n := c].Keys == files.Keys + {n};
    assert |files[n := c]| == |files[n := c].Keys| && |files| == |files.Keys|;
  }

  lemma ManifestNameIsPrintable()
    ensures IsAscii(MANIFEST) && Unbroken(MANIFEST)
  {
  }

  lemma PrintableWithManifest(evidence: Hashes, digest: string)
    requires MANIFEST !in evidence
    ensures CanList(evidence[MANIFEST := digest]) <==> CanList(evidence)
  {
    ManifestNameIsPrintable();
    ManifestNameIsSafe();
    var after := evidence[MANIFEST := digest];
    assert forall n :: n in evidence ==> n in after;
  }

  /** The files can be sealed, and the validator will find nothing wrong with them. */
  ghost predicate CanSeal(files: Files, sha: Sha, semantics: bool) {
    semantics && Printable(files, sha) && |files| + 2 <= MAX_BUNDLE_ENTRIES
  }

  lemma ManifestMakesSealable(files: Files, sha: Sha, status: Status, reason: Option<string>)
    requires SUMS !in files && MANIFEST !in files && PACKETS in files && EVENTS in files
    ensures Sealable(files[MANIFEST := Manifest(status, reason, HashesOf(files, sha))], sha) <==>
      Printable(files, sha) && |files| + 2 <= MAX_BUNDLE_ENTRIES
  {
    var evidence := HashesOf(files, sha);
    var manifest := Manifest(status, reason, evidence);
    var hashes := HashesOf(files[MANIFEST := manifest], sha);
    assert hashes == evidence[MANIFEST := sha(manifest)];
    assert hashes - {MANIFEST} == evidence;
    PrintableWithManifest(evidence, sha(manifest));
    OneMoreFile(files, MANIFEST, manifest);
  }

  lemma WithoutSealing(before: Files, manifest: Content, after: Files)
    requires MANIFEST !in before && SUMS !in before && after - {SUMS} == before[MANIFEST := manifest]
    ensures after - {MANIFEST, SUMS} == before
  {
    assert after - {MANIFEST, SUMS} == (after - {SUMS}) - {MANIFEST};
  }

  /** What Python's `strip` removes. */
  predicate IsSpace(c: char) {
    || c == ' ' || '\t' <= c <= '\r' || '\U{001C}' <= c <= '\U{001F}' || c == '\U{0085}' || c == '\U{00A0}'
    || c == '\U{1680}' || '\U{2000}' <= c <= '\U{200A}' || c == '\U{2028}' || c == '\U{2029}' || c == '\U{202F}'
    || c == '\U{205F}' || c == '\U{3000}'
  }

  predicate IsBlank(s: string) {
    forall i :: 0 <= i < |s| ==> IsSpace(s[i])
  }

  /** The code points that Unicode calls white space, and the four separators 28 to 31. */
  ghost predicate IsWhite(code: int) {
    || 9 <= code <= 13 || 28 <= code <= 32 || code == 133 || code == 160 || code == 5760 || 8192 <= code <= 8202
    || code == 8232 || code == 8233 || code == 8239 || code == 8287 || code == 12288
  }

  lemma BlankByCode(s: string)
    ensures IsBlank(s) <==> forall i :: 0 <= i < |s| ==> IsWhite(s[i] as int)
  {
    forall i | 0 <= i < |s| ensures IsSpace(s[i]) <==> IsWhite(s[i] as int) {
      SpaceByCode(s[i]);
    }
  }

  lemma SpaceByCode(c: char)
    ensures IsSpace(c) <==> IsWhite(c as int)
  {
  }

  /** No other file of the bundle has this name, and it names an entry of a directory. */
  ghost predicate IsArtifactName(name: string) {
    && name != "" && name != "." && name != ".."
    && (forall c :: c in name ==> c != '/' && c != '\\' && c as int != 0)
    && name != "manifest.json" && name != "SHA256SUMS" && name != "packets.csv" && name != "events.jsonl"
  }

  lemma PacketsNameIsSafe()
    ensures IsSafeName(PACKETS)
  {
  }

  lemma EventsNameIsSafe()
    ensures IsSafeName(EVENTS)
  {
  }

  lemma ManifestNameIsSafe()
    ensures IsSafeName(MANIFEST)
  {
  }

  /** Flushing, syncing and closing two streams. */
  const STREAMS := 6
  /** Manifest, inventory, validation, staging directory, final parent and base directory. */
  const WRITING := 6

  lemma CountStreams(plan: Faults, n: nat, files: nat)
    ensures NoFaults(plan, n, STREAMS + files) <==> NoFaults(plan, n, STREAMS) && NoFaults(plan, n + STREAMS, files)
    ensures NoFaults(plan, n, STREAMS) <==> NoFaults(plan, n, 3) && NoFaults(plan, n + 3, 3)
  {
    SucceedingPast(plan, n, STREAMS + files, STREAMS);
    SucceedingPast(plan, n, STREAMS, 3);
  }

  lemma CountSealing(plan: Faults, n: nat, streams: nat)
    ensures NoFaults(plan, n, streams + WRITING) <==> NoFaults(plan, n, streams) && NoFaults(plan, n + streams, WRITING)
  {
    SucceedingPast(plan, n, streams + WRITING, streams);
  }

  lemma CountWriting(plan: Faults, n: nat)
    ensures NoFaults(plan, n, WRITING) <==>
      && plan(n).None? && plan(n + 1).None? && plan(n + 2).None?
      && plan(n + 3).None? && plan(n + 4).None? && plan(n + 5).None?
  {
    SucceedingPast(plan, n, WRITING, 3);
    CountThree(plan, n);
    CountThree(plan, n + 3);
  }

  /** Of two failures an interrupt is what gets out. */
  function Worse(a: Option<Kind>, b: Option<Kind>): Option<Kind> {
    if a.None? then b else if b.None? then a else Some(Together(a.value, b.value))
  }

  lemma InterruptsGetOut(a: Option<Kind>, b: Option<Kind>)
    ensures Worse(a, b) == Some(Interrupt) <==> a == Some(Interrupt) || b == Some(Interrupt)
    ensures Worse(a, b) == None <==> a == None && b == None
  {
  }

  class EvidenceBundle {
    const dirs: Parents
    const uuid: Publish.Name
    const sha: Sha
    var state: State
    var files: Files
    var packetCount: nat
    var eventCount: nat
    var sequences: set<nat>
    /** The call at which the sealed bundle was handed over for publication. */
    var publication: Option<nat>

    /** While open, the directory stands in staging and nothing has its final name. */
    ghost predicate Valid()
      reads this, dirs`staging, dirs`final_
    {
      && IsSha(sha)
      && (state == Open ==>
            && uuid in dirs.staging && uuid !in dirs.final_ && publication.None?
            && PACKETS in files && files[PACKETS].Text? && EVENTS in files && files[EVENTS].Text?
            && SUMS !in files && MANIFEST !in files
            && packetCount == |sequences|)
      && (state == Published ==> uuid in dirs.final_)
    }

    /** The publication raised with the directory under its final name. */
    ghost predicate Stranded()
      reads `publication
    {
      publication.Some? && Strands(dirs.plan, publication.value)
    }

    /** What the streams, files and directories need before the bundle can be published. */
    function SealingCalls(): nat
      reads `files
    {
      STREAMS + |files| + WRITING
    }

    /** The files can be sealed and every call of sealing them will succeed. */
    ghost predicate WillSeal(semantics: bool)
      reads `files, dirs`next
    {
      CanSeal(files, sha, semantics) && NoFaults(dirs.plan, dirs.next, SealingCalls())
    }

    ghost predicate SealedAs(status: Status, reason: Option<string>)
      reads `files
    {
      IsSealed(files, sha) && files[MANIFEST].status == status && files[MANIFEST].reason == reason
    }

    /** What was sealed is the evidence as it was written, with a manifest and an inventory added. */
    ghost predicate SealedFrom(status: Status, reason: Option<string>, written: Files)
      reads `files
    {
      SealedAs(status, reason) && files - {MANIFEST, SUMS} == written
    }

    /** This bundle stands, sealed, under its final name beside what stood there. */
    ghost predicate Adds(staging: map<Publish.Name, Identity>, before: map<Publish.Name, Identity>)
      reads `files, dirs`final_
    {
      && uuid in staging && uuid !in before
      && dirs.final_ == before[uuid := staging[uuid]]
      && IsSealed(files, sha)
    }

    /** It has moved there from staging, sealed as asked from the evidence that was written. */
    ghost predicate Stands(status: Status, reason: Option<string>, written: Files,
                           staging: map<Publish.Name, Identity>, before: map<Publish.Name, Identity>)
      reads `files, dirs`staging, dirs`final_
    {
      Adds(staging, before) && dirs.staging == staging - {uuid} && SealedFrom(status, reason, written)
    }

    constructor (dirs: Parents, uuid: Publish.Name, identity: Identity, sha: Sha)
      requires IsSha(sha) && uuid !in dirs.staging && uuid !in dirs.final_
      modifies dirs
      ensures Valid() && state == Open && this.dirs == dirs && this.uuid == uuid && this.sha == sha
      ensures dirs.staging == old(dirs.staging)[uuid := identity]
      ensures dirs.final_ == old(dirs.final_) && dirs.next == old(dirs.next)
      ensures files.Keys == {PACKETS, EVENTS} && packetCount == 0 && eventCount == 0 && sequences == {}
    {
      this.dirs, this.uuid, this.sha := dirs, uuid, sha;
      state, publication := Open, None;
      files := map[PACKETS := Text(""), EVENTS := Text("")];
      packetCount, eventCount, sequences := 0, 0, {};
      new;
      dirs.staging := dirs.staging[uuid := identity];
    }

    /** A refused row makes no call; a failed write leaves the counts and sequences as they were. */
    method WritePacket(sequence: nat, row: string, rowOk: bool) returns (e: Option<Kind>)
      requires Valid()
      modifies this`files, this`packetCount, this`sequences, dirs`next
      ensures Valid()
      ensures
        var refused := old(state) != Open || !rowOk || sequence in old(sequences);
        && e == (if refused then Some(Ordinary) else dirs.plan(old(dirs.next)))
        && dirs.next == old(dirs.next) + if refused then 0 else 1
      ensures e.None? ==>
        && files == old(files)[PACKETS := Text(old(files)[PACKETS].text + row + "\n")]
        && sequences == old(sequences) + {sequence} && packetCount == old(packetCount) + 1
      ensures e.Some? ==> files == old(files) && sequences == old(sequences) && packetCount == old(packetCount)
    {
      if state != Open || !rowOk || sequence in sequences {
        return Some(Ordinary);
      }
      e := dirs.Call();
      if e.Some? {
        return e;
      }
      files := files[PACKETS := Text(files[PACKETS].text + row + "\n")];
      sequences := sequences + {sequence};
      packetCount := packetCount + 1;
    }

    method WriteEvent(event: string, eventOk: bool) returns (e: Option<Kind>)
      requires Valid()
      modifies this`files, this`eventCount, dirs`next
      ensures Valid()
      ensures
        var refused := old(state) != Open || !eventOk;
        && e == (if refused then Some(Ordinary) else dirs.plan(old(dirs.next)))
        && dirs.next == old(dirs.next) + if refused then 0 else 1
      ensures e.None? ==>
        files == old(files)[EVENTS := Text(old(files)[EVENTS].text + event + "\n")] && eventCount == old(eventCount) + 1
      ensures e.Some? ==> files == old(files) && eventCount == old(eventCount)
    {
      if state != Open || !eventOk {
        return Some(Ordinary);
      }
      e := dirs.Call();
      if e.Some? {
        return e;
      }
      files := files[EVENTS := Text(files[EVENTS].text + event + "\n")];
      eventCount := eventCount + 1;
    }

    /** A name or content that no artifact may have; refusing it makes no call. */
    predicate RefusesArtifact(name: string, contentOk: bool)
      reads this
    {
      state != Open || !contentOk || !IsSafeName(name) || name in {MANIFEST, SUMS, PACKETS, EVENTS}
    }

    /** Refused is exactly a closed bundle, bad content, or a name that is none. */
    lemma RefusedArtifacts(name: string, contentOk: bool)
      ensures RefusesArtifact(name, contentOk) <==> !(state == Open && contentOk && IsArtifactName(name))
    {
      if IsArtifactName(name) {
        assert '/' !in name && '\\' !in name && '\0' !in name;
      }
    }

    /** Opening the file creates it, so a failed write leaves it with whatever was written. */
    method WriteTextArtifact(name: string, content: string, contentOk: bool) returns (e: Option<Kind>)
      requires Valid()
      modifies this`files, dirs`next
      ensures Valid()
      ensures old(RefusesArtifact(name, contentOk)) ==>
        e == Some(Ordinary) && files == old(files) && dirs.next == old(dirs.next)
      ensures !old(RefusesArtifact(name, contentOk)) ==>
        if dirs.plan(old(dirs.next)).Some? then
          e == dirs.plan(old(dirs.next)) && files == old(files) && dirs.next == old(dirs.next) + 1
        else
          && e == dirs.plan(old(dirs.next) + 1) && dirs.next == old(dirs.next) + 2
          && name in files && files == old(files)[name := files[name]] && (e.None? ==> files[name] == Text(content))
    {
      if RefusesArtifact(name, contentOk) {
        return Some(Ordinary);
      }
      e := dirs.Call();
      if e.Some? {
        return e;
      }
      e := dirs.Call();
      var partial: string := *;
      files := files[name := Text(if e.None? then content else partial)];
    }

    /** Flush and sync a stream; it is closed whatever happens. */
    method SyncAndClose() returns (e: Option<Kind>)
      modifies dirs`next
      ensures e.None? <==> NoFaults(dirs.plan, old(dirs.next), 3)
      ensures e.None? ==> dirs.next == old(dirs.next) + 3
    {
      CountThree(dirs.plan, dirs.next);
      e := dirs.Call();
      if e.None? {
        e := dirs.Call();
      }
      var close := dirs.Call();
      e := Worse(e, close);
    }

    method SyncFiles() returns (e: Option<Kind>)
      modifies dirs`next
      ensures e.None? <==> NoFaults(dirs.plan, old(dirs.next), |files|)
      ensures e.None? ==> dirs.next == old(dirs.next) + |files|
    {
      for step := 0 to |files|
        invariant dirs.next == old(dirs.next) + step
        invariant Succeeding(dirs.plan, old(dirs.next), |files|) ==
          step + Succeeding(dirs.plan, dirs.next, |files| - step)
      {
        e := dirs.Call();
        if e.Some? {
          return e;
        }
      }
      return None;
    }

    /** Close both streams, then sync each file. */
    method SealStreams() returns (e: Option<Kind>)
      modifies dirs`next
      ensures e.None? <==> NoFaults(dirs.plan, old(dirs.next), STREAMS + |files|)
      ensures e.None? ==> dirs.next == old(dirs.next) + STREAMS + |files|
    {
      CountStreams(dirs.plan, dirs.next, |files|);
      e := SyncAndClose();
      if e == Some(Interrupt) {
        return e;
      }
      var other := SyncAndClose();
      e := Worse(e, other);
      if e.Some? {
        return e;
      }
      e := SyncFiles();
    }

    method WriteManifest(status: Status, reason: Option<string>) returns (e: Option<Kind>)
      requires Valid() && state == Sealing && MANIFEST !in files && SUMS !in files
      modifies this`files, dirs`next
      ensures Valid() && e == dirs.plan(old(dirs.next)) && dirs.next == old(dirs.next) + 1
      ensures e.None? ==> files == old(files)[MANIFEST := Manifest(status, reason, HashesOf(old(files), sha))]
    {
      e := dirs.Call();
      if e.None? {
        files := files[MANIFEST := Manifest(status, reason, HashesOf(files, sha))];
      }
    }

    /** Print the inventory of the files there are. */
    method WriteSums() returns (e: Option<Kind>, ghost text: string)
      requires Valid() && state == Sealing && SUMS !in files
      modifies this`files, dirs`next
      ensures Valid() && dirs.next == old(dirs.next) + 1
      ensures e.None? <==> dirs.plan(old(dirs.next)).None? && AllAscii(HashesOf(old(files), sha))
      ensures e.None? ==> files == old(files)[SUMS := Text(text)] && IsAscii(text)
      ensures e.None? ==>
        (Parse(text) == Some(HashesOf(old(files), sha)) <==>
           AllUnbroken(HashesOf(old(files), sha)) && AllSafe(HashesOf(old(files), sha)))
    {
      text := "";
      e := dirs.Call();
      if e.Some? {
        return e, text;
      }
      HashesAreDigests(files, sha);
      var printed := PrintInventory(HashesOf(files, sha));
      if printed.None? {
        return Some(Ordinary), text;
      }
      text := printed.value;
      files := files[SUMS := Text(printed.value)];
      return None, text;
    }

    /** Print the inventory, read the bundle back and have it judged. */
    method SealInventory(semantics: bool) returns (e: Option<Kind>)
      requires Valid() && state == Sealing && MANIFEST in files && SUMS !in files
      modifies this`files, dirs`next
      ensures Valid()
      ensures e.None? ==> dirs.next == old(dirs.next) + 2
      ensures e.None? <==>
        && dirs.plan(old(dirs.next)).None? && dirs.plan(old(dirs.next) + 1).None?
        && Sealable(old(files), sha) && semantics
      ensures e.None? ==> IsSealed(files, sha) && files[MANIFEST] == old(files)[MANIFEST]
      ensures e.None? ==> files - {SUMS} == old(files)
    {
      ghost var text: string;
      e, text := WriteSums();
      if e.Some? {
        return e;
      }
      e := dirs.Call();
      if e.Some? {
        return e;
      }
      SealingSeals(old(files), sha, text);
      var valid := ValidateBundle(files, sha, semantics);
      return if valid then None else Some(Ordinary);
    }

    predicate Refused(status: Status, reason: Option<string>)
      reads this
    {
      || state != Open
      || (status == Complete && (reason.Some? || packetCount == 0 || eventCount == 0))
      || (status == Incomplete && (reason.None? || IsBlank(reason.value)))
    }

    /** Complete with something recorded and no reason, or incomplete for a reason that says something. */
    ghost predicate Admissible(status: Status, reason: Option<string>)
      reads this
    {
      && state == Open
      && match status
         case Complete => reason.None? && packetCount > 0 && eventCount > 0
         case Incomplete => reason.Some? && exists i :: 0 <= i < |reason.value| && !IsWhite(reason.value[i] as int)
    }

    /** Exactly such arguments are not refused. */
    lemma RefusedArguments(status: Status, reason: Option<string>)
      ensures Refused(status, reason) <==> !Admissible(status, reason)
    {
      if reason.Some? {
        BlankByCode(reason.value);
      }
    }

    /** Sync the staging directory, make the final parent and sync the base directory. */
    method SyncDirectories() returns (e: Option<Kind>)
      modifies dirs`next
      ensures e.None? <==>
        && dirs.plan(old(dirs.next)).None? && dirs.plan(old(dirs.next) + 1).None? && dirs.plan(old(dirs.next) + 2).None?
      ensures e.None? ==> dirs.next == old(dirs.next) + 3
    {
      e := dirs.Call();
      if e.Some? {
        return e;
      }
      e := dirs.Call();
      if e.Some? {
        return e;
      }
      e := dirs.Call();
    }

    /** Inventory, validation and syncs, once the manifest is written. */
    method SealWritten(semantics: bool) returns (e: Option<Kind>)
      requires Valid() && state == Sealing && MANIFEST in files && SUMS !in files
      modifies this`files, dirs`next
      ensures Valid()
      ensures e.None? ==> dirs.next == old(dirs.next) + 5
      ensures
        var n := old(dirs.next);
        e.None? <==>
          && dirs.plan(n).None? && dirs.plan(n + 1).None? && dirs.plan(n + 2).None?
          && dirs.plan(n + 3).None? && dirs.plan(n + 4).None?
          && Sealable(old(files), sha) && semantics
      ensures e.None? ==> IsSealed(files, sha) && files[MANIFEST] == old(files)[MANIFEST]
      ensures e.None? ==> files - {SUMS} == old(files)
    {
      e := SealInventory(semantics);
      if e.None? {
        e := SyncDirectories();
      }
    }

    /** Manifest, inventory, validation and syncs. */
    method SealContents(status: Status, reason: Option<string>, semantics: bool) returns (e: Option<Kind>)
      requires Valid() && state == Sealing
      requires PACKETS in files && EVENTS in files && SUMS !in files && MANIFEST !in files
      modifies this`files, dirs`next
      ensures Valid()
      ensures e.None? <==> CanSeal(old(files), sha, semantics) && NoFaults(dirs.plan, old(dirs.next), WRITING)
      ensures e.None? ==> dirs.next == old(dirs.next) + WRITING
      ensures e.None? ==> SealedFrom(status, reason, old(files))
    {
      CountWriting(dirs.plan, dirs.next);
      ManifestMakesSealable(files, sha, status, reason);
      ghost var manifest := Manifest(status, reason, HashesOf(files, sha));
      e := WriteManifest(status, reason);
      if e.Some? {
        return e;
      }
      e := SealWritten(semantics);
      if e.None? {
        WithoutSealing(old(files), manifest, files);
      }
    }

    /** Everything before publishing the directory. */
    method Seal(status: Status, reason: Option<string>, semantics: bool) returns (e: Option<Kind>)
      requires Valid() && state == Sealing
      requires PACKETS in files && EVENTS in files && SUMS !in files && MANIFEST !in files
      modifies this`files, dirs`next
      ensures Valid()
      ensures
        var n, streams := old(dirs.next), STREAMS + old(|files|);
        e.None? <==>
          && CanSeal(old(files), sha, semantics)
          && NoFaults(dirs.plan, n, streams) && NoFaults(dirs.plan, n + streams, WRITING)
      ensures e.None? ==> dirs.next == old(dirs.next + SealingCalls())
      ensures e.None? ==> SealedFrom(status, reason, old(files))
    {
      ghost var can := CanSeal(files, sha, semantics);
      e := SealStreams();
      if e.None? {
        assert CanSeal(files, sha, semantics) == can;
        e := SealContents(status, reason, semantics);
      }
    }

    method SealAndPublish(status: Status, reason: Option<string>, semantics: bool) returns (e: Option<Kind>)
      requires Valid() && state == Sealing
      requires PACKETS in files && EVENTS in files && SUMS !in files && MANIFEST !in files
      requires uuid in dirs.staging && uuid !in dirs.final_ && publication.None?
      modifies this`files, this`publication, dirs
      ensures Valid()
      ensures publication == if old(WillSeal(semantics)) then Some(old(dirs.next + SealingCalls())) else None
      ensures publication.Some? ==> SealedFrom(status, reason, old(files))
      ensures e.None? <==> publication.Some? && NoFaults(dirs.plan, publication.value, CLOSED)
      ensures dirs.At(old(dirs.staging), old(dirs.final_), uuid, uuid, e.None? || Stranded())
    {
      CountSealing(dirs.plan, dirs.next, STREAMS + |files|);
      e := Seal(status, reason, semantics);
      if e.None? {
        publication := Some(dirs.next);
        e := dirs.PublishDirectory(uuid, uuid);
      }
    }

    /** Best effort to persist what failed: ordinary failures are noted, an interrupt gets out. */
    method Quarantine(error: Kind) returns (kind: Kind)
      modifies dirs`next
      ensures dirs.next >= old(dirs.next)
      ensures kind == Interrupt <==>
        error == Interrupt || exists i :: old(dirs.next) <= i < dirs.next && dirs.plan(i) == Some(Interrupt)
    {
      for step := 0 to |files| + 4
        invariant dirs.next == old(dirs.next) + step
        invariant forall i :: old(dirs.next) <= i < dirs.next ==> dirs.plan(i) != Some(Interrupt)
      {
        var failed := dirs.Call();
        if failed == Some(Interrupt) {
          return Interrupt;
        }
      }
      return error;
    }

    /** Seal and publish an open bundle, and quarantine it if that fails. */
    method CloseAndPublish(status: Status, reason: Option<string>, semantics: bool) returns (e: Option<Kind>)
      requires Valid() && state == Open
      modifies this`state, this`files, this`publication, dirs
      ensures Valid() && state == if e.None? then Published else Quarantined
      ensures publication == if old(WillSeal(semantics)) then Some(old(dirs.next + SealingCalls())) else None
      ensures e.None? <==> publication.Some? && NoFaults(dirs.plan, publication.value, CLOSED)
      ensures if e.None? || Stranded()
        then Stands(status, reason, old(files), old(dirs.staging), old(dirs.final_))
        else dirs.staging == old(dirs.staging) && dirs.final_ == old(dirs.final_)
    {
      ghost var seals, start := WillSeal(semantics), dirs.next + SealingCalls();
      state := Sealing;
      assert WillSeal(semantics) == seals && dirs.next + SealingCalls() == start;
      e := SealAndPublish(status, reason, semantics);
      if e.Some? {
        var kind := Quarantine(e.value);
        e := Some(kind);
      }
      state := if e.None? then Published else Quarantined;
    }

    /**
      * Seal and publish. The bundle stands under its final name exactly when this returns, or when
      * it was sealed and the faults strand it; `semantics` is the validator's verdict on rows, events
      * and manifest fields.
      */
    method Finalise(status: Status, reason: Option<string>, semantics: bool) returns (e: Option<Kind>)
      requires Valid()
      modifies this`state, this`files, this`publication, dirs
      ensures Valid()
      ensures old(Refused(status, reason)) ==>
        && e == Some(Ordinary) && state == old(state) && files == old(files) && publication == old(publication)
        && dirs.staging == old(dirs.staging) && dirs.final_ == old(dirs.final_) && dirs.next == old(dirs.next)
      ensures !old(Refused(status, reason)) ==>
        && state == (if e.None? then Published else Quarantined)
        && publication == (if old(WillSeal(semantics)) then Some(old(dirs.next + SealingCalls())) else None)
        && (e.None? <==> publication.Some? && NoFaults(dirs.plan, publication.value, CLOSED))
        && uuid in old(dirs.staging) && uuid !in old(dirs.final_)
      ensures !old(Refused(status, reason)) ==>
        if e.None? || Stranded() then Stands(status, reason, old(files), old(dirs.staging), old(dirs.final_))
        else dirs.staging == old(dirs.staging) && dirs.final_ == old(dirs.final_)
      ensures !old(Refused(status, reason)) ==>
        (e.None? <==>
           CanSeal(old(files), sha, semantics) && NoFaults(dirs.plan, old(dirs.next), old(SealingCalls()) + CLOSED))
    {
      if Refused(status, reason) {
        return Some(Ordinary);
      }
      ghost var n, sealing, can := dirs.next, SealingCalls(), CanSeal(files, sha, semantics);
      ghost var seals, publishes := NoFaults(dirs.plan, n, sealing), NoFaults(dirs.plan, n + sealing, CLOSED);
      assert NoFaults(dirs.plan, n, sealing + CLOSED) <==> seals && publishes by {
        SucceedingPast(dirs.plan, n, sealing + CLOSED, sealing);
      }
      assert WillSeal(semantics) <==> can && seals;
      e := CloseAndPublish(status, reason, semantics);
      assert e.None? <==> can && seals && publishes;
    }
  }

  /** A digest function: which one does not matter. */
  function Digest(c: Content): string {
    seq(64, i => '0')
  }

  lemma DigestIsSha()
    ensures IsSha(Digest)
  {
    forall c ensures IsDigest(Digest(c)) {
      assert forall i :: 0 <= i < 64 ==> Digest(c)[i] == '0';
    }
  }

  lemma NewBundlesArePrintable(files: Files, sha: Sha)
    requires files.Keys == {PACKETS, EVENTS}
    ensures CanSeal(files, sha, true)
  {
    assert |files| == |files.Keys| && |{PACKETS, EVENTS}| <= 2;
    PacketsNameIsSafe();
    EventsNameIsSafe();
    assert Unbroken(PACKETS) && Unbroken(EVENTS) && IsAscii(PACKETS) && IsAscii(EVENTS);
    assert HashesOf(files, sha).Keys <= {PACKETS, EVENTS};
  }

  /** A bundle with one row and one event. */
  method NewBundle(plan: Faults) returns (bundle: EvidenceBundle)
    requires plan(0).None? && plan(1).None?
    ensures fresh(bundle) && fresh(bundle.dirs) && bundle.Valid() && !bundle.Refused(Complete, None)
    ensures bundle.dirs.plan == plan && bundle.dirs.next == 2 && bundle.SealingCalls() == STREAMS + 2 + WRITING
    ensures CanSeal(bundle.files, bundle.sha, true)
    ensures bundle.uuid == "run" && bundle.dirs.staging == map["run" := 7] && bundle.dirs.final_ == map[]
  {
    DigestIsSha();
    var dirs := new Parents(map[], map[], plan);
    bundle := new EvidenceBundle(dirs, "run", 7, Digest);
    var e := bundle.WritePacket(0, "row", true);
    e := bundle.WriteEvent("event", true);
    NewBundlesArePrintable(bundle.files, Digest);
  }

  const LAST_CLOSE: nat := 2 + STREAMS + 2 + WRITING + CLOSED - 1

  /**
    * One row, one event and one fault, at the very last close: finalising raises and quarantines a
    * bundle that stands published, complete and sealed.
    */
  method OneFailedCloseQuarantines() returns (bundle: EvidenceBundle, e: Option<Kind>)
    ensures OnlyFault(bundle.dirs.plan, LAST_CLOSE)
    ensures e.Some? && bundle.state == Quarantined && bundle.SealedAs(Complete, None)
    ensures bundle.dirs.final_ == map["run" := 7]
  {
    var plan: Faults := i => if i == LAST_CLOSE then Some(Ordinary) else None;
    bundle := NewBundle(plan);
    SucceedingIsFirst(plan, 2, bundle.SealingCalls(), bundle.SealingCalls());
    OneFaultStrands(plan, 2 + bundle.SealingCalls(), LAST_CLOSE);
    e := bundle.Finalise(Complete, None, true);
  }
}
