/** Publication of a Target firmware pair (scripts/ota_contract_gate.py,
    `_target_pointer_decision` and `_publish_target_sftp_bytes`). */
module TargetPublish {
  import opened Wrappers
  import opened Words
  import opened Sftp
  import opened Immutable
  import opened Decimals
  import opened TargetVersion

  datatype Url = Url(prefix: string, file: string)

  datatype Manifest = Manifest(commit: string, version: string, buildId: string, url: Url, size: nat, digest: nat)

  /** Signature check with parsing, and hashing, of bytes. */
  datatype Tools = Tools(verify: Bytes -> Option<Manifest>, digest: Bytes -> nat)

  datatype Decision = PublishNew | Idempotent | PublishUpgrade | IdempotentRaceWinner

  function SameIdentity(a: Manifest, b: Manifest): bool {
    a.commit == b.commit && a.version == b.version && a.digest == b.digest && a.url == b.url
  }

  function AutoSequence(version: string): Option<nat> {
    var d := AutoDigits(version);
    if d.None? then None else (AutoHasCore(version); Some(Value(d.value)))
  }

  function PointerDecision(t: Tools, existing: Option<Bytes>, candidate: Manifest): Result<(Decision, Option<Manifest>), Error> {
    if existing.None? then Ok((PublishNew, None))
    else if t.verify(existing.value).None? then Err(Refused)
    else
      var current := t.verify(existing.value).value;
      if SameIdentity(current, candidate) then Ok((Idempotent, Some(current)))
      else if AutoSequence(candidate.version).None? then Err(Refused)
      else
        var sequence := AutoSequence(candidate.version).value;
        var core := CoreOf(current.version);
        if core.None? then Err(Refused)
        else if Less(Core(2, 1, sequence), core.value) then Err(Refused)
        else if Less(core.value, Core(2, 1, sequence)) then Ok((PublishUpgrade, Some(current)))
        else if AutoSequence(current.version).None? then Err(Refused)
        else if AutoSequence(current.version).value >= sequence then Err(Refused)
        else Ok((PublishUpgrade, Some(current)))
  }

  /** `existing` is absent or its version, in numbers, is strictly lower than
      that of `m`. */
  ghost predicate Raises(t: Tools, existing: Option<Bytes>, m: Manifest) {
    existing.Some? ==>
      && t.verify(existing.value).Some?
      && exists a, b, c, x, y, z ::
           Versioned(t.verify(existing.value).value.version, a, b, c) && Versioned(m.version, x, y, z) && Higher(a, b, c, x, y, z)
  }

  lemma RaisesIs(t: Tools, existing: Option<Bytes>, m: Manifest)
    requires existing.Some? && t.verify(existing.value).Some?
    ensures var core := CoreOf(t.verify(existing.value).value.version);
            Raises(t, existing, m) <==> core.Some? && CoreOf(m.version).Some? && Less(core.value, CoreOf(m.version).value)
  {
    var version := t.verify(existing.value).value.version;
    forall a, b, c ensures Versioned(version, a, b, c) <==> CoreOf(version) == Some(Core(a, b, c)) {
      CoreIs(version, a, b, c);
    }
    forall a, b, c ensures Versioned(m.version, a, b, c) <==> CoreOf(m.version) == Some(Core(a, b, c)) {
      CoreIs(m.version, a, b, c);
    }
    hide CoreOf, Versioned;
    if CoreOf(version).Some? && CoreOf(m.version).Some? {
      var p, q := CoreOf(version).value, CoreOf(m.version).value;
      LessIs(p, q);
      assert Versioned(version, p.major, p.minor, p.patch) && Versioned(m.version, q.major, q.minor, q.patch);
    }
  }

  /** Replacement is decided exactly for a verified pointer of another identity
      with a strictly lower core: equal cores are always refused. */
  lemma UpgradeMeansRaise(t: Tools, existing: Option<Bytes>, candidate: Manifest)
    requires AutoDigits(candidate.version).Some?
    ensures var d := PointerDecision(t, existing, candidate);
            && (d.Ok? && d.value.0 == PublishUpgrade <==>
                  existing.Some? && Raises(t, existing, candidate)
                  && !SameIdentity(t.verify(existing.value).value, candidate))
            && (d.Ok? && d.value.0 == PublishNew <==> existing.None?)
            && (d.Ok? && d.value.0 != Idempotent ==> Raises(t, existing, candidate))
            && (d.Ok? ==> d.value.0 != IdempotentRaceWinner)
            && (d.Ok? && existing.Some? ==> t.verify(existing.value).Some?)
            && (d.Ok? ==> d.value.1 == if existing.None? then None else t.verify(existing.value))
            && (d.Ok? && d.value.0 == Idempotent <==>
                  existing.Some? && t.verify(existing.value).Some?
                  && SameIdentity(t.verify(existing.value).value, candidate))
  {
    SequenceIsCore(candidate.version);
    if existing.Some? && t.verify(existing.value).Some? {
      var current := t.verify(existing.value).value;
      RaisesIs(t, existing, candidate);
      SequenceIsCore(current.version);
      if CoreOf(current.version).Some? {
        LessTotal(CoreOf(current.version).value, Core(2, 1, AutoSequence(candidate.version).value));
      }
    }
    hide CoreOf, AutoSequence, AutoDigits, SameIdentity, Less;
  }

  /** Below 2.1.n, in numbers. */
  ghost predicate Below(version: string, n: nat) {
    exists a: nat, b: nat, c: nat ::
      Versioned(version, a, b, c) && (a < 2 || (a == 2 && b < 1) || (a == 2 && b == 1 && c < n))
  }

  lemma BelowIs(version: string, n: nat)
    ensures Below(version, n) <==> CoreOf(version).Some? && Less(CoreOf(version).value, Core(2, 1, n))
  {
    forall a, b, c ensures Versioned(version, a, b, c) <==> CoreOf(version) == Some(Core(a, b, c)) {
      CoreIs(version, a, b, c);
    }
    hide CoreOf, Versioned;
    if CoreOf(version).Some? {
      var p := CoreOf(version).value;
      LessIs(p, Core(2, 1, n));
      assert Versioned(version, p.major, p.minor, p.patch);
    }
  }

  /** In numbers: an automatic candidate of sequence n replaces a verified
      pointer of another identity exactly below 2.1.n, and is refused otherwise;
      so a pointer of 2.2 or 3 or above is never replaced. */
  lemma DecisionByNumbers(t: Tools, existing: Bytes, candidate: Manifest, n: nat)
    requires Automatic(candidate.version, n) && t.verify(existing).Some?
    ensures var current, d := t.verify(existing).value, PointerDecision(t, Some(existing), candidate);
            if current.commit == candidate.commit && current.version == candidate.version && current.digest == candidate.digest
               && current.url == candidate.url
            then d == Ok((Idempotent, Some(current)))
            else if Below(current.version, n) then d == Ok((PublishUpgrade, Some(current)))
            else d == Err(Refused)
  {
    hide CoreOf, AutoDigits, Below, Automatic, Less;
    var current := t.verify(existing).value;
    AutomaticIs(candidate.version, n);
    AutoHasCore(candidate.version);
    SequenceIsCore(current.version);
    BelowIs(current.version, n);
    if CoreOf(current.version).Some? {
      LessTotal(CoreOf(current.version).value, Core(2, 1, n));
    }
  }

  lemma LessTotal(a: Core, b: Core)
    ensures Less(a, b) || Less(b, a) || a == b
    ensures !(Less(a, b) && Less(b, a)) && (a == b ==> !Less(a, b))
  {
  }

  lemma SequenceIsCore(version: string)
    ensures AutoSequence(version).Some? <==> AutoDigits(version).Some?
    ensures AutoSequence(version).Some? ==> CoreOf(version) == Some(Core(2, 1, AutoSequence(version).value))
  {
    if AutoDigits(version).Some? {
      AutoHasCore(version);
    }
    hide CoreOf, AutoDigits;
  }

  // ---------- Allowed replacements ----------

  function Pointer(root: Root): Path { Path(Published(root), VersionJson) }

  function ArtifactPath(root: Root, m: Manifest): Path { Path(Published(root), TargetArtifact(m.url.file)) }

  function ManifestPath(root: Root, commit: string): Path { Path(Published(root), TargetManifestOf(commit)) }

  ghost predicate ArtifactFits(t: Tools, bytes: Option<Bytes>, m: Manifest) {
    bytes.Some? && |bytes.value| == m.size && t.digest(bytes.value) == m.digest
  }

  /** The pointer at `root` names a verified manifest whose history copy and
      artifact are in place. */
  ghost predicate Whole(t: Tools, root: Root, files: Files, manifest: Bytes) {
    && t.verify(manifest).Some?
    && Lookup(files, ManifestPath(root, t.verify(manifest).value.commit)) == Some(manifest)
    && ArtifactFits(t, Lookup(files, ArtifactPath(root, t.verify(manifest).value)), t.verify(manifest).value)
  }

  /** A swap of the pointer to `manifest`: everything it names is already in
      place, nothing else published changes, and unless a rival wrote at that
      very moment the version core strictly rises. */
  ghost predicate TargetSwap(t: Tools, root: Root, rivals: nat -> Option<Rival>, manifest: Bytes, s: Step) {
    && Lookup(s.now, Pointer(root)) == Some(manifest)
    && Whole(t, root, s.now, manifest)
    && Keeps(s, {Pointer(root)})
    && (forall p | p in s.now && p !in s.was :: p == Pointer(root) || !FixedPath(p))
    && (rivals(s.at).None? ==> Raises(t, Lookup(s.was, Pointer(root)), t.verify(manifest).value))
  }

  // ---------- The publication ----------

  datatype Job = Job(root: Root, candidate: Manifest, artifact: Bytes, manifest: Bytes, attempt: string)

  /** What the caller has verified before publishing. */
  predicate Bound(t: Tools, job: Job) {
    && t.verify(job.manifest) == Some(job.candidate)
    && |job.artifact| == job.candidate.size && t.digest(job.artifact) == job.candidate.digest
  }

  function Stage(job: Job): (p: Place)
    ensures p.Staging?
  {
    Staging(job.root, TargetStage(job.candidate.commit, job.candidate.buildId, job.attempt))
  }

  function StagedArtifact(job: Job): Path { Path(Stage(job), TargetArtifact(job.candidate.url.file)) }

  function StagedManifest(job: Job): Path { Path(Stage(job), TargetManifestOf(job.candidate.commit)) }

  function StagedPointer(job: Job): Path { Path(Stage(job), VersionJson) }

  /** The staging directory holds nothing but `left`. */
  ghost predicate OnlyStaged(sftp: Server, stage: Place, left: set<Path>)
    reads sftp
  {
    stage in sftp.stages && forall p: Path | p.place == stage && p !in left :: Lookup(sftp.files, p) == None
  }

  /** The pointer is what it was, or this job's manifest. */
  predicate OldOrNew(was: Option<Bytes>, now: Option<Bytes>, job: Job) { now == was || now == Some(job.manifest) }

  predicate BuildIdentity(candidate: Manifest) {
    && |candidate.commit| == 40 && Hex(candidate.commit)
    && AutoDigits(candidate.version).Some?
    && candidate.buildId == "main-" + AutoDigits(candidate.version).value + "-" + candidate.commit
    && candidate.url.file in {"gatekeeper-firmware-" + candidate.commit + ".bin",
                              "gatekeeper-firmware-" + candidate.commit + ".sgkenc"}
  }

  /** An identified candidate, spelled out: a commit of forty lower-case
      hexadecimal digits, an automatic version, and build and file named after both. */
  lemma IdentityByText(c: Manifest)
    ensures BuildIdentity(c) <==>
              && |c.commit| == 40 && (forall i | 0 <= i < 40 :: '0' <= c.commit[i] <= '9' || 'a' <= c.commit[i] <= 'f')
              && (c.url.file == "gatekeeper-firmware-" + c.commit + ".bin" || c.url.file == "gatekeeper-firmware-" + c.commit + ".sgkenc")
              && exists d, h :: Main(c.version, d, h) && c.buildId == "main-" + d + "-" + c.commit
  {
    hide AutoDigits, Main, Hex;
    HexIs(c.commit);
    if d, h :| Main(c.version, d, h) && c.buildId == "main-" + d + "-" + c.commit {
      AutomaticReads(c.version, d, h);
    }
    if AutoDigits(c.version).Some? {
      var d, h := AutomaticParts(c.version);
    }
  }

  /** The history can take this manifest and the one being replaced. */
  ghost predicate HistoryFree(files: Files, job: Job, previous: Option<Manifest>, initial: Option<Bytes>) {
    && Placeable(files, ManifestPath(job.root, job.candidate.commit), job.manifest)
    && (previous.Some? && initial.Some? ==>
          && Placeable(files, ManifestPath(job.root, previous.value.commit), initial.value)
          && (previous.value.commit == job.candidate.commit ==> initial.value == job.manifest))
  }

  lemma HistoryFreeSame(files: Files, later: Files, job: Job, previous: Option<Manifest>, initial: Option<Bytes>)
    requires forall commit :: Lookup(later, ManifestPath(job.root, commit)) == Lookup(files, ManifestPath(job.root, commit))
    ensures HistoryFree(later, job, previous, initial) == HistoryFree(files, job, previous, initial)
  {
  }

  lemma StepsSame(files: Files, later: Files, job: Job, previous: Option<Manifest>, initial: Option<Bytes>)
    requires forall commit :: Lookup(later, ManifestPath(job.root, commit)) == Lookup(files, ManifestPath(job.root, commit))
    ensures StepsToSwap(later, job, previous, initial) == StepsToSwap(files, job, previous, initial)
  {
    assert forall commit ::
        ManifestPath(job.root, commit) in later <==> Lookup(later, ManifestPath(job.root, commit)) != None;
  }

  /** Nothing in place stands in the way of this decision. */
  ghost predicate RoomFor(files: Files, stages: set<Place>, job: Job, decision: Decision, previous: Option<Manifest>, initial: Option<Bytes>) {
    && Stage(job) !in stages && Placeable(files, ArtifactPath(job.root, job.candidate), job.artifact)
    && (decision != Idempotent ==> HistoryFree(files, job, previous, initial))
  }

  /** What a caller can check before publishing. */
  ghost predicate Publishable(t: Tools, job: Job, files: Files, stages: set<Place>) {
    var before := Lookup(files, Pointer(job.root));
    var d := PointerDecision(t, before, job.candidate);
    && BuildIdentity(job.candidate) && job.artifact != [] && job.manifest != []
    && d.Ok? && (d.value.0 == Idempotent ==> before == Some(job.manifest))
    && RoomFor(files, stages, job, d.value.0, d.value.1, before)
  }

  /** The path changes only while a rival is about. */
  twostate predicate StillAt(sftp: Server, p: Path)
    reads sftp`clock, sftp`files
  {
    && old(sftp.clock) <= sftp.clock
    && (sftp.Undisturbed(old(sftp.clock), sftp.clock) ==> Lookup(sftp.files, p) == Lookup(old(sftp.files), p))
  }

  /** The three staged copies are in place, and nothing else is staged. */
  ghost predicate PairStaged(sftp: Server, job: Job)
    reads sftp
  {
    && Lookup(sftp.files, StagedArtifact(job)) == Some(job.artifact)
    && Lookup(sftp.files, StagedManifest(job)) == Some(job.manifest)
    && Lookup(sftp.files, StagedPointer(job)) == Some(job.manifest)
    && OnlyStaged(sftp, Stage(job), {StagedArtifact(job), StagedManifest(job), StagedPointer(job)})
  }

  method PutPair(sftp: Server, job: Job) returns (r: Result<(), Error>)
    requires sftp.Valid()
    modifies sftp`clock, sftp`files, sftp`log, sftp`stages
    ensures sftp.Valid() && old(sftp.log) <= sftp.log && sftp.NoSwap()
    ensures forall p: Path | p.place != Stage(job) && (sftp.Quiet() || !FixedPath(p)) :: Lookup(sftp.files, p) == Lookup(old(sftp.files), p)
    ensures StillAt(sftp, Pointer(job.root)) && (r.Ok? ==> sftp.clock == old(sftp.clock) + 4)
    ensures (r.Ok? ==> Stage(job) !in old(sftp.stages)) && (r.Err? && sftp.Reliable() ==> Stage(job) in old(sftp.stages))
    ensures r.Ok? ==> PairStaged(sftp, job)
    ensures r.Err? ==> r.error == Io || r.error == Refused
  {
    hide Server.Valid, Server.Quiet, Server.Reliable, Stage, Adds;
    var made :- sftp.MakeDirectory(Stage(job));
    var put1 :- sftp.Write(StagedArtifact(job), job.artifact);
    var put2 :- sftp.Write(StagedManifest(job), job.manifest);
    var put3 :- sftp.Write(StagedPointer(job), job.manifest);
    r := Ok(());
  }

  method StagePair(sftp: Server, job: Job) returns (r: Result<(), Error>)
    requires sftp.Valid()
    modifies sftp`clock, sftp`files, sftp`log, sftp`stages
    ensures sftp.Valid() && old(sftp.log) <= sftp.log && sftp.NoSwap()
    ensures forall p: Path | p.place != Stage(job) && (sftp.Quiet() || !FixedPath(p)) :: Lookup(sftp.files, p) == Lookup(old(sftp.files), p)
    ensures StillAt(sftp, Pointer(job.root)) && (r.Ok? ==> sftp.clock == old(sftp.clock) + 7)
    ensures (r.Ok? ==> Stage(job) !in old(sftp.stages)) && (r.Err? && sftp.Reliable() ==> Stage(job) in old(sftp.stages))
    ensures r.Ok? ==> PairStaged(sftp, job)
    ensures r.Err? ==> r.error == Io || r.error == Refused
  {
    hide Server.Valid, Server.Quiet, Server.Reliable, Stage, Adds;
    var put :- PutPair(sftp, job);
    var same1 :- ReadBack(sftp, StagedArtifact(job), job.artifact);
    var same2 :- ReadBack(sftp, StagedManifest(job), job.manifest);
    var same3 :- ReadBack(sftp, StagedPointer(job), job.manifest);
    r := Ok(());
  }

  /** Copies the pointer being replaced into the history of its own commit. */
  method PreservePrevious(sftp: Server, job: Job, previous: Manifest, bytes: Bytes) returns (r: Result<(), Error>)
    requires sftp.Valid()
    requires OnlyStaged(sftp, Stage(job), {StagedPointer(job)})
    modifies sftp`clock, sftp`files, sftp`log
    ensures sftp.Beside({Path(Stage(job), PreviousManifest(previous.commit, 0)), ManifestPath(job.root, previous.commit)})
    ensures sftp.NoSwap()
    ensures r.Ok? ==> sftp.clock == old(sftp.clock) + 2 + PlaceSteps(old(sftp.files), ManifestPath(job.root, previous.commit))
    ensures r.Ok? ==> OnlyStaged(sftp, Stage(job), {StagedPointer(job)})
                      && Lookup(sftp.files, ManifestPath(job.root, previous.commit)) == Some(bytes)
    ensures ManifestPath(job.root, previous.commit) in old(sftp.files) ==>
              Lookup(sftp.files, ManifestPath(job.root, previous.commit)) == Lookup(old(sftp.files), ManifestPath(job.root, previous.commit))
    ensures r.Ok? ==> Placeable(old(sftp.files), ManifestPath(job.root, previous.commit), bytes)
    ensures r.Err? && sftp.Reliable() ==> !Placeable(old(sftp.files), ManifestPath(job.root, previous.commit), bytes)
    ensures r.Err? ==> r.error == Io || r.error == Refused
  {
    hide Server.Valid, Server.Quiet, Server.Reliable;
    var staged := Path(Stage(job), PreviousManifest(previous.commit, 0));
    var written :- sftp.Write(staged, bytes);
    var same :- ReadBack(sftp, staged, bytes);
    assert Lookup(sftp.files, ManifestPath(job.root, previous.commit)) == Lookup(old(sftp.files), ManifestPath(job.root, previous.commit));
    var placed :- PlaceImmutable(sftp, staged, ManifestPath(job.root, previous.commit), bytes);
    r := Ok(());
  }

  /** Leaves the staging directory empty and removes it. */
  method Withdraw(sftp: Server, job: Job, staged: set<Path>, first: Option<Path>, second: Path) returns (r: Result<(), Error>)
    requires sftp.Valid() && OnlyStaged(sftp, Stage(job), staged)
    requires second.place.Staging? && (first.Some? ==> first.value.place.Staging?)
    requires staged == (if first.Some? then {first.value, second} else {second})
    modifies sftp`clock, sftp`files, sftp`log, sftp`stages
    ensures sftp.Valid() && old(sftp.log) <= sftp.log && sftp.NoSwap()
    ensures forall p | p !in staged && (sftp.Quiet() || !FixedPath(p)) :: Lookup(sftp.files, p) == Lookup(old(sftp.files), p)
    ensures r.Ok? ==> sftp.Empty(Stage(job))
    ensures sftp.Reliable() && (forall p | p in staged :: p in old(sftp.files)) && (first.Some? ==> first.value != second) ==> r.Ok?
    ensures r.Err? ==> r.error == Io
  {
    hide Server.Valid, Server.Quiet, Server.Reliable, Stage;
    if first.Some? {
      var removed :- sftp.Remove(first.value);
      assert first.value != second ==> Lookup(sftp.files, second) == Lookup(old(sftp.files), second);
    }
    var removed :- sftp.Remove(second);
    var gone :- sftp.RemoveDirectory(Stage(job));
    r := Ok(());
  }

  /** The pointer found by a replacement differs from `initial` exactly when a
      rival writes another one at the request of that very replacement. */
  twostate predicate Honest(sftp: Server, root: Root, initial: Option<Bytes>)
    reads sftp`log
  {
    forall i | |old(sftp.log)| <= i < |sftp.log| && sftp.log[i].own && !Adds(sftp.log[i]) ::
      Lookup(sftp.log[i].was, Pointer(root)) != initial <==> Intrudes(sftp.rivals(sftp.log[i].at), Pointer(root), initial)
  }

  /** The pointer was replaced at that request, on those files. */
  ghost predicate Replacing(log: seq<Step>, from: nat, job: Job, at: nat, was: Files) {
    exists i | from <= i < |log| :: log[i].own && log[i].at == at && log[i].was == was
                                    && Lookup(log[i].now, Pointer(job.root)) == Some(job.manifest)
  }

  /** The pointer was replaced at that request and found to be `found`. */
  ghost predicate Meets(log: seq<Step>, from: nat, job: Job, at: nat, found: Option<Bytes>) {
    exists i | from <= i < |log| :: log[i].own && log[i].at == at && Lookup(log[i].was, Pointer(job.root)) == found
                                    && Lookup(log[i].now, Pointer(job.root)) == Some(job.manifest)
  }

  lemma ReplacingMeets(log: seq<Step>, from: nat, later: nat, job: Job, at: nat, was: Files)
    requires from <= later && Replacing(log, later, job, at, was)
    ensures Meets(log, from, job, at, Lookup(was, Pointer(job.root)))
  {
  }

  lemma MeetsEarlier(log: seq<Step>, from: nat, later: nat, job: Job, at: nat, found: Option<Bytes>)
    requires from <= later
    ensures Meets(log, later, job, at, found) ==> Meets(log, from, job, at, found)
  {
  }

  /** How many requests come before the replacement once the artifact is placed. */
  function StepsToSwap(files: Files, job: Job, previous: Option<Manifest>, initial: Option<Bytes>): nat {
    PlaceSteps(files, ManifestPath(job.root, job.candidate.commit)) + 1
    + if previous.None? || initial.None? then 0
      else if previous.value.commit == job.candidate.commit then 4
      else 2 + PlaceSteps(files, ManifestPath(job.root, previous.value.commit))
  }

  /** The same from the decision on. */
  function StepsFromDecision(files: Files, job: Job, previous: Option<Manifest>, initial: Option<Bytes>): nat {
    7 + PlaceSteps(files, ArtifactPath(job.root, job.candidate)) + StepsToSwap(files, job, previous, initial)
  }

  /** The request at which a publication replaces the pointer. */
  function SwapRequest(t: Tools, job: Job, files: Files, clock: nat): nat {
    var before := Lookup(files, Pointer(job.root));
    var d := PointerDecision(t, before, job.candidate);
    if d.Err? then 0
    else clock + 1 + (if d.value.1.Some? then 1 else 0) + StepsFromDecision(files, job, d.value.1, before)
  }

  lemma UpcomingPointer(sftp: Server, p: Path)
    ensures Lookup(sftp.Upcoming(), p) != Lookup(sftp.files, p) <==> Intrudes(sftp.rivals(sftp.clock), p, Lookup(sftp.files, p))
  {
  }

  /** The pointer swap alone. */
  method Swap(sftp: Server, t: Tools, job: Job, ghost current: Option<Bytes>) returns (r: Result<(), Error>)
    requires sftp.Valid() && Bound(t, job)
    requires forall s | TargetSwap(t, job.root, sftp.rivals, job.manifest, s) :: sftp.swaps(s)
    requires Lookup(sftp.files, StagedPointer(job)) == Some(job.manifest)
    requires Lookup(sftp.files, Pointer(job.root)) == current && Raises(t, current, job.candidate)
    requires Lookup(sftp.files, ManifestPath(job.root, job.candidate.commit)) == Some(job.manifest)
    requires Lookup(sftp.files, ArtifactPath(job.root, job.candidate)) == Some(job.artifact)
    modifies sftp`clock, sftp`files, sftp`log
    ensures sftp.Beside({StagedPointer(job), Pointer(job.root)})
    ensures Honest(sftp, job.root, current)
    ensures sftp.Reliable() ==> Replacing(sftp.log, |old(sftp.log)|, job, old(sftp.clock), old(sftp.Upcoming()))
    ensures sftp.Quiet() ==> OldOrNew(current, Lookup(sftp.files, Pointer(job.root)), job)
    ensures r.Ok? ==> StagedPointer(job) !in sftp.files && Lookup(sftp.files, Pointer(job.root)) == Some(job.manifest)
    ensures r.Err? ==> r.error == Io && !sftp.Reliable()
  {
    SwapAllowed(sftp, t, job, current);
    UpcomingPointer(sftp, Pointer(job.root));
    MovedFiles(sftp.clock, true, sftp.Upcoming(), StagedPointer(job), Pointer(job.root));
    hide Server.Valid, Server.Quiet, Server.Reliable, Server.Upcoming, Stage, TargetSwap, Raises, Moved, Bound;
    r := sftp.Replace(StagedPointer(job), Pointer(job.root));
  }

  /** The pointer swap, its readback and the removal of the empty directory. */
  method Commit(sftp: Server, t: Tools, job: Job, current: Option<Bytes>) returns (r: Result<(), Error>)
    requires sftp.Valid() && Bound(t, job)
    requires forall s | TargetSwap(t, job.root, sftp.rivals, job.manifest, s) :: sftp.swaps(s)
    requires OnlyStaged(sftp, Stage(job), {StagedPointer(job)})
    requires Lookup(sftp.files, StagedPointer(job)) == Some(job.manifest)
    requires Lookup(sftp.files, Pointer(job.root)) == current && Raises(t, current, job.candidate)
    requires Lookup(sftp.files, ManifestPath(job.root, job.candidate.commit)) == Some(job.manifest)
    requires Lookup(sftp.files, ArtifactPath(job.root, job.candidate)) == Some(job.artifact)
    modifies sftp`clock, sftp`files, sftp`log, sftp`stages
    ensures sftp.Valid() && old(sftp.log) <= sftp.log && Honest(sftp, job.root, current)
    ensures forall p | p !in {StagedPointer(job), Pointer(job.root)} && (sftp.Quiet() || !FixedPath(p)) ::
              Lookup(sftp.files, p) == Lookup(old(sftp.files), p)
    ensures r.Ok? ==> Settled(sftp, |old(sftp.log)|, Pointer(job.root), Some(job.manifest))
    ensures r.Ok? && sftp.Quiet() ==> Lookup(sftp.files, Pointer(job.root)) == Some(job.manifest)
    ensures sftp.Quiet() ==> OldOrNew(current, Lookup(sftp.files, Pointer(job.root)), job)
    ensures r.Ok? ==> sftp.Empty(Stage(job))
    ensures r.Err? ==> r.error == Io || r.error == Refused
    ensures sftp.Reliable() ==> Replacing(sftp.log, |old(sftp.log)|, job, old(sftp.clock), old(sftp.Upcoming()))
    ensures sftp.Reliable() && sftp.Quiet() ==> r.Ok?
  {
    hide Server.Valid, Server.Quiet, Server.Reliable, Stage, TargetSwap, Raises, Bound;
    var swapped :- Swap(sftp, t, job, current);
    var same :- ReadBack(sftp, Pointer(job.root), job.manifest);
    Whence(sftp);
    ghost var middle, before := sftp.files, sftp.log;
    var gone :- sftp.RemoveDirectory(Stage(job));
    NoSwapLeaves(sftp.log, |before|, Pointer(job.root));
    SettledAfter(sftp, before, middle, Pointer(job.root), Some(job.manifest));
    SettledEarlier(sftp, |old(sftp.log)|, |before|, Pointer(job.root), Some(job.manifest));
    r := Ok(());
  }

  lemma SwapAllowed(sftp: Server, t: Tools, job: Job, current: Option<Bytes>)
    requires sftp.Valid() && Bound(t, job)
    requires Lookup(sftp.files, StagedPointer(job)) == Some(job.manifest)
    requires Lookup(sftp.files, Pointer(job.root)) == current && Raises(t, current, job.candidate)
    requires Lookup(sftp.files, ManifestPath(job.root, job.candidate.commit)) == Some(job.manifest)
    requires Lookup(sftp.files, ArtifactPath(job.root, job.candidate)) == Some(job.artifact)
    requires forall s | TargetSwap(t, job.root, sftp.rivals, job.manifest, s) :: sftp.swaps(s)
    ensures StagedPointer(job) in sftp.Upcoming()
    ensures sftp.swaps(Step(sftp.clock, true, sftp.Upcoming(), Moved(sftp.Upcoming(), StagedPointer(job), Pointer(job.root))))
  {
    hide Moved, Keeps, Server.Valid, Server.Upcoming, Raises, Stage, Adds;
    UpcomingFiles(sftp);
    MovedFiles(sftp.clock, true, sftp.Upcoming(), StagedPointer(job), Pointer(job.root));
    var was := sftp.Upcoming();
    var now := Moved(was, StagedPointer(job), Pointer(job.root));
    assert Lookup(was, StagedPointer(job)) == Lookup(sftp.files, StagedPointer(job));
    assert Lookup(was, ManifestPath(job.root, job.candidate.commit)) == Some(job.manifest);
    assert Lookup(was, ArtifactPath(job.root, job.candidate)) == Some(job.artifact);
    WholeNow(t, job, now);
    hide Whole;
    assert TargetSwap(t, job.root, sftp.rivals, job.manifest, Step(sftp.clock, true, was, now));
  }

  lemma WholeNow(t: Tools, job: Job, files: Files)
    requires Bound(t, job)
    requires Lookup(files, ManifestPath(job.root, job.candidate.commit)) == Some(job.manifest)
    requires Lookup(files, ArtifactPath(job.root, job.candidate)) == Some(job.artifact)
    ensures Whole(t, job.root, files, job.manifest)
  {
  }

  datatype Outcome = Outcome(decision: Decision, previousManifest: bool, previousArtifact: bool)

  /** What a publication reports: its decision, whether a manifest was replaced
      and whether the artifact that one names was in order. */
  ghost predicate Told(t: Tools, job: Job, files: Files, o: Outcome) {
    var before := Lookup(files, Pointer(job.root));
    && PointerDecision(t, before, job.candidate).Ok? && o.decision == PointerDecision(t, before, job.candidate).value.0
    && o.previousManifest == before.Some?
    && o.previousArtifact == (o.decision == Idempotent || (before.Some? && t.verify(before.value).Some?
         && ArtifactFits(t, Lookup(files, ArtifactPath(job.root, t.verify(before.value).value)), t.verify(before.value).value)))
  }

  method CheckPrevious(sftp: Server, t: Tools, root: Root, previous: Option<Manifest>) returns (r: Result<bool, Error>)
    requires sftp.Valid()
    modifies sftp`clock, sftp`files, sftp`log
    ensures sftp.Beside({}) && sftp.NoSwap() && (r.Ok? ==> sftp.clock == old(sftp.clock) + if previous.Some? then 1 else 0)
    ensures r.Ok? ==> r.value == (previous.Some? && ArtifactFits(t, Lookup(sftp.files, ArtifactPath(root, previous.value)), previous.value))
    ensures r.Err? ==> r.error == Io && !sftp.Reliable()
  {
    if previous.None? {
      return Ok(false);
    }
    var bytes :- sftp.Read(ArtifactPath(root, previous.value));
    r := Ok(bytes.Some? && |bytes.value| == previous.value.size && t.digest(bytes.value) == previous.value.digest);
  }

  method PublishTarget(sftp: Server, t: Tools, job: Job) returns (r: Result<Outcome, Error>)
    requires sftp.Valid() && Bound(t, job)
    modifies sftp`clock, sftp`files, sftp`log, sftp`stages, sftp`swaps, sftp`mark
    ensures sftp.Valid() && old(sftp.log) <= sftp.log && Honest(sftp, job.root, Lookup(old(sftp.Upcoming()), Pointer(job.root)))
    ensures TargetHistory(t, job.root, sftp.rivals, old(sftp.files), sftp.log[|old(sftp.log)|..], sftp.files)
    ensures PointerSources(sftp.log[|old(sftp.log)|..], job, Lookup(old(sftp.files), Pointer(job.root)), Lookup(sftp.files, Pointer(job.root)))
    ensures r.Ok? ==> Settled(sftp, |old(sftp.log)|, Pointer(job.root), Some(job.manifest))
    ensures sftp.Quiet() ==> OldOrNew(Lookup(old(sftp.files), Pointer(job.root)), Lookup(sftp.files, Pointer(job.root)), job)
    ensures r.Ok? && sftp.Quiet() ==> Lookup(sftp.files, Pointer(job.root)) == Some(job.manifest)
    ensures r.Ok? ==> Lookup(sftp.files, ArtifactPath(job.root, job.candidate)) == Some(job.artifact)
    ensures r.Ok? && r.value.decision != Idempotent ==>
              Lookup(sftp.files, ManifestPath(job.root, job.candidate.commit)) == Some(job.manifest)
    ensures r.Ok? && r.value.decision != Idempotent && sftp.Quiet() ==>
              Raises(t, Lookup(old(sftp.files), Pointer(job.root)), job.candidate)
    ensures r.Ok? ==> sftp.Empty(Stage(job))
    ensures sftp.Quiet() && r.Ok? ==> Publishable(t, job, old(sftp.files), old(sftp.stages))
                                      && Told(t, job, old(sftp.files), r.value)
    ensures sftp.Quiet() && sftp.Reliable() && Publishable(t, job, old(sftp.files), old(sftp.stages)) ==> r.Ok?
    ensures var k := SwapRequest(t, job, old(sftp.files), old(sftp.clock));
            sftp.Reliable() && Publishable(t, job, old(sftp.files), old(sftp.stages)) && sftp.Undisturbed(old(sftp.clock), k)
            && Lookup(old(sftp.files), Pointer(job.root)) != Some(job.manifest) ==>
              Meets(sftp.log, |old(sftp.log)|, job, k,
                    FoundWith(sftp.rivals(k), Pointer(job.root), Lookup(old(sftp.files), Pointer(job.root))))
    ensures r.Ok? && r.value.decision == PublishUpgrade && sftp.Quiet() ==>
              var before := Lookup(old(sftp.files), Pointer(job.root));
              && before.Some? && t.verify(before.value).Some?
              && Lookup(sftp.files, ManifestPath(job.root, t.verify(before.value).value.commit)) == before
    ensures sftp.Quiet() ==> StaysAbove(t, Lookup(old(sftp.files), Pointer(job.root)), Lookup(sftp.files, Pointer(job.root)), job)
  {
    hide Server.Valid, Server.Quiet, Server.Reliable, Publishable, Told, Adds, TargetSwap, Raises, RivalWrote, PointerSources, TargetHistory;
    hide Meets, SwapRequest, FoundWith, Server.Undisturbed, StaysAbove, BuildIdentity;
    Whence(sftp);
    sftp.Allow(s => TargetSwap(t, job.root, sftp.rivals, job.manifest, s));
    r := PublishAllowed(sftp, t, job);
    HistorySoFar(sftp, t, job, old(sftp.log), old(sftp.files));
    AboveIsKept(sftp, t, job, old(sftp.log), old(sftp.files));
  }

  /** A verified pointer above 2.1, in numbers, and not of this very manifest. */
  ghost predicate Above(t: Tools, before: Option<Bytes>, job: Job) {
    && before.Some? && before != Some(job.manifest) && t.verify(before.value).Some?
    && exists a: nat, b: nat, c: nat :: Versioned(t.verify(before.value).value.version, a, b, c) && (a > 2 || (a == 2 && b > 1))
  }

  ghost predicate StaysAbove(t: Tools, before: Option<Bytes>, after: Option<Bytes>, job: Job) { Above(t, before, job) ==> after == before }

  lemma AboveIsNotRaised(t: Tools, before: Option<Bytes>, job: Job)
    requires Above(t, before, job) && BuildIdentity(job.candidate)
    ensures !Raises(t, before, job.candidate)
  {
    var version := t.verify(before.value).value.version;
    var a: nat, b: nat, c: nat :| Versioned(version, a, b, c) && (a > 2 || (a == 2 && b > 1));
    CoreIs(version, a, b, c);
    RaisesIs(t, before, job.candidate);
    AutoHasCore(job.candidate.version);
    hide CoreOf, AutoDigits, Versioned;
  }

  lemma AboveIsKept(sftp: Server, t: Tools, job: Job, before: seq<Step>, was: Files)
    requires sftp.Valid() && Bound(t, job) && before <= sftp.log && sftp.mark == |before| && Continuous(sftp.origin, before, was)
    requires forall s :: sftp.swaps(s) <==> TargetSwap(t, job.root, sftp.rivals, job.manifest, s)
    requires !BuildIdentity(job.candidate) ==> forall i | |before| <= i < |sftp.log| && sftp.log[i].own :: Adds(sftp.log[i])
    ensures sftp.Quiet() ==> StaysAbove(t, Lookup(was, Pointer(job.root)), Lookup(sftp.files, Pointer(job.root)), job)
  {
    var p := Pointer(job.root);
    if sftp.Quiet() && Above(t, Lookup(was, p), job) {
      AbovePrefix(sftp, t, job, before, was, |sftp.log|);
    }
  }

  lemma {:induction false} AbovePrefix(sftp: Server, t: Tools, job: Job, before: seq<Step>, was: Files, k: nat)
    requires sftp.Valid() && sftp.Quiet() && Bound(t, job) && before <= sftp.log && sftp.mark == |before| && Continuous(sftp.origin, before, was)
    requires forall s :: sftp.swaps(s) <==> TargetSwap(t, job.root, sftp.rivals, job.manifest, s)
    requires !BuildIdentity(job.candidate) ==> forall i | |before| <= i < |sftp.log| && sftp.log[i].own :: Adds(sftp.log[i])
    requires Above(t, Lookup(was, Pointer(job.root)), job) && |before| <= k <= |sftp.log|
    ensures Lookup(if k == |before| then was else sftp.log[k - 1].now, Pointer(job.root)) == Lookup(was, Pointer(job.root))
    ensures k == |sftp.log| ==> Lookup(sftp.files, Pointer(job.root)) == Lookup(was, Pointer(job.root))
  {
    hide Above, BuildIdentity, Bound, Whole, Keeps, Raises, Adds;
    if k > |before| {
      AbovePrefix(sftp, t, job, before, was, k - 1);
      var s := sftp.log[k - 1];
      StepContinues(sftp, before, was, k - 1);
      assert s.own by {
        assert sftp.rivals(s.at).None?;
      }
      if Adds(s) {
        AddsLeaves(s, Pointer(job.root));
      } else {
        AboveIsNotRaised(t, Lookup(was, Pointer(job.root)), job);
        BoundVerifies(t, job);
      }
    }
  }

  lemma BoundVerifies(t: Tools, job: Job)
    requires Bound(t, job)
    ensures t.verify(job.manifest) == Some(job.candidate)
  {
  }

  lemma StepContinues(sftp: Server, before: seq<Step>, was: Files, k: nat)
    requires sftp.Valid() && before <= sftp.log && Continuous(sftp.origin, before, was) && |before| <= k < |sftp.log|
    ensures sftp.log[k].was == if k == |before| then was else sftp.log[k - 1].now
  {
  }

  /** Where the bytes of the pointer can come from. */
  ghost predicate PointerSources(steps: seq<Step>, job: Job, was: Option<Bytes>, now: Option<Bytes>) {
    OldOrNew(was, now, job) || RivalWrote(steps, Pointer(job.root), now)
  }

  lemma HistorySoFar(sftp: Server, t: Tools, job: Job, before: seq<Step>, was: Files)
    requires sftp.Valid() && before <= sftp.log && sftp.mark == |before| && Continuous(sftp.origin, before, was)
    requires forall s :: sftp.swaps(s) <==> TargetSwap(t, job.root, sftp.rivals, job.manifest, s)
    ensures TargetHistory(t, job.root, sftp.rivals, was, sftp.log[|before|..], sftp.files)
    ensures PointerSources(sftp.log[|before|..], job, Lookup(was, Pointer(job.root)), Lookup(sftp.files, Pointer(job.root)))
  {
    Suffix(sftp.origin, before, was, sftp.log, sftp.files);
    var steps := sftp.log[|before|..];
    hide Whole, Raises, Adds, Continuous;
    forall i | 0 <= i < |steps| ensures TargetStep(t, job.root, sftp.rivals, steps[i]) {
      assert steps[i] == sftp.log[|before| + i];
    }
    forall i | 0 <= i < |steps| && steps[i].own
      ensures Leaves(steps[i], Pointer(job.root)) || Lookup(steps[i].now, Pointer(job.root)) == Some(job.manifest)
    {
      assert steps[i] == sftp.log[|before| + i];
      if Adds(steps[i]) {
        AddsLeaves(steps[i], Pointer(job.root));
      }
    }
    FixedFileSources(was, steps, sftp.files, Pointer(job.root), Some(job.manifest));
  }

  method PublishAllowed(sftp: Server, t: Tools, job: Job) returns (r: Result<Outcome, Error>)
    requires sftp.Valid() && Bound(t, job)
    requires forall s | TargetSwap(t, job.root, sftp.rivals, job.manifest, s) :: sftp.swaps(s)
    modifies sftp`clock, sftp`files, sftp`log, sftp`stages
    ensures sftp.Valid() && old(sftp.log) <= sftp.log && Honest(sftp, job.root, Lookup(old(sftp.Upcoming()), Pointer(job.root)))
    ensures r.Ok? ==> Settled(sftp, |old(sftp.log)|, Pointer(job.root), Some(job.manifest))
    ensures sftp.Quiet() ==> OldOrNew(Lookup(old(sftp.files), Pointer(job.root)), Lookup(sftp.files, Pointer(job.root)), job)
    ensures r.Ok? && sftp.Quiet() ==> Lookup(sftp.files, Pointer(job.root)) == Some(job.manifest)
    ensures r.Ok? ==> Lookup(sftp.files, ArtifactPath(job.root, job.candidate)) == Some(job.artifact)
    ensures r.Ok? && r.value.decision != Idempotent ==>
              Lookup(sftp.files, ManifestPath(job.root, job.candidate.commit)) == Some(job.manifest)
    ensures r.Ok? && r.value.decision != Idempotent && sftp.Quiet() ==>
              Raises(t, Lookup(old(sftp.files), Pointer(job.root)), job.candidate)
    ensures r.Ok? ==> sftp.Empty(Stage(job))
    ensures sftp.Quiet() && r.Ok? ==> Publishable(t, job, old(sftp.files), old(sftp.stages))
                                      && Told(t, job, old(sftp.files), r.value)
    ensures sftp.Quiet() && sftp.Reliable() && Publishable(t, job, old(sftp.files), old(sftp.stages)) ==> r.Ok?
    ensures var k := SwapRequest(t, job, old(sftp.files), old(sftp.clock));
            sftp.Reliable() && Publishable(t, job, old(sftp.files), old(sftp.stages)) && sftp.Undisturbed(old(sftp.clock), k)
            && Lookup(old(sftp.files), Pointer(job.root)) != Some(job.manifest) ==>
              Meets(sftp.log, |old(sftp.log)|, job, k,
                    FoundWith(sftp.rivals(k), Pointer(job.root), Lookup(old(sftp.files), Pointer(job.root))))
    ensures r.Ok? && r.value.decision == PublishUpgrade && sftp.Quiet() ==>
              var before := Lookup(old(sftp.files), Pointer(job.root));
              && before.Some? && t.verify(before.value).Some?
              && Lookup(sftp.files, ManifestPath(job.root, t.verify(before.value).value.commit)) == before
    ensures !BuildIdentity(job.candidate) ==> r.Err? && sftp.NoSwap()
  {
    hide Server.Valid, Server.Quiet, Server.Reliable, Raises, CoreOf, AutoDigits, Hex, Stage, PointerDecision, TargetSwap, Adds, RivalWrote;
    hide Settled, ArtifactFits, OnlyStaged, Continuous, Server.Upcoming, Bound, RoomFor, Outcomes, Meets, FoundWith;
    QuietUpcoming(sftp);
    PublishableIsDecided(t, job, sftp.files, sftp.stages);
    var finding, log, middle :- Inspect(sftp, t, job);
    var initial, decided, previous := finding.initial, finding.decision, finding.previous;
    UpgradeMeansRaise(t, initial, job.candidate);
    if sftp.Quiet() || sftp.Undisturbed(old(sftp.clock), sftp.clock) {
      SameFiles(sftp.files, old(sftp.files));
    }
    ghost var checked := sftp.log;
    r := Proceed(sftp, t, job, finding, log, middle);
    ghost var k := SwapRequest(t, job, old(sftp.files), old(sftp.clock));
    MeetsEarlier(sftp.log, |old(sftp.log)|, |checked|, job, k, FoundWith(sftp.rivals(k), Pointer(job.root), initial));
    if r.Ok? {
      OutcomesTold(t, job, sftp.Quiet(), finding, r.value);
      SettledEarlier(sftp, |old(sftp.log)|, |log|, Pointer(job.root), Some(job.manifest));
    }
  }

  /** What can be reported after this finding, with or without rivals. */
  ghost predicate Outcomes(quiet: bool, f: Finding, o: Outcome) {
    if f.decision == Idempotent then o == Outcome(Idempotent, true, true)
    else (!quiet && o == Outcome(IdempotentRaceWinner, true, true)) || o == Outcome(f.decision, f.previous.Some?, f.previousArtifact)
  }

  lemma OutcomesTold(t: Tools, job: Job, quiet: bool, f: Finding, o: Outcome)
    requires Outcomes(quiet, f, o) && Decided(t, job, f.initial, f.decision, f.previous)
    requires f.decision in {PublishNew, Idempotent, PublishUpgrade}
    ensures o.decision == Idempotent <==> f.decision == Idempotent
    ensures quiet ==> o.decision == f.decision && o.previousManifest == (f.decision == Idempotent || f.previous.Some?)
                      && o.previousArtifact == (f.decision == Idempotent || f.previousArtifact)
  {
  }

  /** From what was found on. */
  method Proceed(sftp: Server, t: Tools, job: Job, f: Finding, ghost log: seq<Step>, ghost middle: Files) returns (r: Result<Outcome, Error>)
    requires sftp.Valid() && Bound(t, job)
    requires if f.decision == Idempotent then f.initial == Some(job.manifest)
             else f.decision in {PublishNew, PublishUpgrade} && Raises(t, f.initial, job.candidate)
    requires sftp.Quiet() ==> Lookup(sftp.files, Pointer(job.root)) == f.initial
    requires log <= sftp.log && Continuous(sftp.origin, log, middle) && Lookup(middle, Pointer(job.root)) == f.initial
    requires forall i | |log| <= i < |sftp.log| && sftp.log[i].own :: Adds(sftp.log[i])
    requires forall s | TargetSwap(t, job.root, sftp.rivals, job.manifest, s) :: sftp.swaps(s)
    modifies sftp`clock, sftp`files, sftp`log, sftp`stages
    ensures sftp.Valid() && old(sftp.log) <= sftp.log && Honest(sftp, job.root, f.initial)
    ensures r.Ok? ==> Settled(sftp, |log|, Pointer(job.root), Some(job.manifest)) && Outcomes(sftp.Quiet(), f, r.value)
    ensures sftp.Quiet() ==> OldOrNew(Lookup(old(sftp.files), Pointer(job.root)), Lookup(sftp.files, Pointer(job.root)), job)
    ensures r.Ok? && sftp.Quiet() ==> Lookup(sftp.files, Pointer(job.root)) == Some(job.manifest)
    ensures r.Ok? ==> Lookup(sftp.files, ArtifactPath(job.root, job.candidate)) == Some(job.artifact) && sftp.Empty(Stage(job))
    ensures r.Ok? && f.decision != Idempotent ==>
              && Lookup(sftp.files, ManifestPath(job.root, job.candidate.commit)) == Some(job.manifest)
              && (f.previous.Some? && f.initial.Some? ==> Lookup(sftp.files, ManifestPath(job.root, f.previous.value.commit)) == f.initial)
    ensures r.Ok? ==> RoomFor(old(sftp.files), old(sftp.stages), job, f.decision, f.previous, f.initial)
    ensures sftp.Quiet() && sftp.Reliable() && RoomFor(old(sftp.files), old(sftp.stages), job, f.decision, f.previous, f.initial) ==> r.Ok?
    ensures var k := old(sftp.clock) + StepsFromDecision(old(sftp.files), job, f.previous, f.initial);
            sftp.Reliable() && RoomFor(old(sftp.files), old(sftp.stages), job, f.decision, f.previous, f.initial) && f.decision != Idempotent
            && Lookup(old(sftp.files), Pointer(job.root)) == f.initial && sftp.Undisturbed(old(sftp.clock), k) ==>
              Meets(sftp.log, |old(sftp.log)|, job, k, FoundWith(sftp.rivals(k), Pointer(job.root), f.initial))
  {
    hide Server.Valid, Server.Quiet, Server.Reliable, Raises, Stage, TargetSwap, Bound, Adds, RivalWrote, Settled, RoomFor, StepsFromDecision, Meets,
         FoundWith, Server.Undisturbed;
    ghost var checked := sftp.log;
    var decision :- PublishDecided(sftp, t, job, f.decision, f.previous, f.initial);
    if f.decision == Idempotent {
      NoSwapLeaves(sftp.log, |log|, Pointer(job.root));
      SettledAfter(sftp, log, middle, Pointer(job.root), Some(job.manifest));
    } else {
      SettledEarlier(sftp, |log|, |checked|, Pointer(job.root), Some(job.manifest));
    }
    r := Ok(if decision.PublishNew? || decision.PublishUpgrade? then Outcome(decision, f.previous.Some?, f.previousArtifact)
            else Outcome(decision, true, true));
  }

  lemma QuietUpcoming(sftp: Server)
    ensures sftp.Quiet() || sftp.rivals(sftp.clock).None? ==> sftp.Upcoming() == sftp.files
  {
  }

  /** What is known before anything is written. */
  datatype Finding = Finding(initial: Option<Bytes>, decision: Decision, previous: Option<Manifest>, previousArtifact: bool)

  ghost predicate Decided(t: Tools, job: Job, initial: Option<Bytes>, decision: Decision, previous: Option<Manifest>) {
    && BuildIdentity(job.candidate) && job.artifact != [] && job.manifest != []
    && PointerDecision(t, initial, job.candidate) == Ok((decision, previous))
    && (decision == Idempotent ==> initial == Some(job.manifest))
  }

  lemma PublishableIsDecided(t: Tools, job: Job, files: Files, stages: set<Place>)
    ensures Publishable(t, job, files, stages) ==>
              exists decision, previous :: Decided(t, job, Lookup(files, Pointer(job.root)), decision, previous)
  {
    hide BuildIdentity, PointerDecision, RoomFor;
    if Publishable(t, job, files, stages) {
      var d := PointerDecision(t, Lookup(files, Pointer(job.root)), job.candidate).value;
      assert Decided(t, job, Lookup(files, Pointer(job.root)), d.0, d.1);
    }
  }

  /** The checks on the candidate, the pointer and its artifact; `log` and
      `middle` are the history and the files when the pointer was read. */
  method Inspect(sftp: Server, t: Tools, job: Job) returns (r: Result<Finding, Error>, ghost log: seq<Step>, ghost middle: Files)
    requires sftp.Valid()
    modifies sftp`clock, sftp`files, sftp`log
    ensures sftp.Beside({}) && sftp.NoSwap()
    ensures r.Ok? ==>
              && Decided(t, job, r.value.initial, r.value.decision, r.value.previous)
              && r.value.initial == Lookup(old(sftp.Upcoming()), Pointer(job.root)) == Lookup(middle, Pointer(job.root))
              && sftp.clock == old(sftp.clock) + 1 + (if r.value.previous.Some? then 1 else 0)
              && old(sftp.log) <= log <= sftp.log && Continuous(sftp.origin, log, middle)
              && r.value.previousArtifact == (r.value.previous.Some?
                   && ArtifactFits(t, Lookup(sftp.files, ArtifactPath(job.root, r.value.previous.value)), r.value.previous.value))
    ensures r.Err? && sftp.Reliable() ==>
              forall decision, previous :: !Decided(t, job, Lookup(old(sftp.Upcoming()), Pointer(job.root)), decision, previous)
  {
    hide Server.Valid, Server.Quiet, Server.Reliable, BuildIdentity, PointerDecision, Adds, ArtifactFits, Continuous, Server.Upcoming;
    log, middle := [], map[];
    if !BuildIdentity(job.candidate) || job.artifact == [] || job.manifest == [] {
      return Err(Refused), log, middle;
    }
    var initial := sftp.Read(Pointer(job.root));
    if initial.Err? {
      return Err(initial.error), log, middle;
    }
    Whence(sftp);
    log, middle := sftp.log, sftp.files;
    var judged := PointerDecision(t, initial.value, job.candidate);
    if judged.Err? || (judged.value.0 == Idempotent && initial.value != Some(job.manifest)) {
      return Err(if judged.Err? then judged.error else Refused), log, middle;
    }
    var previousArtifact := CheckPrevious(sftp, t, job.root, judged.value.1);
    r := if previousArtifact.Err? then Err(previousArtifact.error)
         else Ok(Finding(initial.value, judged.value.0, judged.value.1, previousArtifact.value));
  }

  /** Stages everything and puts the artifact in place. */
  method PlaceArtifact(sftp: Server, job: Job) returns (r: Result<(), Error>)
    requires sftp.Valid()
    modifies sftp`clock, sftp`files, sftp`log, sftp`stages
    ensures sftp.Valid() && old(sftp.log) <= sftp.log && sftp.NoSwap()
    ensures forall p: Path | p.place != Stage(job) && p != ArtifactPath(job.root, job.candidate) && (sftp.Quiet() || !FixedPath(p)) ::
              Lookup(sftp.files, p) == Lookup(old(sftp.files), p)
    ensures StillAt(sftp, Pointer(job.root))
    ensures r.Ok? ==> sftp.clock == old(sftp.clock) + 7 + PlaceSteps(old(sftp.files), ArtifactPath(job.root, job.candidate))
    ensures r.Ok? ==>
              && Stage(job) !in old(sftp.stages) && Placeable(old(sftp.files), ArtifactPath(job.root, job.candidate), job.artifact)
              && Lookup(sftp.files, ArtifactPath(job.root, job.candidate)) == Some(job.artifact)
              && Lookup(sftp.files, StagedManifest(job)) == Some(job.manifest)
              && Lookup(sftp.files, StagedPointer(job)) == Some(job.manifest)
              && OnlyStaged(sftp, Stage(job), {StagedManifest(job), StagedPointer(job)})
    ensures r.Err? && sftp.Reliable() ==>
              Stage(job) in old(sftp.stages) || !Placeable(old(sftp.files), ArtifactPath(job.root, job.candidate), job.artifact)
  {
    hide Server.Valid, Server.Quiet, Server.Reliable, Stage, Adds;
    var staged :- StagePair(sftp, job);
    assert Lookup(sftp.files, ArtifactPath(job.root, job.candidate)) == Lookup(old(sftp.files), ArtifactPath(job.root, job.candidate));
    r := PlaceImmutable(sftp, StagedArtifact(job), ArtifactPath(job.root, job.candidate), job.artifact);
  }

  /** From a decision to the new pointer: stages, places, then swaps. */
  method PublishDecided(sftp: Server, t: Tools, job: Job, decision: Decision, previous: Option<Manifest>, initial: Option<Bytes>)
    returns (r: Result<Decision, Error>)
    requires sftp.Valid() && Bound(t, job)
    requires if decision == Idempotent then initial == Some(job.manifest) else Raises(t, initial, job.candidate)
    requires sftp.Quiet() ==> Lookup(sftp.files, Pointer(job.root)) == initial
    requires forall s | TargetSwap(t, job.root, sftp.rivals, job.manifest, s) :: sftp.swaps(s)
    modifies sftp`clock, sftp`files, sftp`log, sftp`stages
    ensures sftp.Valid() && old(sftp.log) <= sftp.log && Honest(sftp, job.root, initial)
    ensures decision == Idempotent ==> sftp.NoSwap()
    ensures r.Ok? && decision != Idempotent ==> Settled(sftp, |old(sftp.log)|, Pointer(job.root), Some(job.manifest))
    ensures sftp.Quiet() ==> OldOrNew(Lookup(old(sftp.files), Pointer(job.root)), Lookup(sftp.files, Pointer(job.root)), job)
    ensures r.Ok? && sftp.Quiet() ==> Lookup(sftp.files, Pointer(job.root)) == Some(job.manifest)
    ensures r.Ok? ==> r.value in {decision, IdempotentRaceWinner} && (decision == Idempotent ==> r.value == decision)
    ensures r.Ok? ==> Lookup(sftp.files, ArtifactPath(job.root, job.candidate)) == Some(job.artifact) && sftp.Empty(Stage(job))
    ensures r.Ok? && decision != Idempotent ==>
              Lookup(sftp.files, ManifestPath(job.root, job.candidate.commit)) == Some(job.manifest)
    ensures r.Ok? && decision != Idempotent && previous.Some? && initial.Some? ==>
              Lookup(sftp.files, ManifestPath(job.root, previous.value.commit)) == initial
    ensures r.Ok? ==> RoomFor(old(sftp.files), old(sftp.stages), job, decision, previous, initial)
    ensures sftp.Quiet() ==> (r.Ok? ==> r.value == decision)
                             && (sftp.Reliable() && RoomFor(old(sftp.files), old(sftp.stages), job, decision, previous, initial) ==> r.Ok?)
    ensures var k := old(sftp.clock) + StepsFromDecision(old(sftp.files), job, previous, initial);
            sftp.Reliable() && RoomFor(old(sftp.files), old(sftp.stages), job, decision, previous, initial) && decision != Idempotent
            && Lookup(old(sftp.files), Pointer(job.root)) == initial && sftp.Undisturbed(old(sftp.clock), k) ==>
              Meets(sftp.log, |old(sftp.log)|, job, k, FoundWith(sftp.rivals(k), Pointer(job.root), initial))
  {
    hide Server.Valid, Server.Quiet, Server.Reliable, Raises, Stage, TargetSwap, Bound, HistoryFree, Adds, RivalWrote, Placeable, Meets, FoundWith,
         StepsToSwap, PlaceSteps, Settled, Server.Upcoming;
    var placed :- PlaceArtifact(sftp, job);
    if decision == Idempotent {
      var withdrawn :- Withdraw(sftp, job, {StagedManifest(job), StagedPointer(job)}, Some(StagedManifest(job)), StagedPointer(job));
      return Ok(Idempotent);
    }
    HistoryFreeSame(old(sftp.files), sftp.files, job, previous, initial);
    StepsSame(old(sftp.files), sftp.files, job, previous, initial);
    ghost var before := sftp.log;
    ghost var k := old(sftp.clock) + StepsFromDecision(old(sftp.files), job, previous, initial);
    var swapped := PublishStaged(sftp, t, job, previous, initial);
    MeetsEarlier(sftp.log, |old(sftp.log)|, |before|, job, k, FoundWith(sftp.rivals(k), Pointer(job.root), initial));
    if swapped.Err? {
      return Err(swapped.error);
    }
    SettledEarlier(sftp, |old(sftp.log)|, |before|, Pointer(job.root), Some(job.manifest));
    r := Ok(if swapped.value then decision else IdempotentRaceWinner);
  }

  /** Completes the history: this manifest, and the one being replaced. */
  method PlaceHistory(sftp: Server, job: Job, previous: Option<Manifest>, initial: Option<Bytes>) returns (r: Result<(), Error>)
    requires sftp.Valid() && OnlyStaged(sftp, Stage(job), {StagedManifest(job), StagedPointer(job)})
    requires Lookup(sftp.files, StagedManifest(job)) == Some(job.manifest)
    modifies sftp`clock, sftp`files, sftp`log
    ensures sftp.Valid() && sftp.stages == old(sftp.stages) && old(sftp.log) <= sftp.log && sftp.NoSwap() && StillAt(sftp, Pointer(job.root))
    ensures sftp.Quiet() ==> Lookup(sftp.files, Pointer(job.root)) == Lookup(old(sftp.files), Pointer(job.root))
    ensures Lookup(sftp.files, StagedPointer(job)) == Lookup(old(sftp.files), StagedPointer(job))
    ensures Lookup(sftp.files, ArtifactPath(job.root, job.candidate)) == Lookup(old(sftp.files), ArtifactPath(job.root, job.candidate))
    ensures r.Ok? ==>
              && sftp.clock + 1 == old(sftp.clock) + StepsToSwap(old(sftp.files), job, previous, initial)
              && HistoryFree(old(sftp.files), job, previous, initial) && OnlyStaged(sftp, Stage(job), {StagedPointer(job)})
              && Lookup(sftp.files, ManifestPath(job.root, job.candidate.commit)) == Some(job.manifest)
              && (previous.Some? && initial.Some? ==> Lookup(sftp.files, ManifestPath(job.root, previous.value.commit)) == initial)
    ensures r.Err? && sftp.Reliable() ==> !HistoryFree(old(sftp.files), job, previous, initial)
  {
    hide Server.Valid, Server.Quiet, Server.Reliable, Stage, Adds;
    var placed :- PlaceImmutable(sftp, StagedManifest(job), ManifestPath(job.root, job.candidate.commit), job.manifest);
    if previous.Some? && initial.Some? {
      ghost var history := ManifestPath(job.root, previous.value.commit);
      assert previous.value.commit != job.candidate.commit ==> Lookup(sftp.files, history) == Lookup(old(sftp.files), history);
      var preserved :- PreservePrevious(sftp, job, previous.value, initial.value);
    }
    r := Ok(());
  }

  /** From a placed artifact to the new pointer; false when a rival already
      published the same bytes. */
  method PublishStaged(sftp: Server, t: Tools, job: Job, previous: Option<Manifest>, initial: Option<Bytes>)
    returns (r: Result<bool, Error>)
    requires sftp.Valid() && Bound(t, job) && Raises(t, initial, job.candidate)
    requires forall s | TargetSwap(t, job.root, sftp.rivals, job.manifest, s) :: sftp.swaps(s)
    requires OnlyStaged(sftp, Stage(job), {StagedManifest(job), StagedPointer(job)})
    requires Lookup(sftp.files, StagedManifest(job)) == Some(job.manifest)
    requires Lookup(sftp.files, StagedPointer(job)) == Some(job.manifest)
    requires Lookup(sftp.files, ArtifactPath(job.root, job.candidate)) == Some(job.artifact)
    modifies sftp`clock, sftp`files, sftp`log, sftp`stages
    ensures sftp.Valid() && old(sftp.log) <= sftp.log && Honest(sftp, job.root, initial)
    ensures r.Ok? ==> Settled(sftp, |old(sftp.log)|, Pointer(job.root), Some(job.manifest))
    ensures sftp.Quiet() ==> OldOrNew(Lookup(old(sftp.files), Pointer(job.root)), Lookup(sftp.files, Pointer(job.root)), job)
    ensures r.Ok? && sftp.Quiet() ==> Lookup(sftp.files, Pointer(job.root)) == Some(job.manifest)
    ensures r.Ok? ==>
              && Lookup(sftp.files, ArtifactPath(job.root, job.candidate)) == Some(job.artifact)
              && Lookup(sftp.files, ManifestPath(job.root, job.candidate.commit)) == Some(job.manifest)
              && sftp.Empty(Stage(job))
    ensures r.Ok? && previous.Some? && initial.Some? ==>
              Lookup(sftp.files, ManifestPath(job.root, previous.value.commit)) == initial
    ensures r.Ok? ==> HistoryFree(old(sftp.files), job, previous, initial)
    ensures sftp.Quiet() && Lookup(old(sftp.files), Pointer(job.root)) == initial ==>
              (r.Ok? ==> r.value)
              && (sftp.Reliable() && HistoryFree(old(sftp.files), job, previous, initial) ==> r.Ok?)
    ensures var k := old(sftp.clock) + StepsToSwap(old(sftp.files), job, previous, initial);
            sftp.Reliable() && HistoryFree(old(sftp.files), job, previous, initial)
            && Lookup(old(sftp.files), Pointer(job.root)) == initial && sftp.Undisturbed(old(sftp.clock), k) ==>
              Meets(sftp.log, |old(sftp.log)|, job, k, FoundWith(sftp.rivals(k), Pointer(job.root), initial))
  {
    hide Server.Valid, Server.Quiet, Server.Reliable, Raises, Stage, PointerDecision, TargetSwap, Bound, Meets, Replacing;
    var placed :- PlaceHistory(sftp, job, previous, initial);
    ghost var before, ready := sftp.log, sftp.clock;
    RivaledLookup(sftp.files, sftp.rivals(ready), Pointer(job.root));
    RivaledLookup(sftp.Upcoming(), sftp.rivals(ready + 1), Pointer(job.root));
    ghost var was := Rivaled(sftp.Upcoming(), sftp.rivals(ready + 1));
    r := SwapUnlessChanged(sftp, t, job, initial);
    if r.Ok? {
      SettledEarlier(sftp, |old(sftp.log)|, |before|, Pointer(job.root), Some(job.manifest));
    }
    if Replacing(sftp.log, |before|, job, ready + 1, was) {
      ReplacingMeets(sftp.log, |old(sftp.log)|, |before|, job, ready + 1, was);
    }
  }

  /** Reads the pointer once more right before the swap: one that is seen to
      have changed is not overwritten. */
  method SwapUnlessChanged(sftp: Server, t: Tools, job: Job, initial: Option<Bytes>) returns (r: Result<bool, Error>)
    requires sftp.Valid() && Bound(t, job) && Raises(t, initial, job.candidate)
    requires forall s | TargetSwap(t, job.root, sftp.rivals, job.manifest, s) :: sftp.swaps(s)
    requires OnlyStaged(sftp, Stage(job), {StagedPointer(job)})
    requires Lookup(sftp.files, StagedPointer(job)) == Some(job.manifest)
    requires Lookup(sftp.files, ManifestPath(job.root, job.candidate.commit)) == Some(job.manifest)
    requires Lookup(sftp.files, ArtifactPath(job.root, job.candidate)) == Some(job.artifact)
    modifies sftp`clock, sftp`files, sftp`log, sftp`stages
    ensures sftp.Valid() && old(sftp.log) <= sftp.log && Honest(sftp, job.root, initial)
    ensures Lookup(old(sftp.Upcoming()), Pointer(job.root)) != initial ==> sftp.NoSwap()
    ensures sftp.Reliable() && Lookup(old(sftp.Upcoming()), Pointer(job.root)) == initial ==>
              var k := old(sftp.clock) + 1;
              Replacing(sftp.log, |old(sftp.log)|, job, k, Rivaled(old(sftp.Upcoming()), sftp.rivals(k)))
    ensures r.Ok? ==> Settled(sftp, |old(sftp.log)|, Pointer(job.root), Some(job.manifest))
    ensures forall p | p !in {StagedPointer(job), Pointer(job.root)} && (sftp.Quiet() || !FixedPath(p)) ::
              Lookup(sftp.files, p) == Lookup(old(sftp.files), p)
    ensures sftp.Quiet() ==> OldOrNew(Lookup(old(sftp.files), Pointer(job.root)), Lookup(sftp.files, Pointer(job.root)), job)
    ensures sftp.Quiet() && Lookup(old(sftp.files), Pointer(job.root)) != initial ==>
              Lookup(sftp.files, Pointer(job.root)) == Lookup(old(sftp.files), Pointer(job.root))
    ensures r.Ok? && sftp.Quiet() ==> Lookup(sftp.files, Pointer(job.root)) == Some(job.manifest)
    ensures r.Ok? ==> sftp.Empty(Stage(job))
    ensures sftp.Quiet() && Lookup(old(sftp.files), Pointer(job.root)) == initial ==> (r.Ok? ==> r.value) && (sftp.Reliable() ==> r.Ok?)
  {
    hide Server.Valid, Server.Quiet, Server.Reliable, Raises, Stage, PointerDecision, TargetSwap, Bound, Adds, RivalWrote;
    var current :- sftp.Read(Pointer(job.root));
    Whence(sftp);
    ghost var middle, before := sftp.files, sftp.log;
    if current != initial {
      var rival :- PointerDecision(t, current, job.candidate);
      if rival.0 != Idempotent || current != Some(job.manifest) {
        return Err(Refused);
      }
      var withdrawn :- Withdraw(sftp, job, {StagedPointer(job)}, None, StagedPointer(job));
      NoSwapLeaves(sftp.log, |before|, Pointer(job.root));
      SettledAfter(sftp, before, middle, Pointer(job.root), current);
      SettledEarlier(sftp, |old(sftp.log)|, |before|, Pointer(job.root), current);
      return Ok(false);
    }
    var committed :- Commit(sftp, t, job, current);
    SettledEarlier(sftp, |old(sftp.log)|, |before|, Pointer(job.root), Some(job.manifest));
    r := Ok(true);
  }

  lemma ExampleVersion(tail: string)
    requires |tail| == 7 && Hex(tail)
    ensures AutoDigits("2.1.7+main.g" + tail) == Some("7")
  {
    var version := "2.1.7+main.g" + tail;
    assert version[..4] == "2.1.";
    DigitsSplit(version[4..], 1);
    assert version[5..][..7] == "+main.g" && version[5..][7..] == tail;
    assert version[4..5] == "7";
  }

  /** A first publication that is accepted. */
  lemma ExampleCandidate() returns (t: Tools, job: Job)
    ensures Bound(t, job) && Publishable(t, job, map[], {}) && SwapRequest(t, job, map[], 0) == 15
  {
    var commit := seq(40, i => '0');
    var tail := seq(7, i => '0');
    assert Hex(commit) && Hex(tail);
    ExampleVersion(tail);
    var m := Manifest(commit, "2.1.7+main.g" + tail, "main-" + "7" + "-" + commit,
                      Url("https://nas/", "gatekeeper-firmware-" + commit + ".bin"), 1, 2);
    t := Tools(b => if b == [1] then Some(m) else None, b => 2);
    job := Job(Root("/docker/target"), m, [2], [1], "1");
    hide AutoDigits, Hex;
  }

  /** The publication of any accepted candidate to an empty root, without any
      fault, during which a rival writes a pointer of its own with the very
      request of the replacement: that pointer is overwritten. */
  method RivalOverwritten(t: Tools, job: Job, foreign: Bytes) returns (sftp: Server, r: Result<Outcome, Error>)
    requires Bound(t, job) && Publishable(t, job, map[], {})
    ensures fresh(sftp) && sftp.Valid() && sftp.Reliable() && sftp.origin == map[]
    ensures Meets(sftp.log, 0, job, SwapRequest(t, job, map[], 0), Some(foreign))
  {
    hide Server.Valid, Publishable, PointerSources, TargetHistory, Told, Meets, Settled, Server.Quiet;
    var pointer, at := Pointer(job.root), 15;
    FirstSwap(t, job);
    var rivals: nat -> Option<Rival> := k => if k == at then Some(Rival(pointer, Some(foreign))) else None;
    sftp := new Server(k => Works, rivals, map[], {});
    r := PublishTarget(sftp, t, job);
  }

  lemma FirstSwap(t: Tools, job: Job)
    ensures SwapRequest(t, job, map[], 0) == 15
  {
  }

  // ---------- Every history ----------

  /** A change adds files, is a Target swap or is a rival's. */
  ghost predicate TargetStep(t: Tools, root: Root, rivals: nat -> Option<Rival>, s: Step) {
    if s.own then Adds(s) || exists m :: TargetSwap(t, root, rivals, m, s) else RivalStep(rivals, s)
  }

  /** All that happened between two states, whoever did it. */
  ghost predicate TargetHistory(t: Tools, root: Root, rivals: nat -> Option<Rival>, was: Files, log: seq<Step>, now: Files) {
    Continuous(was, log, now) && forall i | 0 <= i < |log| :: TargetStep(t, root, rivals, log[i])
  }

  lemma HistoriesJoin(t: Tools, root: Root, rivals: nat -> Option<Rival>, was: Files, log: seq<Step>, middle: Files, more: seq<Step>, now: Files)
    requires TargetHistory(t, root, rivals, was, log, middle) && TargetHistory(t, root, rivals, middle, more, now)
    ensures TargetHistory(t, root, rivals, was, log + more, now)
  {
    Joined(was, log, middle, more, now);
    hide TargetStep, Continuous;
  }

  /** Once swapped in, a manifest's history copy and artifact stay in place at
      every later moment of any sequence of publications, crashes and rivals. */
  lemma {:induction false} InstalledStaysWhole(t: Tools, root: Root, rivals: nat -> Option<Rival>, was: Files, log: seq<Step>, now: Files,
                                               i: nat, j: nat, manifest: Bytes)
    requires TargetHistory(t, root, rivals, was, log, now) && i <= j < |log|
    requires forall k | rivals(k).Some? :: FixedPath(rivals(k).value.path)
    requires log[i].own && TargetSwap(t, root, rivals, manifest, log[i])
    ensures Whole(t, root, log[j].now, manifest)
  {
    if i < j {
      InstalledStaysWhole(t, root, rivals, was, log, now, i, j - 1, manifest);
      assert log[j].was == log[j - 1].now;
      assert TargetStep(t, root, rivals, log[j]);
      WholeKept(t, root, rivals, log[j], manifest);
    }
  }

  lemma WholeKept(t: Tools, root: Root, rivals: nat -> Option<Rival>, s: Step, manifest: Bytes)
    requires Whole(t, root, s.was, manifest) && TargetStep(t, root, rivals, s)
    requires forall k | rivals(k).Some? :: FixedPath(rivals(k).value.path)
    ensures Whole(t, root, s.now, manifest)
  {
    var m := t.verify(manifest).value;
    assert ManifestPath(root, m.commit) in s.was && ArtifactPath(root, m) in s.was;
    if s.own {
      assert Keeps(s, {Pointer(root)});
    } else {
      assert FixedPath(rivals(s.at).value.path);
    }
  }

  /** The pointer at one moment is that of an earlier one, or names a manifest
      of a strictly higher version core. */
  ghost predicate Climbs(t: Tools, root: Root, earlier: Files, later: Files) {
    || Lookup(later, Pointer(root)) == Lookup(earlier, Pointer(root))
    || (var p := Lookup(later, Pointer(root));
        p.Some? && t.verify(p.value).Some? && Raises(t, Lookup(earlier, Pointer(root)), t.verify(p.value).value))
  }

  lemma ClimbsTransitive(t: Tools, root: Root, a: Files, b: Files, c: Files)
    requires Climbs(t, root, a, b) && Climbs(t, root, b, c)
    ensures Climbs(t, root, a, c)
  {
    hide Versioned;
    var p, q, r := Lookup(a, Pointer(root)), Lookup(b, Pointer(root)), Lookup(c, Pointer(root));
    if p.Some? && p != q && q != r {
      RaisesTransitive(t, p, q, t.verify(r.value).value);
    }
  }

  lemma RaisesTransitive(t: Tools, p: Option<Bytes>, q: Option<Bytes>, m: Manifest)
    requires p.Some? && q.Some? && t.verify(q.value).Some? && Raises(t, p, t.verify(q.value).value) && Raises(t, q, m)
    ensures Raises(t, p, m)
  {
    hide Raises, CoreOf;
    assert t.verify(p.value).Some? by { RaisesVerified(t, p, t.verify(q.value).value); }
    RaisesIs(t, p, t.verify(q.value).value);
    RaisesIs(t, q, m);
    RaisesIs(t, p, m);
  }

  lemma RaisesVerified(t: Tools, p: Option<Bytes>, m: Manifest)
    requires p.Some? && Raises(t, p, m)
    ensures t.verify(p.value).Some?
  {
  }

  /** Without rivals the version core never falls and a replaced pointer
      always gives way to a strictly higher core. */
  lemma {:induction false} VersionNeverFalls(t: Tools, root: Root, rivals: nat -> Option<Rival>, was: Files, log: seq<Step>, now: Files, i: nat, j: nat)
    requires TargetHistory(t, root, rivals, was, log, now) && i <= j < |log|
    requires forall k :: rivals(k).None?
    ensures Climbs(t, root, log[i].was, log[j].now)
  {
    var s := log[j];
    assert TargetStep(t, root, rivals, s);
    assert Climbs(t, root, s.was, s.now) by {
      if Adds(s) {
        assert Pointer(root) in s.was ==> Pointer(root) in s.now && s.now[Pointer(root)] == s.was[Pointer(root)];
        assert FixedPath(Pointer(root));
      }
    }
    if i < j {
      VersionNeverFalls(t, root, rivals, was, log, now, i, j - 1);
      assert log[j].was == log[j - 1].now;
      ClimbsTransitive(t, root, log[i].was, log[j - 1].now, log[j].now);
    }
  }

  /** Publications one after the other at one root, whatever each returned or
      wherever each gave up: the server's changes form one history, so every
      manifest ever swapped in keeps its copy and its artifact, and without
      rivals the core of the pointer never falls. */
  method PublishSeries(sftp: Server, t: Tools, root: Root, jobs: seq<Job>)
    requires sftp.Valid() && forall k | 0 <= k < |jobs| :: Bound(t, jobs[k]) && jobs[k].root == root
    modifies sftp`clock, sftp`files, sftp`log, sftp`stages, sftp`swaps, sftp`mark
    ensures sftp.Valid() && old(sftp.log) <= sftp.log
    ensures var steps := sftp.log[|old(sftp.log)|..];
            && TargetHistory(t, root, sftp.rivals, old(sftp.files), steps, sftp.files)
            && (forall i, j, manifest | 0 <= i <= j < |steps| && steps[i].own && TargetSwap(t, root, sftp.rivals, manifest, steps[i]) ::
                  Whole(t, root, steps[j].now, manifest))
            && (sftp.Quiet() ==> forall i, j | 0 <= i <= j < |steps| :: Climbs(t, root, steps[i].was, steps[j].now))
  {
    hide Server.Valid, TargetStep, TargetSwap, Whole, Climbs, Server.Quiet;
    EmptyHistory(sftp, t, root);
    var k := 0;
    while k < |jobs|
      invariant 0 <= k <= |jobs| && sftp.Valid() && old(sftp.log) <= sftp.log
      invariant TargetHistory(t, root, sftp.rivals, old(sftp.files), sftp.log[|old(sftp.log)|..], sftp.files)
    {
      ghost var files, log := sftp.files, sftp.log;
      var outcome := PublishTarget(sftp, t, jobs[k]);
      HistoriesJoin(t, root, sftp.rivals, old(sftp.files), log[|old(sftp.log)|..], files, sftp.log[|log|..], sftp.files);
      assert sftp.log[|old(sftp.log)|..] == log[|old(sftp.log)|..] + sftp.log[|log|..];
      k := k + 1;
    }
    HistoryMeans(sftp, t, root, old(sftp.files), sftp.log[|old(sftp.log)|..]);
  }

  lemma EmptyHistory(sftp: Server, t: Tools, root: Root)
    ensures TargetHistory(t, root, sftp.rivals, sftp.files, sftp.log[|sftp.log|..], sftp.files)
  {
  }

  lemma HistoryMeans(sftp: Server, t: Tools, root: Root, was: Files, steps: seq<Step>)
    requires sftp.Valid() && TargetHistory(t, root, sftp.rivals, was, steps, sftp.files)
    ensures forall i, j, manifest | 0 <= i <= j < |steps| && steps[i].own && TargetSwap(t, root, sftp.rivals, manifest, steps[i]) ::
              Whole(t, root, steps[j].now, manifest)
    ensures sftp.Quiet() ==> forall i, j | 0 <= i <= j < |steps| :: Climbs(t, root, steps[i].was, steps[j].now)
  {
    assert forall k | sftp.rivals(k).Some? :: FixedPath(sftp.rivals(k).value.path);
    hide Server.Valid, TargetHistory, TargetSwap, Whole, Climbs;
    forall i, j, manifest | 0 <= i <= j < |steps| && steps[i].own && TargetSwap(t, root, sftp.rivals, manifest, steps[i])
      ensures Whole(t, root, steps[j].now, manifest)
    {
      InstalledStaysWhole(t, root, sftp.rivals, was, steps, sftp.files, i, j, manifest);
    }
    if sftp.Quiet() {
      forall i, j | 0 <= i <= j < |steps| ensures Climbs(t, root, steps[i].was, steps[j].now) {
        VersionNeverFalls(t, root, sftp.rivals, was, steps, sftp.files, i, j);
      }
    }
  }
}
