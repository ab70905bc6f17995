/** Publication of a mobile APK with its signed manifest to two roots
    (scripts/ota_contract_gate.py, `_mobile_pair_decision`,
    `_read_mobile_sftp_root_state`, `_preflight_mobile_sftp_roots`,
    `_publish_mobile_sftp_root` and the order in `publish_mobile_sftp`). */
module MobilePublish {
  import opened Wrappers
  import opened Words
  import opened Sftp
  import opened Immutable
  import TargetVersion

  datatype Manifest = Manifest(commit: string, build: nat, size: nat, digest: nat, url: string, fallbackUrl: string)

  /** Signature check with parsing, hashing, and the APK's own identity check. */
  datatype Tools = Tools(verify: Bytes -> Option<Manifest>, digest: Bytes -> nat, identified: (Bytes, Manifest) -> bool)

  /** What a root serves: signed manifest and APK. */
  datatype Pair = Pair(manifest: Option<Bytes>, apk: Option<Bytes>)

  datatype Decision = PublishBootstrap | Idempotent | PublishUpgrade | PublishReplacingInvalid | IdempotentRaceWinner

  function ApkFile(root: Root): Path { Path(Published(root), MobileApk) }

  function ManifestFile(root: Root): Path { Path(Published(root), VersionJson) }

  function PairAt(files: Files, root: Root): Pair { Pair(Lookup(files, ManifestFile(root)), Lookup(files, ApkFile(root))) }

  /** The size and hash check every client makes. */
  ghost predicate HashAccepts(t: Tools, p: Pair) {
    && p.manifest.Some? && p.apk.Some? && t.verify(p.manifest.value).Some?
    && t.verify(p.manifest.value).value.size == |p.apk.value|
    && t.verify(p.manifest.value).value.digest == t.digest(p.apk.value)
  }

  function ManifestOf(t: Tools, p: Pair): Option<Manifest> {
    if p.manifest.None? then None else t.verify(p.manifest.value)
  }

  /** A pair the publisher may vouch for: both halves are there, the manifest
      verifies, and the APK has its size, its digest and its identity. */
  ghost predicate Genuine(t: Tools, p: Pair) {
    && p.manifest.Some? && p.apk.Some? && t.verify(p.manifest.value).Some?
    && |p.apk.value| == t.verify(p.manifest.value).value.size
    && t.digest(p.apk.value) == t.verify(p.manifest.value).value.digest
    && t.identified(p.apk.value, t.verify(p.manifest.value).value)
  }

  function ValidPair(t: Tools, p: Pair): (r: Option<Manifest>)
    ensures r.Some? <==> Genuine(t, p)
    ensures r.Some? ==> r == t.verify(p.manifest.value)
  {
    if p.manifest.None? || p.apk.None? then None
    else if t.verify(p.manifest.value).None? then None
    else
      var m := t.verify(p.manifest.value).value;
      if m.size != |p.apk.value| || m.digest != t.digest(p.apk.value) || !t.identified(p.apk.value, m) then None else Some(m)
  }

  /** A state the publisher accepts to start from. */
  predicate Readable(t: Tools, p: Pair) {
    && !(p.manifest.None? && p.apk.Some?)
    && (p.manifest.Some? ==> t.verify(p.manifest.value).Some?)
  }

  function PairDecision(existing: Option<Manifest>, valid: bool, candidate: Manifest): Result<Decision, Error> {
    if existing.None? then Ok(PublishBootstrap)
    else
      var e := existing.value;
      if e.commit == candidate.commit && e.build == candidate.build && e.digest == candidate.digest
         && e.url == candidate.url && e.fallbackUrl == candidate.fallbackUrl
      then if valid then Ok(Idempotent) else Err(Refused)
      else if e.build >= candidate.build then Err(Refused)
      else Ok(if valid then PublishUpgrade else PublishReplacingInvalid)
  }

  datatype Job = Job(candidate: Manifest, artifact: Bytes, manifest: Bytes, attempt: string)

  function NewPair(job: Job): Pair { Pair(Some(job.manifest), Some(job.artifact)) }

  /** What the caller has verified before publishing. */
  predicate Bound(t: Tools, job: Job) {
    && t.verify(job.manifest) == Some(job.candidate)
    && job.candidate.size == |job.artifact| && job.candidate.digest == t.digest(job.artifact)
  }

  predicate Identified(job: Job) { |job.candidate.commit| == 40 && TargetVersion.Hex(job.candidate.commit) && job.candidate.build >= 1 }

  // ---------- What a client can see ----------

  /** The build number a root's signed manifest carries; zero without one. */
  function BuildAt(t: Tools, p: Pair): nat {
    var m := ManifestOf(t, p);
    if m.Some? then m.value.build else 0
  }

  /** Each half is an old one or the new one; `found` is the APK in place when
      the replacement began, usually the old one. */
  ghost predicate Between(job: Job, initial: Pair, found: Option<Bytes>, p: Pair) {
    && (p.manifest == initial.manifest || p.manifest == Some(job.manifest))
    && (p.apk == initial.apk || p.apk == found || p.apk == Some(job.artifact))
  }

  lemma StartIsBetween(job: Job, initial: Pair, found: Option<Bytes>)
    ensures Between(job, initial, found, initial.(apk := found))
  {
  }

  /** Starting from a valid pair, whatever mixture is served is the old pair,
      the new pair, or fails the hash check. */
  lemma MixedPairsAreRejected(t: Tools, job: Job, initial: Pair, p: Pair)
    requires Bound(t, job) && Genuine(t, initial) && Between(job, initial, initial.apk, p)
    requires t.digest(initial.apk.value) == t.digest(job.artifact) ==> initial.apk.value == job.artifact
    ensures p == initial || p == NewPair(job) || !HashAccepts(t, p)
  {
  }

  /** The signed build number never goes below that of the start. */
  lemma BuildNeverBelow(t: Tools, job: Job, initial: Pair, found: Option<Bytes>, p: Pair)
    requires Bound(t, job) && Readable(t, initial) && Between(job, initial, found, p)
    requires PairDecision(ManifestOf(t, initial), ValidPair(t, initial).Some?, job.candidate).Ok?
    ensures BuildAt(t, p) >= BuildAt(t, initial)
  {
  }

  /** The decision is to replace exactly when the build number strictly rises
      or nothing is there. */
  lemma ReplacingRaisesBuild(t: Tools, job: Job, initial: Pair)
    requires Bound(t, job) && Readable(t, initial)
    ensures var d := PairDecision(ManifestOf(t, initial), ValidPair(t, initial).Some?, job.candidate);
            && (d.Ok? && d.value != Idempotent ==> BuildAt(t, initial) < job.candidate.build || initial.manifest.None?)
            && (d.Ok? && d.value == Idempotent ==> ValidPair(t, initial).Some? && BuildAt(t, initial) == job.candidate.build)
            && (d.Err? ==> BuildAt(t, initial) >= job.candidate.build)
  {
  }

  // ---------- Allowed replacements ----------

  /** What another root serves meanwhile. */
  datatype Served = Served(root: Root, pair: Pair)

  /** The candidate may replace this pair: its build number is higher. */
  ghost predicate Replaces(t: Tools, job: Job, initial: Pair) {
    var d := PairDecision(ManifestOf(t, initial), ValidPair(t, initial).Some?, job.candidate);
    Bound(t, job) && Identified(job) && Readable(t, initial) && d.Ok? && d.value != Idempotent
  }

  /** A replacement of a fixed file at `root` by a candidate that may: halves
      stay old or new, nothing else published changes, and the other root
      serves what it should. */
  ghost predicate MobileSwap(t: Tools, job: Job, root: Root, initial: Pair, found: Option<Bytes>, other: Served, s: Step) {
    && Replaces(t, job, initial)
    && Between(job, initial, found, PairAt(s.was, root)) && Between(job, initial, found, PairAt(s.now, root))
    && Keeps(s, {ApkFile(root), ManifestFile(root)})
    && (forall p | p in s.now && p !in s.was :: p in {ApkFile(root), ManifestFile(root)})
    && PairAt(s.was, other.root) == other.pair
  }

  /** The same among rivals: one of the wanted files is put in place, for a
      candidate that may replace the pair first read. */
  ghost predicate MobilePut(t: Tools, job: Job, root: Root, initial: Pair, s: Step) {
    && Replaces(t, job, initial)
    && Keeps(s, {ApkFile(root), ManifestFile(root)})
    && (forall p | p in s.now && p !in s.was :: p in {ApkFile(root), ManifestFile(root)})
    && (Leaves(s, ApkFile(root)) || Lookup(s.now, ApkFile(root)) in {Some(job.artifact), initial.apk})
    && (Leaves(s, ManifestFile(root)) || Lookup(s.now, ManifestFile(root)) in {Some(job.manifest), initial.manifest})
  }

  ghost predicate Allowed(t: Tools, job: Job, root: Root, initial: Pair, found: Option<Bytes>, other: Served, quiet: bool, s: Step) {
    if quiet then MobileSwap(t, job, root, initial, found, other, s) else MobilePut(t, job, root, initial, s)
  }

  ghost predicate MaySwap(sftp: Server, t: Tools, job: Job, root: Root, initial: Pair, found: Option<Bytes>, other: Served)
    reads sftp`swaps
  {
    forall s | Allowed(t, job, root, initial, found, other, sftp.Quiet(), s) :: sftp.swaps(s)
  }

  /** Without rivals: the halves served are old or new, and the other root is
      as it should be. */
  ghost predicate Serving(sftp: Server, job: Job, root: Root, initial: Pair, found: Option<Bytes>, other: Served)
    reads sftp`files
  {
    sftp.Quiet() ==> other.root != root && PairAt(sftp.files, other.root) == other.pair && Between(job, initial, found, PairAt(sftp.files, root))
  }

  lemma ReplacesDiffers(t: Tools, job: Job, initial: Pair)
    requires Replaces(t, job, initial)
    ensures initial.manifest != Some(job.manifest)
  {
    ReplacingRaisesBuild(t, job, initial);
    hide ValidPair, PairDecision;
  }

  /** The new manifest is put where another one was. */
  predicate NewManifest(s: Step, job: Job, root: Root) {
    s.own && !Leaves(s, ManifestFile(root)) && Lookup(s.now, ManifestFile(root)) == Some(job.manifest)
  }

  /** The new manifest is put in place at that request only, over exactly what
      rivals left of `value` in the three requests up to it. */
  ghost predicate PutOver(sftp: Server, from: nat, job: Job, root: Root, start: nat, value: Option<Bytes>)
    reads sftp`log
  {
    forall i | from <= i < |sftp.log| && NewManifest(sftp.log[i], job, root) ::
      sftp.log[i].at == start + 2 && Lookup(sftp.log[i].was, ManifestFile(root)) == After(sftp.rivals, start, 3, ManifestFile(root), value)
  }

  /** Both halves are in place, but for what rivals wrote since. */
  ghost predicate PairSettled(sftp: Server, from: nat, root: Root, p: Pair)
    reads sftp`log, sftp`files
  {
    Settled(sftp, from, ApkFile(root), p.apk) && Settled(sftp, from, ManifestFile(root), p.manifest)
  }

  lemma PairSettledEarlier(sftp: Server, from: nat, later: nat, root: Root, p: Pair)
    requires from <= later && PairSettled(sftp, later, root, p)
    ensures PairSettled(sftp, from, root, p)
  {
    SettledEarlier(sftp, from, later, ApkFile(root), p.apk);
    SettledEarlier(sftp, from, later, ManifestFile(root), p.manifest);
  }

  /** A replacement lowers the served build number exactly when it puts the old
      manifest back after the new one. */
  lemma FallsOnRollback(t: Tools, job: Job, root: Root, initial: Pair, found: Option<Bytes>, other: Served, s: Step)
    requires MobileSwap(t, job, root, initial, found, other, s)
    ensures BuildAt(t, PairAt(s.now, root)) < BuildAt(t, PairAt(s.was, root)) <==>
              PairAt(s.was, root).manifest == Some(job.manifest) && PairAt(s.now, root).manifest == initial.manifest
  {
    ReplacingRaisesBuild(t, job, initial);
    hide Keeps, ValidPair, PairDecision;
  }

  // ---------- One root ----------

  function Stage(root: Root, job: Job): (p: Place)
    ensures p.Staging? && p.root == root
  {
    Staging(root, MobileStage(job.candidate.commit, job.candidate.build, job.attempt))
  }

  function StagedApk(root: Root, job: Job): Path { Path(Stage(root, job), MobileApk) }

  function StagedManifest(root: Root, job: Job): Path { Path(Stage(root, job), VersionJson) }

  function HistoryApk(place: Place, m: Manifest): Path { Path(place, MobileApkOf(m.commit, m.build)) }

  function HistoryManifest(place: Place, m: Manifest): Path { Path(place, MobileManifestOf(m.commit, m.build)) }

  ghost predicate OnlyStaged(sftp: Server, stage: Place, left: set<Path>)
    reads sftp
  {
    stage in sftp.stages && forall p: Path | p.place == stage && p !in left :: Lookup(sftp.files, p) == None
  }

  /** The two copies that will be served. */
  ghost predicate Staged(sftp: Server, root: Root, job: Job)
    reads sftp
  {
    && Lookup(sftp.files, StagedApk(root, job)) == Some(job.artifact)
    && Lookup(sftp.files, StagedManifest(root, job)) == Some(job.manifest)
  }

  /** The four staged files. */
  ghost predicate AllStaged(sftp: Server, root: Root, job: Job)
    reads sftp
  {
    && Staged(sftp, root, job)
    && Lookup(sftp.files, HistoryApk(Stage(root, job), job.candidate)) == Some(job.artifact)
    && Lookup(sftp.files, HistoryManifest(Stage(root, job), job.candidate)) == Some(job.manifest)
    && OnlyStaged(sftp, Stage(root, job), {StagedApk(root, job), StagedManifest(root, job),
                  HistoryApk(Stage(root, job), job.candidate), HistoryManifest(Stage(root, job), job.candidate)})
  }

  twostate predicate OtherStages(sftp: Server, stage: Place)
    reads sftp`stages
  {
    forall s | s != stage :: s in sftp.stages <==> s in old(sftp.stages)
  }

  /** Nothing outside `root` differs. */
  twostate predicate OnlyAt(sftp: Server, root: Root)
    reads sftp`files
  {
    forall p: Path | p.place.root != root && (sftp.Quiet() || !FixedPath(p)) :: Lookup(sftp.files, p) == Lookup(old(sftp.files), p)
  }

  ghost predicate HistoryPlaceable(files: Files, root: Root, m: Manifest, manifest: Bytes, apk: Bytes) {
    && Placeable(files, HistoryApk(Published(root), m), apk) && Placeable(files, HistoryManifest(Published(root), m), manifest)
  }

  /** Neither the staging directory nor the history is in the way. */
  ghost predicate RoomFor(t: Tools, files: Files, stages: set<Place>, root: Root, job: Job, initial: Pair) {
    && Stage(root, job) !in stages && HistoryPlaceable(files, root, job.candidate, job.manifest, job.artifact)
    && (Genuine(t, initial) ==>
          var m := t.verify(initial.manifest.value).value;
          && HistoryPlaceable(files, root, m, initial.manifest.value, initial.apk.value)
          && (m.commit == job.candidate.commit && m.build == job.candidate.build ==> initial == NewPair(job)))
  }

  /** The decision on a root, once the candidate is identified: an idempotent
      run must find the very bytes it would publish. */
  function Decided(t: Tools, job: Job, initial: Pair): (r: Result<Decision, Error>)
    ensures r.Ok? ==> PairDecision(ManifestOf(t, initial), ValidPair(t, initial).Some?, job.candidate) == r
    ensures r.Ok? && r.value != Idempotent && Bound(t, job) && Readable(t, initial) ==> Replaces(t, job, initial)
    ensures r.Ok? && r.value == Idempotent ==> initial == NewPair(job) && Genuine(t, initial)
  {
    if !Identified(job) then Err(Refused)
    else
      var d := PairDecision(ManifestOf(t, initial), ValidPair(t, initial).Some?, job.candidate);
      if d.Ok? && d.value == Idempotent && initial != NewPair(job) then Err(Refused) else d
  }

  /** The release a manifest names. */
  ghost predicate SameRelease(e: Manifest, c: Manifest) {
    e.commit == c.commit && e.build == c.build && e.digest == c.digest && e.url == c.url && e.fallbackUrl == c.fallbackUrl
  }

  /** The preflight lets this pair be published over: no APK without a
      manifest, which verifies, and is of a lower build unless the pair is a
      genuine one of the candidate's release. */
  ghost predicate Admitted(t: Tools, job: Job, p: Pair) {
    && (p.manifest.None? ==> p.apk.None?)
    && (p.manifest.Some? ==>
          && t.verify(p.manifest.value).Some?
          && var e := t.verify(p.manifest.value).value;
          if SameRelease(e, job.candidate) then Genuine(t, p) else e.build < job.candidate.build)
  }

  /** So does the publication of the root, if the candidate has a full
      lower-case commit and a build from one up and the pair is not another
      pair of its release. */
  ghost predicate Acceptable(t: Tools, job: Job, p: Pair) {
    && Admitted(t, job, p) && job.candidate.build >= 1 && |job.candidate.commit| == 40
    && (forall i | 0 <= i < 40 :: '0' <= job.candidate.commit[i] <= '9' || 'a' <= job.candidate.commit[i] <= 'f')
    && (p.manifest.Some? && SameRelease(t.verify(p.manifest.value).value, job.candidate) ==> p == NewPair(job))
  }

  lemma AdmittedIs(t: Tools, job: Job, p: Pair)
    ensures Admitted(t, job, p) <==> Readable(t, p) && PairDecision(ManifestOf(t, p), ValidPair(t, p).Some?, job.candidate).Ok?
  {
    hide ValidPair, Genuine;
    assert ValidPair(t, p).Some? <==> Genuine(t, p);
  }

  /** Of a readable pair, the decision is accepted exactly where it should be. */
  lemma AcceptableIs(t: Tools, job: Job, p: Pair)
    ensures Acceptable(t, job, p) <==> Readable(t, p) && Decided(t, job, p).Ok?
  {
    TargetVersion.HexIs(job.candidate.commit);
    hide ValidPair, Genuine, TargetVersion.Hex;
    assert ValidPair(t, p).Some? <==> Genuine(t, p);
    AdmittedIs(t, job, p);
  }

  /** What a caller can check before publishing a root. */
  ghost predicate Publishable(t: Tools, files: Files, stages: set<Place>, root: Root, job: Job) {
    Acceptable(t, job, PairAt(files, root)) && RoomFor(t, files, stages, root, job, PairAt(files, root))
  }

  method PutServed(sftp: Server, root: Root, job: Job) returns (r: Result<(), Error>)
    requires sftp.Valid()
    modifies sftp`clock, sftp`files, sftp`log, sftp`stages
    ensures sftp.Valid() && old(sftp.log) <= sftp.log && sftp.NoSwap()
    ensures forall p: Path | p.place != Stage(root, job) && (sftp.Quiet() || !FixedPath(p)) :: Lookup(sftp.files, p) == Lookup(old(sftp.files), p)
    ensures r.Ok? ==> Staged(sftp, root, job) && Stage(root, job) !in old(sftp.stages)
                      && OnlyStaged(sftp, Stage(root, job), {StagedApk(root, job), StagedManifest(root, job)})
    ensures OtherStages(sftp, Stage(root, job))
    ensures r.Err? ==> r.error == Io && (sftp.Reliable() ==> Stage(root, job) in old(sftp.stages))
    ensures r.Ok? ==> sftp.clock == old(sftp.clock) + 3
    ensures Stage(root, job) !in old(sftp.stages) && sftp.Unfailing(old(sftp.clock), old(sftp.clock) + 3) ==> r.Ok?
  {
    hide Server.Valid, Server.Quiet, Server.Reliable, Stage, Adds;
    var made :- sftp.MakeDirectory(Stage(root, job));
    var put1 :- sftp.Write(StagedApk(root, job), job.artifact);
    var put2 :- sftp.Write(StagedManifest(root, job), job.manifest);
    r := Ok(());
  }

  method PutAll(sftp: Server, root: Root, job: Job) returns (r: Result<(), Error>)
    requires sftp.Valid()
    modifies sftp`clock, sftp`files, sftp`log, sftp`stages
    ensures sftp.Valid() && old(sftp.log) <= sftp.log && sftp.NoSwap()
    ensures forall p: Path | p.place != Stage(root, job) && (sftp.Quiet() || !FixedPath(p)) :: Lookup(sftp.files, p) == Lookup(old(sftp.files), p)
    ensures r.Ok? ==> AllStaged(sftp, root, job) && Stage(root, job) !in old(sftp.stages)
    ensures OtherStages(sftp, Stage(root, job))
    ensures r.Err? ==> r.error == Io && (sftp.Reliable() ==> Stage(root, job) in old(sftp.stages))
  {
    hide Server.Valid, Server.Quiet, Server.Reliable, Stage, Adds;
    var put :- PutServed(sftp, root, job);
    var put3 :- sftp.Write(HistoryApk(Stage(root, job), job.candidate), job.artifact);
    var put4 :- sftp.Write(HistoryManifest(Stage(root, job), job.candidate), job.manifest);
    r := Ok(());
  }

  method StageAll(sftp: Server, root: Root, job: Job) returns (r: Result<(), Error>)
    requires sftp.Valid()
    modifies sftp`clock, sftp`files, sftp`log, sftp`stages
    ensures sftp.Valid() && old(sftp.log) <= sftp.log && sftp.NoSwap()
    ensures forall p: Path | p.place != Stage(root, job) && (sftp.Quiet() || !FixedPath(p)) :: Lookup(sftp.files, p) == Lookup(old(sftp.files), p)
    ensures r.Ok? ==> AllStaged(sftp, root, job) && Stage(root, job) !in old(sftp.stages)
    ensures OtherStages(sftp, Stage(root, job))
    ensures r.Err? && sftp.Reliable() ==> Stage(root, job) in old(sftp.stages)
    ensures r.Err? ==> r.error == Io || r.error == Refused
  {
    hide Server.Valid, Server.Still, Server.Quiet, Server.Reliable, Stage, Adds;
    var put :- PutAll(sftp, root, job);
    var same1 :- ReadBack(sftp, StagedApk(root, job), job.artifact);
    var same2 :- ReadBack(sftp, HistoryApk(Stage(root, job), job.candidate), job.artifact);
    var same3 :- ReadBack(sftp, StagedManifest(root, job), job.manifest);
    var same4 :- ReadBack(sftp, HistoryManifest(Stage(root, job), job.candidate), job.manifest);
    r := Ok(());
  }

  method PlaceHistory(sftp: Server, root: Root, job: Job) returns (r: Result<(), Error>)
    requires sftp.Valid() && AllStaged(sftp, root, job)
    modifies sftp`clock, sftp`files, sftp`log
    ensures sftp.Beside({HistoryApk(Stage(root, job), job.candidate), HistoryManifest(Stage(root, job), job.candidate),
                         HistoryApk(Published(root), job.candidate), HistoryManifest(Published(root), job.candidate)})
    ensures sftp.NoSwap()
    ensures r.Ok? ==>
              && Staged(sftp, root, job) && OnlyStaged(sftp, Stage(root, job), {StagedApk(root, job), StagedManifest(root, job)})
              && Lookup(sftp.files, HistoryApk(Published(root), job.candidate)) == Some(job.artifact)
              && Lookup(sftp.files, HistoryManifest(Published(root), job.candidate)) == Some(job.manifest)
              && HistoryPlaceable(old(sftp.files), root, job.candidate, job.manifest, job.artifact)
    ensures r.Err? && sftp.Reliable() ==> !HistoryPlaceable(old(sftp.files), root, job.candidate, job.manifest, job.artifact)
    ensures r.Err? ==> r.error == Io || r.error == Refused
  {
    hide Server.Valid, Server.Quiet, Server.Reliable, Stage;
    var apk :- PlaceImmutable(sftp, HistoryApk(Stage(root, job), job.candidate), HistoryApk(Published(root), job.candidate), job.artifact);
    var manifest :- PlaceImmutable(sftp, HistoryManifest(Stage(root, job), job.candidate),
                                   HistoryManifest(Published(root), job.candidate), job.manifest);
    r := Ok(());
  }

  method PreservePrevious(sftp: Server, root: Root, job: Job, previous: Manifest, apk: Bytes, manifest: Bytes) returns (r: Result<(), Error>)
    requires sftp.Valid() && Staged(sftp, root, job)
    requires OnlyStaged(sftp, Stage(root, job), {StagedApk(root, job), StagedManifest(root, job)})
    modifies sftp`clock, sftp`files, sftp`log
    ensures sftp.Valid() && sftp.stages == old(sftp.stages) && old(sftp.log) <= sftp.log && sftp.NoSwap()
    ensures forall p | FixedPath(p) && sftp.Quiet() :: Lookup(sftp.files, p) == Lookup(old(sftp.files), p)
    ensures r.Ok? ==>
              && Staged(sftp, root, job) && OnlyStaged(sftp, Stage(root, job), {StagedApk(root, job), StagedManifest(root, job)})
              && Lookup(sftp.files, HistoryApk(Published(root), previous)) == Some(apk)
              && Lookup(sftp.files, HistoryManifest(Published(root), previous)) == Some(manifest)
              && HistoryPlaceable(old(sftp.files), root, previous, manifest, apk)
    ensures r.Err? && sftp.Reliable() ==> !HistoryPlaceable(old(sftp.files), root, previous, manifest, apk)
    ensures OnlyAt(sftp, root)
    ensures r.Err? ==> r.error == Io || r.error == Refused
    ensures forall p: Path | p in old(sftp.files) && p.place.Published? && !FixedPath(p) :: Lookup(sftp.files, p) == Lookup(old(sftp.files), p)
    ensures forall p: Path | p.place.Published? && !FixedPath(p) && p !in HistoryOf(root, previous) ::
              Lookup(sftp.files, p) == Lookup(old(sftp.files), p)
  {
    hide Server.Valid, Server.Quiet, Server.Reliable, Stage;
    var keptApk :- PreserveImmutable(sftp, Path(Stage(root, job), PreviousApk(previous.commit, previous.build)),
                                     HistoryApk(Published(root), previous), apk);
    var keptManifest :- PreserveImmutable(sftp, Path(Stage(root, job), PreviousManifest(previous.commit, previous.build)),
                                          HistoryManifest(Published(root), previous), manifest);
    r := Ok(());
  }

  // ---------- Promotion and rollback ----------

  lemma SwapAllowed(sftp: Server, t: Tools, job: Job, root: Root, initial: Pair, found: Option<Bytes>, other: Served, from: Path, to: Path)
    requires Replaces(t, job, initial) && sftp.Valid() && from in sftp.files && from.place.Staging?
    requires Serving(sftp, job, root, initial, found, other)
    requires to == ApkFile(root) || to == ManifestFile(root)
    requires to == ApkFile(root) ==> sftp.files[from] == job.artifact || Some(sftp.files[from]) == initial.apk
    requires to == ManifestFile(root) ==> sftp.files[from] == job.manifest || Some(sftp.files[from]) == initial.manifest
    requires MaySwap(sftp, t, job, root, initial, found, other)
    ensures from in sftp.Upcoming()
    ensures sftp.swaps(Step(sftp.clock, true, sftp.Upcoming(), Moved(sftp.Upcoming(), from, to)))
  {
    UpcomingFiles(sftp);
    QuietRequest(sftp);
    assert Lookup(sftp.Upcoming(), from) == Lookup(sftp.files, from);
    var s := Step(sftp.clock, true, sftp.Upcoming(), Moved(sftp.Upcoming(), from, to));
    MovedFiles(sftp.clock, true, sftp.Upcoming(), from, to);
    hide Server.Valid, Server.Quiet, Server.Upcoming, Moved, Keeps, Replaces;
    assert Allowed(t, job, root, initial, found, other, sftp.Quiet(), s);
  }

  lemma QuietRequest(sftp: Server)
    ensures sftp.Quiet() ==> sftp.rivals(sftp.clock).None? && sftp.Upcoming() == sftp.files
  {
  }

  /** One atomic replacement of a fixed file by a staged copy. */
  method Promote(sftp: Server, ghost t: Tools, job: Job, root: Root, ghost initial: Pair, ghost found: Option<Bytes>, ghost other: Served,
                 from: Path, to: Path)
    returns (r: Result<(), Error>)
    requires Replaces(t, job, initial) && sftp.Valid() && from in sftp.files && from.place.Staging?
    requires Serving(sftp, job, root, initial, found, other)
    requires to == ApkFile(root) || to == ManifestFile(root)
    requires to == ApkFile(root) ==> sftp.files[from] == job.artifact || Some(sftp.files[from]) == initial.apk
    requires to == ManifestFile(root) ==> sftp.files[from] == job.manifest || Some(sftp.files[from]) == initial.manifest
    requires MaySwap(sftp, t, job, root, initial, found, other)
    modifies sftp`clock, sftp`files, sftp`log
    ensures sftp.Beside({from, to}) && Serving(sftp, job, root, initial, found, other)
    ensures sftp.clock == old(sftp.clock) + 1 && forall p | p !in {from, to} :: Lookup(sftp.files, p) == Lookup(old(sftp.Upcoming()), p)
    ensures forall i | |old(sftp.log)| <= i < |sftp.log| && sftp.log[i].own ::
              PutStep(sftp.log[i], old(sftp.clock), old(sftp.Upcoming()), to, Lookup(old(sftp.files), from))
    ensures r.Ok? ==> from !in sftp.files && Lookup(sftp.files, to) == Lookup(old(sftp.files), from)
    ensures r.Err? ==> r.error == Io && !sftp.Reliable() && !sftp.faults(old(sftp.clock)).Works?
  {
    SwapAllowed(sftp, t, job, root, initial, found, other, from, to);
    UpcomingFiles(sftp);
    assert Lookup(sftp.Upcoming(), from) == Lookup(sftp.files, from);
    MovedFiles(sftp.clock, true, sftp.Upcoming(), from, to);
    hide Server.Valid, Server.Quiet, Server.Reliable, Server.Upcoming, MaySwap, Moved, Replaces;
    r := sftp.Replace(from, to);
  }

  /** The connection put `value` under `to` at that request and on those files,
      and no other fixed file changed. */
  ghost predicate PutStep(s: Step, at: nat, was: Files, to: Path, value: Option<Bytes>) {
    s.at == at && s.was == was && Lookup(s.now, to) == value && forall p | FixedPath(p) && p != to :: Leaves(s, p)
  }

  /** What the connection did since: additions, and that one replacement. */
  ghost predicate OnlyPut(sftp: Server, from: nat, at: nat, was: Files, to: Path, value: Option<Bytes>)
    reads sftp`log
  {
    forall i | from <= i < |sftp.log| && sftp.log[i].own :: Adds(sftp.log[i]) || PutStep(sftp.log[i], at, was, to, value)
  }

  /** A replacement and its readback. */
  method PromoteChecked(sftp: Server, ghost t: Tools, job: Job, root: Root, ghost initial: Pair, ghost found: Option<Bytes>, ghost other: Served,
                        from: Path, to: Path, value: Bytes)
    returns (r: Result<(), Error>)
    requires Replaces(t, job, initial) && sftp.Valid() && from.place.Staging? && Lookup(sftp.files, from) == Some(value)
    requires Serving(sftp, job, root, initial, found, other)
    requires to == ApkFile(root) || to == ManifestFile(root)
    requires to == ApkFile(root) ==> value == job.artifact || Some(value) == initial.apk
    requires to == ManifestFile(root) ==> value == job.manifest || Some(value) == initial.manifest
    requires MaySwap(sftp, t, job, root, initial, found, other)
    modifies sftp`clock, sftp`files, sftp`log
    ensures sftp.Beside({from, to}) && Serving(sftp, job, root, initial, found, other)
    ensures OnlyPut(sftp, |old(sftp.log)|, old(sftp.clock), old(sftp.Upcoming()), to, Some(value))
    ensures r.Ok? ==>
              && sftp.clock == old(sftp.clock) + 2 && from !in sftp.files && Lookup(sftp.files, to) == Some(value)
              && forall p | p !in {from, to} :: Lookup(sftp.files, p) == After(sftp.rivals, old(sftp.clock), 2, p, Lookup(old(sftp.files), p))
    ensures sftp.Reliable() && sftp.Quiet() ==> r.Ok?
    ensures sftp.Quiet() && sftp.faults(old(sftp.clock)).Works? ==>
              && sftp.clock == old(sftp.clock) + 2 && Lookup(sftp.files, to) == Some(value)
              && (r.Ok? <==> sftp.faults(old(sftp.clock) + 1).Works?)
    ensures sftp.Quiet() && r.Err? ==> !sftp.Unfailing(old(sftp.clock), sftp.clock)
  {
    hide Server.Valid, Server.Quiet, Server.Reliable, MaySwap, Between, Replaces, Adds, PutStep;
    var promoted :- Promote(sftp, t, job, root, initial, found, other, from, to);
    ghost var middle := sftp.files;
    assert Lookup(middle, from) == None;
    r := ReadBack(sftp, to, value);
    TwoRequests(sftp.rivals, old(sftp.clock), old(sftp.files), middle, sftp.files, {from, to});
  }

  lemma TwoRequests(rivals: nat -> Option<Rival>, at: nat, files: Files, middle: Files, later: Files, changed: set<Path>)
    requires forall p | p !in changed :: Lookup(middle, p) == Lookup(Rivaled(files, rivals(at)), p)
    requires later == Rivaled(middle, rivals(at + 1))
    ensures forall p | p !in changed :: Lookup(later, p) == After(rivals, at, 2, p, Lookup(files, p))
  {
    forall p | p !in changed ensures Lookup(later, p) == After(rivals, at, 2, p, Lookup(files, p)) {
      RivaledLookup(files, rivals(at), p);
      RivaledLookup(middle, rivals(at + 1), p);
      assert After(rivals, at, 1, p, Lookup(files, p)) == FoundWith(rivals(at), p, After(rivals, at, 0, p, Lookup(files, p)));
      assert After(rivals, at, 2, p, Lookup(files, p)) == FoundWith(rivals(at + 1), p, After(rivals, at, 1, p, Lookup(files, p)));
    }
  }

  /** The replacement of another file leaves this one, and its own puts the value there. */
  lemma PutLeaves(sftp: Server, from: nat, at: nat, was: Files, to: Path, value: Option<Bytes>, p: Path)
    requires OnlyPut(sftp, from, at, was, to, value) && FixedPath(p)
    ensures p != to ==> forall i | from <= i < |sftp.log| && sftp.log[i].own :: Leaves(sftp.log[i], p)
    ensures p == to ==> forall i | from <= i < |sftp.log| && sftp.log[i].own ::
                          Leaves(sftp.log[i], p) || (sftp.log[i].at == at && sftp.log[i].was == was && Lookup(sftp.log[i].now, p) == value)
  {
    forall i | from <= i < |sftp.log| && sftp.log[i].own
      ensures Leaves(sftp.log[i], p)
              || (p == to && sftp.log[i].at == at && sftp.log[i].was == was && Lookup(sftp.log[i].now, p) == value)
    {
      if Adds(sftp.log[i]) {
        AddsLeaves(sftp.log[i], p);
      }
    }
  }

  /** The manifest, with the new APK in place; it is put over what rivals leave
      there by this request. */
  method PromoteManifest(sftp: Server, ghost t: Tools, job: Job, root: Root, ghost initial: Pair, ghost found: Option<Bytes>, ghost other: Served)
    returns (r: Result<(), Error>)
    requires Replaces(t, job, initial) && sftp.Valid() && Lookup(sftp.files, StagedManifest(root, job)) == Some(job.manifest)
    requires Serving(sftp, job, root, initial, found, other) && Lookup(sftp.files, ApkFile(root)) == Some(job.artifact)
    requires MaySwap(sftp, t, job, root, initial, found, other)
    modifies sftp`clock, sftp`files, sftp`log
    ensures sftp.Beside({StagedManifest(root, job), ManifestFile(root)}) && Serving(sftp, job, root, initial, found, other)
    ensures r.Ok? ==> Lookup(sftp.files, ManifestFile(root)) == Some(job.manifest) && StagedManifest(root, job) !in sftp.files
    ensures r.Ok? ==> PairSettled(sftp, |old(sftp.log)|, root, NewPair(job))
    ensures forall i | |old(sftp.log)| <= i < |sftp.log| && NewManifest(sftp.log[i], job, root) ::
              && sftp.log[i].at == old(sftp.clock)
              && Lookup(sftp.log[i].was, ManifestFile(root))
                 == FoundWith(sftp.rivals(old(sftp.clock)), ManifestFile(root), Lookup(old(sftp.files), ManifestFile(root)))
    ensures old(sftp.clock) <= sftp.clock
    ensures sftp.Reliable() && sftp.Quiet() ==> r.Ok?
    ensures sftp.Quiet() && sftp.faults(old(sftp.clock)).Works? ==>
              && sftp.clock == old(sftp.clock) + 2 && PairAt(sftp.files, root) == NewPair(job)
              && (r.Ok? <==> sftp.faults(old(sftp.clock) + 1).Works?)
    ensures sftp.Quiet() && r.Err? ==> !sftp.Unfailing(old(sftp.clock), sftp.clock)
  {
    hide Server.Valid, Server.Unfailing, PutStep, Rivaled, Server.Quiet, Server.Reliable, Server.Upcoming, Stage, MaySwap, Between, Replaces,
         Adds, Settled, OnlyPut, RivalWrote, Serving, FoundWith;
    Whence(sftp);
    ghost var middle, before, upcoming, at := sftp.files, sftp.log, sftp.Upcoming(), sftp.clock;
    UpcomingIs(sftp);
    RivaledLookup(middle, sftp.rivals(at), ManifestFile(root));
    r := PromoteChecked(sftp, t, job, root, initial, found, other, StagedManifest(root, job), ManifestFile(root), job.manifest);
    PutLeaves(sftp, |before|, at, upcoming, ManifestFile(root), Some(job.manifest), ApkFile(root));
    PutLeaves(sftp, |before|, at, upcoming, ManifestFile(root), Some(job.manifest), ManifestFile(root));
    SettledAfter(sftp, before, middle, ApkFile(root), Some(job.artifact));
    SettledNow(sftp, |before|, ManifestFile(root));
  }

  /** The fixed APK first, then the manifest, each read back. */
  method PromotePair(sftp: Server, ghost t: Tools, job: Job, root: Root, ghost initial: Pair, ghost found: Option<Bytes>, ghost other: Served)
    returns (r: Result<(), Error>)
    requires Replaces(t, job, initial) && sftp.Valid() && Staged(sftp, root, job)
    requires OnlyStaged(sftp, Stage(root, job), {StagedApk(root, job), StagedManifest(root, job)})
    requires Serving(sftp, job, root, initial, found, other)
    requires MaySwap(sftp, t, job, root, initial, found, other)
    modifies sftp`clock, sftp`files, sftp`log
    ensures sftp.Valid() && sftp.stages == old(sftp.stages) && old(sftp.log) <= sftp.log && OnlyAt(sftp, root)
    ensures forall p: Path | p.place.Published? && !FixedPath(p) :: Lookup(sftp.files, p) == Lookup(old(sftp.files), p)
    ensures Serving(sftp, job, root, initial, found, other)
    ensures r.Ok? ==> PairSettled(sftp, |old(sftp.log)|, root, NewPair(job)) && sftp.Empty(Stage(root, job))
    ensures r.Ok? ==> Lookup(sftp.files, ManifestFile(root)) == Some(job.manifest)
    ensures r.Ok? && sftp.Quiet() ==> PairAt(sftp.files, root) == NewPair(job)
    ensures PutOver(sftp, |old(sftp.log)|, job, root, old(sftp.clock), Lookup(old(sftp.files), ManifestFile(root)))
    ensures sftp.Reliable() && sftp.Quiet() ==> r.Ok?
    ensures sftp.Quiet() && sftp.Unfailing(old(sftp.clock), old(sftp.clock) + 3) ==>
              && sftp.clock == old(sftp.clock) + 4 && PairAt(sftp.files, root) == NewPair(job)
              && (r.Ok? <==> sftp.faults(old(sftp.clock) + 3).Works?)
    ensures sftp.Quiet() && r.Err? ==> !sftp.Unfailing(old(sftp.clock), sftp.clock)
  {
    hide Server.Valid, Server.Still, Server.Unfailing, PutStep, Rivaled, Server.Quiet, Server.Reliable, Server.Upcoming, Stage, MaySwap, Between, Replaces,
         Adds, Settled, OnlyPut, RivalWrote, FoundWith, Serving, PairSettled, PutOver, NewManifest, After, NoNewManifest;
    UnfailingParts(sftp, old(sftp.clock), old(sftp.clock), old(sftp.clock));
    var apk := PromoteChecked(sftp, t, job, root, initial, found, other, StagedApk(root, job), ApkFile(root), job.artifact);
    PutsNothingNew(sftp, |old(sftp.log)|, old(sftp.clock), old(sftp.Upcoming()), ApkFile(root), Some(job.artifact), job, root);
    NothingPut(sftp, |old(sftp.log)|, job, root, old(sftp.clock), Lookup(old(sftp.files), ManifestFile(root)));
    if apk.Err? {
      return apk;
    }
    ghost var before := sftp.log;
    NextAfter(sftp.rivals, old(sftp.clock), ManifestFile(root), Lookup(old(sftp.files), ManifestFile(root)));
    r := PromoteManifest(sftp, t, job, root, initial, found, other);
    PutOverOn(sftp, |old(sftp.log)|, before, job, root, old(sftp.clock), Lookup(old(sftp.files), ManifestFile(root)));
    if r.Ok? {
      PairSettledEarlier(sftp, |old(sftp.log)|, |before|, root, NewPair(job));
    }
    UnfailingParts(sftp, old(sftp.clock), old(sftp.clock) + 2, sftp.clock);
  }

  lemma NothingPut(sftp: Server, from: nat, job: Job, root: Root, start: nat, value: Option<Bytes>)
    requires NoNewManifest(sftp, from, job, root)
    ensures PutOver(sftp, from, job, root, start, value)
    ensures forall i | from <= i < |sftp.log| :: !NewManifest(sftp.log[i], job, root)
  {
  }

  /** The log goes on after `before`, in which the new manifest was not put. */
  lemma PutOverOn(sftp: Server, from: nat, before: seq<Step>, job: Job, root: Root, start: nat, value: Option<Bytes>)
    requires before <= sftp.log && forall i | from <= i < |before| :: !NewManifest(before[i], job, root)
    requires forall i | |before| <= i < |sftp.log| && NewManifest(sftp.log[i], job, root) ::
               sftp.log[i].at == start + 2 && Lookup(sftp.log[i].was, ManifestFile(root)) == After(sftp.rivals, start, 3, ManifestFile(root), value)
    ensures PutOver(sftp, from, job, root, start, value)
  {
    hide NewManifest, After;
  }

  lemma NextAfter(rivals: nat -> Option<Rival>, at: nat, p: Path, value: Option<Bytes>)
    ensures After(rivals, at, 3, p, value) == FoundWith(rivals(at + 2), p, After(rivals, at, 2, p, value))
  {
  }

  lemma UnfailingParts(sftp: Server, start: nat, middle: nat, end: nat)
    requires start <= middle <= end
    ensures sftp.Unfailing(start, end) ==> sftp.Unfailing(middle, end)
    ensures sftp.Unfailing(start, start + 3) ==> forall k | start <= k < start + 3 :: sftp.faults(k).Works?
  {
  }

  lemma UpcomingIs(sftp: Server)
    ensures sftp.Upcoming() == Rivaled(sftp.files, sftp.rivals(sftp.clock))
  {
  }

  lemma SettledNow(sftp: Server, from: nat, p: Path)
    requires from <= |sftp.log|
    ensures Settled(sftp, from, p, Lookup(sftp.files, p))
  {
  }

  function RollbackApkPath(root: Root, job: Job): Path { Path(Stage(root, job), RollbackApk) }

  function RollbackManifestPath(root: Root, job: Job): Path { Path(Stage(root, job), RollbackManifest) }

  ghost predicate RollbackStaged(sftp: Server, root: Root, job: Job, initial: Pair)
    reads sftp
  {
    && initial.manifest.Some? && initial.apk.Some?
    && Lookup(sftp.files, RollbackApkPath(root, job)) == initial.apk && Lookup(sftp.files, RollbackManifestPath(root, job)) == initial.manifest
  }

  method StageRollback(sftp: Server, job: Job, root: Root, initial: Pair) returns (r: Result<(), Error>)
    requires sftp.Valid() && Stage(root, job) in sftp.stages && initial.manifest.Some? && initial.apk.Some?
    modifies sftp`clock, sftp`files, sftp`log
    ensures sftp.Beside({RollbackApkPath(root, job), RollbackManifestPath(root, job)}) && sftp.NoSwap()
    ensures r.Ok? ==> RollbackStaged(sftp, root, job, initial) && sftp.clock == old(sftp.clock) + 4
    ensures sftp.Unfailing(old(sftp.clock), old(sftp.clock) + 4) ==> r.Ok?
  {
    hide Server.Valid, Server.Quiet, Server.Reliable, Stage;
    var put1 :- sftp.Write(RollbackApkPath(root, job), initial.apk.value);
    var put2 :- sftp.Write(RollbackManifestPath(root, job), initial.manifest.value);
    var same1 :- ReadBack(sftp, RollbackApkPath(root, job), initial.apk.value);
    var same2 :- ReadBack(sftp, RollbackManifestPath(root, job), initial.manifest.value);
    r := Ok(());
  }

  /** The new manifest was not put in place. */
  ghost predicate NoNewManifest(sftp: Server, from: nat, job: Job, root: Root)
    reads sftp`log
  {
    forall i | from <= i < |sftp.log| :: !NewManifest(sftp.log[i], job, root)
  }

  lemma NothingNew(sftp: Server, from: nat, job: Job, root: Root)
    requires forall i | from <= i < |sftp.log| && sftp.log[i].own :: Adds(sftp.log[i])
    ensures NoNewManifest(sftp, from, job, root)
  {
    NoSwapLeaves(sftp.log, from, ManifestFile(root));
  }

  /** Promotes the staged previous pair. */
  method PutBack(sftp: Server, ghost t: Tools, job: Job, root: Root, ghost initial: Pair, ghost found: Option<Bytes>, ghost other: Served)
    returns (r: Result<(), Error>)
    requires Replaces(t, job, initial) && sftp.Valid() && RollbackStaged(sftp, root, job, initial)
    requires Serving(sftp, job, root, initial, found, other)
    requires MaySwap(sftp, t, job, root, initial, found, other)
    modifies sftp`clock, sftp`files, sftp`log
    ensures sftp.Beside({RollbackApkPath(root, job), RollbackManifestPath(root, job), ApkFile(root), ManifestFile(root)})
    ensures Serving(sftp, job, root, initial, found, other) && NoNewManifest(sftp, |old(sftp.log)|, job, root)
    ensures r.Ok? ==> sftp.clock == old(sftp.clock) + 2 && (sftp.Quiet() ==> PairAt(sftp.files, root) == initial)
    ensures sftp.Unfailing(old(sftp.clock), old(sftp.clock) + 2) ==> r.Ok?
  {
    hide Server.Valid, Server.Quiet, Server.Reliable, Server.Upcoming, Stage, MaySwap, Between, Replaces, Adds, NewManifest, PutStep, Serving;
    ReplacesDiffers(t, job, initial);
    ghost var upcoming := sftp.Upcoming();
    r := Promote(sftp, t, job, root, initial, found, other, RollbackApkPath(root, job), ApkFile(root));
    PutsNothingNew(sftp, |old(sftp.log)|, old(sftp.clock), upcoming, ApkFile(root), initial.apk, job, root);
    if r.Err? {
      return;
    }
    ghost var before, later := sftp.log, sftp.Upcoming();
    assert Lookup(sftp.files, RollbackManifestPath(root, job)) == initial.manifest;
    r := Promote(sftp, t, job, root, initial, found, other, RollbackManifestPath(root, job), ManifestFile(root));
    PutsNothingNew(sftp, |before|, old(sftp.clock) + 1, later, ManifestFile(root), initial.manifest, job, root);
  }

  /** Promotes the staged previous pair and reads it back. */
  method PromoteBack(sftp: Server, ghost t: Tools, job: Job, root: Root, initial: Pair, ghost found: Option<Bytes>, ghost other: Served)
    returns (r: Result<(), Error>)
    requires Replaces(t, job, initial) && sftp.Valid() && RollbackStaged(sftp, root, job, initial)
    requires Serving(sftp, job, root, initial, found, other)
    requires MaySwap(sftp, t, job, root, initial, found, other)
    modifies sftp`clock, sftp`files, sftp`log
    ensures sftp.Valid() && sftp.stages == old(sftp.stages) && old(sftp.log) <= sftp.log && OnlyAt(sftp, root)
    ensures forall p: Path | p.place.Published? && !FixedPath(p) :: Lookup(sftp.files, p) == Lookup(old(sftp.files), p)
    ensures Serving(sftp, job, root, initial, found, other) && NoNewManifest(sftp, |old(sftp.log)|, job, root)
    ensures r.Ok? ==> PairSettled(sftp, |old(sftp.log)|, root, initial)
    ensures r.Ok? && sftp.Quiet() ==> PairAt(sftp.files, root) == initial
    ensures sftp.Quiet() && sftp.Unfailing(old(sftp.clock), old(sftp.clock) + 4) ==> r.Ok?
  {
    hide Server.Valid, Server.Quiet, Server.Reliable, Server.Upcoming, Stage, MaySwap, Between, Replaces, Adds, NewManifest, PairSettled;
    r := PutBack(sftp, t, job, root, initial, found, other);
    if r.Err? {
      return;
    }
    ghost var before := sftp.log;
    r := CheckBack(sftp, job, root, initial);
    if r.Ok? {
      PairSettledEarlier(sftp, |old(sftp.log)|, |before|, root, initial);
    }
  }

  /** Reads both halves back. */
  method CheckBack(sftp: Server, job: Job, root: Root, initial: Pair) returns (r: Result<(), Error>)
    requires sftp.Valid() && initial.manifest.Some? && initial.apk.Some?
    modifies sftp`clock, sftp`files, sftp`log
    ensures sftp.Beside({}) && NoNewManifest(sftp, |old(sftp.log)|, job, root)
    ensures r.Ok? ==> PairSettled(sftp, |old(sftp.log)|, root, initial)
    ensures r.Ok? && sftp.Quiet() ==> PairAt(sftp.files, root) == initial
    ensures sftp.Unfailing(old(sftp.clock), old(sftp.clock) + 2) && sftp.Quiet() && PairAt(old(sftp.files), root) == initial ==> r.Ok?
  {
    hide Server.Valid, Server.Quiet, Server.Reliable, Server.Upcoming, Adds, Settled, RivalWrote;
    var apk := ReadBack(sftp, ApkFile(root), initial.apk.value);
    NothingNew(sftp, |old(sftp.log)|, job, root);
    if apk.Err? {
      return apk;
    }
    Whence(sftp);
    ghost var middle, before := sftp.files, sftp.log;
    r := ReadBack(sftp, ManifestFile(root), initial.manifest.value);
    NothingNew(sftp, |old(sftp.log)|, job, root);
    NoSwapLeaves(sftp.log, |before|, ApkFile(root));
    SettledAfter(sftp, before, middle, ApkFile(root), initial.apk);
    SettledEarlier(sftp, |old(sftp.log)|, |before|, ApkFile(root), initial.apk);
    SettledNow(sftp, |old(sftp.log)|, ManifestFile(root));
  }

  lemma PutsNothingNew(sftp: Server, from: nat, at: nat, was: Files, to: Path, value: Option<Bytes>, job: Job, root: Root)
    requires OnlyPut(sftp, from, at, was, to, value)
    requires to != ManifestFile(root) || value != Some(job.manifest)
    ensures NoNewManifest(sftp, from, job, root)
  {
    forall i | from <= i < |sftp.log| ensures !NewManifest(sftp.log[i], job, root) {
      if sftp.log[i].own && Adds(sftp.log[i]) {
        AddsLeaves(sftp.log[i], ManifestFile(root));
      }
    }
  }

  /** Puts the previous valid pair back. */
  method Rollback(sftp: Server, ghost t: Tools, job: Job, root: Root, initial: Pair, ghost found: Option<Bytes>, ghost other: Served)
    returns (r: Result<(), Error>)
    requires Replaces(t, job, initial) && sftp.Valid() && Stage(root, job) in sftp.stages
    requires initial.manifest.Some? && initial.apk.Some?
    requires Serving(sftp, job, root, initial, found, other)
    requires MaySwap(sftp, t, job, root, initial, found, other)
    modifies sftp`clock, sftp`files, sftp`log
    ensures sftp.Valid() && sftp.stages == old(sftp.stages) && old(sftp.log) <= sftp.log && OnlyAt(sftp, root)
    ensures forall p: Path | p.place.Published? && !FixedPath(p) :: Lookup(sftp.files, p) == Lookup(old(sftp.files), p)
    ensures Serving(sftp, job, root, initial, found, other) && NoNewManifest(sftp, |old(sftp.log)|, job, root)
    ensures r.Ok? ==> PairSettled(sftp, |old(sftp.log)|, root, initial)
    ensures r.Ok? && sftp.Quiet() ==> PairAt(sftp.files, root) == initial
    ensures sftp.Quiet() && sftp.Unfailing(old(sftp.clock), old(sftp.clock) + 8) ==> r.Ok?
  {
    hide Server.Valid, Server.Quiet, Server.Reliable, Stage, MaySwap, Between, RollbackStaged, Replaces, Adds, PairSettled;
    var staged := StageRollback(sftp, job, root, initial);
    NothingNew(sftp, |old(sftp.log)|, job, root);
    if staged.Err? {
      return staged;
    }
    ghost var before := sftp.log;
    r := PromoteBack(sftp, t, job, root, initial, found, other);
    if r.Ok? {
      PairSettledEarlier(sftp, |old(sftp.log)|, |before|, root, initial);
    }
  }

  // ---------- Publishing one root, then both ----------

  datatype Outcome = Outcome(decision: Decision, previousValid: bool)

  /** The immutable copies of one pair. */
  ghost predicate InHistory(files: Files, root: Root, m: Manifest, manifest: Bytes, apk: Bytes) {
    Lookup(files, HistoryManifest(Published(root), m)) == Some(manifest) && Lookup(files, HistoryApk(Published(root), m)) == Some(apk)
  }

  /** History holds the candidate and, if it was valid, the previous pair. */
  ghost predicate HistoryKept(t: Tools, files: Files, root: Root, job: Job, initial: Pair) {
    && InHistory(files, root, job.candidate, job.manifest, job.artifact)
    && (Genuine(t, initial) ==>
          InHistory(files, root, t.verify(initial.manifest.value).value, initial.manifest.value, initial.apk.value))
  }

  lemma HistoryStays(t: Tools, files: Files, later: Files, root: Root, job: Job, initial: Pair)
    requires HistoryKept(t, files, root, job, initial)
    requires forall p: Path | p.place.Published? && !FixedPath(p) :: Lookup(later, p) == Lookup(files, p)
    ensures HistoryKept(t, later, root, job, initial)
  {
    hide ValidPair;
  }

  /** Stages everything and places the candidate's own history. */
  method PlaceCandidate(sftp: Server, root: Root, job: Job) returns (r: Result<(), Error>)
    requires sftp.Valid()
    modifies sftp`clock, sftp`files, sftp`log, sftp`stages
    ensures sftp.Valid() && old(sftp.log) <= sftp.log && sftp.NoSwap() && OtherStages(sftp, Stage(root, job))
    ensures forall p: Path | p.place != Stage(root, job) && (sftp.Quiet() || !FixedPath(p))
                             && p !in {HistoryApk(Published(root), job.candidate), HistoryManifest(Published(root), job.candidate)} ::
              Lookup(sftp.files, p) == Lookup(old(sftp.files), p)
    ensures r.Ok? ==>
              && Staged(sftp, root, job) && OnlyStaged(sftp, Stage(root, job), {StagedApk(root, job), StagedManifest(root, job)})
              && InHistory(sftp.files, root, job.candidate, job.manifest, job.artifact)
              && Stage(root, job) !in old(sftp.stages)
              && HistoryPlaceable(old(sftp.files), root, job.candidate, job.manifest, job.artifact)
    ensures r.Err? && sftp.Reliable() ==>
              Stage(root, job) in old(sftp.stages) || !HistoryPlaceable(old(sftp.files), root, job.candidate, job.manifest, job.artifact)
    ensures r.Err? ==> r.error == Io || r.error == Refused
  {
    hide Server.Valid, Server.Quiet, Server.Reliable, Stage, AllStaged, Adds;
    var staged :- StageAll(sftp, root, job);
    r := PlaceHistory(sftp, root, job);
  }

  /** Stages everything and completes the immutable history. */
  method Prepare(sftp: Server, t: Tools, root: Root, job: Job, initial: Pair) returns (r: Result<(), Error>)
    requires sftp.Valid()
    modifies sftp`clock, sftp`files, sftp`log, sftp`stages
    ensures sftp.Valid() && old(sftp.log) <= sftp.log && sftp.NoSwap()
    ensures sftp.Quiet() ==> forall p | FixedPath(p) :: Lookup(sftp.files, p) == Lookup(old(sftp.files), p)
    ensures OnlyAt(sftp, root) && OtherStages(sftp, Stage(root, job))
    ensures r.Ok? ==>
              && Staged(sftp, root, job) && OnlyStaged(sftp, Stage(root, job), {StagedApk(root, job), StagedManifest(root, job)})
              && HistoryKept(t, sftp.files, root, job, initial)
              && RoomFor(t, old(sftp.files), old(sftp.stages), root, job, initial)
    ensures r.Err? && sftp.Reliable() ==> !RoomFor(t, old(sftp.files), old(sftp.stages), root, job, initial)
    ensures r.Err? ==> r.error == Io || r.error == Refused
    ensures OnlyHistory(t, old(sftp.files), sftp.files, root, job, initial)
  {
    ValidPairIsPresent(t, initial);
    hide Server.Valid, Server.Quiet, Server.Reliable, Stage, Staged, OnlyStaged, ValidPair, Adds;
    var placed :- PlaceCandidate(sftp, root, job);
    var valid := ValidPair(t, initial);
    if valid.Some? && initial.apk.Some? && initial.manifest.Some? {
      r := PreservePrevious(sftp, root, job, valid.value, initial.apk.value, initial.manifest.value);
    } else {
      r := Ok(());
    }
  }

  lemma ValidPairIsPresent(t: Tools, p: Pair)
    ensures ValidPair(t, p).Some? ==> p.apk.Some? && p.manifest.Some?
  {
  }

  method Withdraw(sftp: Server, root: Root, job: Job) returns (r: Result<(), Error>)
    requires sftp.Valid() && OnlyStaged(sftp, Stage(root, job), {StagedApk(root, job), StagedManifest(root, job)})
    modifies sftp`clock, sftp`files, sftp`log, sftp`stages
    ensures sftp.Valid() && old(sftp.log) <= sftp.log && sftp.NoSwap() && OnlyAt(sftp, root)
    ensures forall p: Path | p.place.Published? && (sftp.Quiet() || !FixedPath(p)) :: Lookup(sftp.files, p) == Lookup(old(sftp.files), p)
    ensures sftp.Quiet() ==> forall x :: PairAt(sftp.files, x) == PairAt(old(sftp.files), x)
    ensures OtherStages(sftp, Stage(root, job))
    ensures r.Ok? ==> sftp.Empty(Stage(root, job))
    ensures r.Err? ==> r.error == Io && (sftp.Reliable() ==> !old(Staged(sftp, root, job)))
  {
    hide Server.Valid, Server.Quiet, Server.Reliable, Stage, Adds;
    var apk :- sftp.Remove(StagedApk(root, job));
    var manifest :- sftp.Remove(StagedManifest(root, job));
    var gone :- sftp.RemoveDirectory(Stage(root, job));
    r := Ok(());
  }

  /** Of the requests of a promotion its last readback fails, and then none of
      the rollback. */
  ghost predicate OnlyLastReadbackFails(sftp: Server, start: nat) {
    sftp.Unfailing(start, start + 3) && !sftp.faults(start + 3).Works? && sftp.Unfailing(start + 4, start + 12)
  }

  /** Without rivals one failing request at most leaves a whole pair behind: the
      valid one it began with, or the new one. */
  ghost predicate WholeUnderOneFault(sftp: Server, t: Tools, root: Root, job: Job, initial: Pair)
    reads sftp`files
  {
    sftp.Quiet() && sftp.AtMostOneFault() && Genuine(t, initial) ==> PairAt(sftp.files, root) in {initial, NewPair(job)}
  }

  /** After a failing request no other fails. */
  lemma OneFault(sftp: Server, from: nat, middle: nat, to: nat)
    ensures sftp.AtMostOneFault() && !sftp.Unfailing(from, middle) ==> sftp.Unfailing(middle, to)
  {
  }

  /** Some change of the log lowers the build number served. */
  ghost predicate BuildFalls(t: Tools, log: seq<Step>, from: nat, root: Root) {
    exists i | from <= i < |log| :: BuildAt(t, PairAt(log[i].now, root)) < BuildAt(t, PairAt(log[i].was, root))
  }

  lemma BuildFallsEarlier(t: Tools, log: seq<Step>, from: nat, later: nat, root: Root)
    requires from <= later && BuildFalls(t, log, later, root)
    ensures BuildFalls(t, log, from, root)
  {
  }

  /** Where the build number served is lower in the end, some change lowered it. */
  lemma {:induction false} LowerFallsSomewhere(t: Tools, was: Files, log: seq<Step>, now: Files, root: Root)
    requires Continuous(was, log, now) && BuildAt(t, PairAt(now, root)) < BuildAt(t, PairAt(was, root))
    ensures BuildFalls(t, log, 0, root)
    decreases |log|
  {
    hide BuildAt;
    if log != [] {
      var k := |log| - 1;
      if BuildAt(t, PairAt(log[k].now, root)) >= BuildAt(t, PairAt(log[k].was, root)) {
        LowerFallsSomewhere(t, was, log[..k], log[k].was, root);
        var i :| 0 <= i < k && BuildAt(t, PairAt(log[i].now, root)) < BuildAt(t, PairAt(log[i].was, root));
      }
    }
  }

  /** The change from the new pair back to the one it may replace does. */
  lemma RestoringLowersBuild(sftp: Server, before: seq<Step>, middle: Files, t: Tools, job: Job, root: Root, initial: Pair)
    requires sftp.Valid() && before <= sftp.log && Continuous(sftp.origin, before, middle)
    requires Replaces(t, job, initial) && Genuine(t, initial)
    requires PairAt(middle, root) == NewPair(job) && PairAt(sftp.files, root) == initial
    ensures BuildFalls(t, sftp.log, |before|, root)
  {
    ReplacingRaisesBuild(t, job, initial);
    Suffix(sftp.origin, before, middle, sftp.log, sftp.files);
    LowerFallsSomewhere(t, middle, sftp.log[|before|..], sftp.files, root);
    var i :| 0 <= i < |sftp.log[|before|..]|
             && BuildAt(t, PairAt(sftp.log[|before|..][i].now, root)) < BuildAt(t, PairAt(sftp.log[|before|..][i].was, root));
    assert sftp.log[|before| + i] == sftp.log[|before|..][i];
  }

  /** Promotion with its rollback boundary. */
  method PromoteOrRestore(sftp: Server, t: Tools, job: Job, root: Root, initial: Pair, ghost found: Option<Bytes>, ghost other: Served)
    returns (r: Result<(), Error>)
    requires Replaces(t, job, initial) && sftp.Valid() && Staged(sftp, root, job)
    requires OnlyStaged(sftp, Stage(root, job), {StagedApk(root, job), StagedManifest(root, job)})
    requires Serving(sftp, job, root, initial, found, other)
    requires MaySwap(sftp, t, job, root, initial, found, other)
    modifies sftp`clock, sftp`files, sftp`log, sftp`stages
    ensures sftp.Valid() && old(sftp.log) <= sftp.log && Serving(sftp, job, root, initial, found, other)
    ensures r.Ok? ==> PairSettled(sftp, |old(sftp.log)|, root, NewPair(job)) && sftp.Empty(Stage(root, job))
    ensures r.Ok? && sftp.Quiet() ==> PairAt(sftp.files, root) == NewPair(job)
    ensures sftp.Reliable() && sftp.Quiet() ==> r.Ok?
    ensures OnlyAt(sftp, root) && OtherStages(sftp, Stage(root, job))
    ensures r.Err? && r.error == Restored ==> PairSettled(sftp, |old(sftp.log)|, root, initial) && Genuine(t, initial)
    ensures r.Err? && r.error == Restored && sftp.Quiet() ==> PairAt(sftp.files, root) == initial
    ensures forall p: Path | p.place.Published? && !FixedPath(p) :: Lookup(sftp.files, p) == Lookup(old(sftp.files), p)
    ensures PutOver(sftp, |old(sftp.log)|, job, root, old(sftp.clock), Lookup(old(sftp.files), ManifestFile(root)))
    ensures sftp.Quiet() && Genuine(t, initial) && OnlyLastReadbackFails(sftp, old(sftp.clock)) ==>
              r == Err(Restored) && BuildFalls(t, sftp.log, |old(sftp.log)|, root)
    ensures WholeUnderOneFault(sftp, t, root, job, initial)
  {
    hide Server.Valid, Server.Quiet, Server.Reliable, Server.AtMostOneFault, Stage, MaySwap, Between, Staged, Replaces, Settled, NewManifest, After, Adds,
         ValidPair;
    ValidPairIsPresent(t, initial);
    var promoted := PromotePair(sftp, t, job, root, initial, found, other);
    ghost var before := sftp.log;
    if promoted.Err? {
      if ValidPair(t, initial).None? || initial.apk.None? || initial.manifest.None? {
        return Err(if promoted.error == Restored then Io else promoted.error);
      }
      Whence(sftp);
      ghost var middle := sftp.files;
      OneFault(sftp, old(sftp.clock), sftp.clock, sftp.clock + 8);
      var restored := Rollback(sftp, t, job, root, initial, found, other);
      if restored.Ok? {
        if PairAt(middle, root) == NewPair(job) && sftp.Quiet() {
          RestoringLowersBuild(sftp, before, middle, t, job, root, initial);
          BuildFallsEarlier(t, sftp.log, |old(sftp.log)|, |before|, root);
        }
        PairSettledEarlier(sftp, |old(sftp.log)|, |before|, root, initial);
      }
      return Err(if restored.Ok? then Restored else RollbackFailed);
    }
    r := Conclude(sftp, job, root, |old(sftp.log)|, NewPair(job));
  }

  /** The removal of the empty staging directory. */
  method Conclude(sftp: Server, job: Job, root: Root, ghost from: nat, ghost served: Pair) returns (r: Result<(), Error>)
    requires sftp.Valid() && sftp.Empty(Stage(root, job)) && PairSettled(sftp, from, root, served)
    modifies sftp`clock, sftp`files, sftp`log, sftp`stages
    ensures sftp.Valid() && old(sftp.log) <= sftp.log && NoNewManifest(sftp, |old(sftp.log)|, job, root)
    ensures OnlyAt(sftp, root) && OtherStages(sftp, Stage(root, job)) && PairSettled(sftp, from, root, served)
    ensures forall p | sftp.Quiet() || !FixedPath(p) :: Lookup(sftp.files, p) == Lookup(old(sftp.files), p)
    ensures r.Ok? ==> sftp.Empty(Stage(root, job))
    ensures r.Err? ==> r.error == Io && !sftp.Reliable()
  {
    hide Server.Valid, Server.Quiet, Server.Reliable, Stage, Adds, RivalWrote;
    Whence(sftp);
    ghost var middle, before := sftp.files, sftp.log;
    r := sftp.RemoveDirectory(Stage(root, job));
    NothingNew(sftp, |old(sftp.log)|, job, root);
    NoSwapLeaves(sftp.log, |before|, ApkFile(root));
    NoSwapLeaves(sftp.log, |before|, ManifestFile(root));
    SettledStays(sftp, from, before, middle, ApkFile(root), served.apk);
    SettledStays(sftp, from, before, middle, ManifestFile(root), served.manifest);
  }

  /** Another run has published meanwhile: fine if it was the very same pair. */
  method AcceptWinner(sftp: Server, t: Tools, job: Job, root: Root, current: Option<Bytes>) returns (r: Result<(), Error>)
    requires sftp.Valid() && OnlyStaged(sftp, Stage(root, job), {StagedApk(root, job), StagedManifest(root, job)})
    requires current == PairAt(sftp.files, root).manifest
    modifies sftp`clock, sftp`files, sftp`log, sftp`stages
    ensures sftp.Valid() && old(sftp.log) <= sftp.log && sftp.NoSwap() && OnlyAt(sftp, root) && OtherStages(sftp, Stage(root, job))
    ensures sftp.Quiet() ==> forall x :: PairAt(sftp.files, x) == PairAt(old(sftp.files), x)
    ensures r.Ok? ==> PairSettled(sftp, |old(sftp.log)|, root, NewPair(job)) && sftp.Empty(Stage(root, job))
    ensures r.Ok? && sftp.Quiet() ==> PairAt(sftp.files, root) == NewPair(job)
    ensures forall p: Path | p.place.Published? && !FixedPath(p) :: Lookup(sftp.files, p) == Lookup(old(sftp.files), p)
    ensures r.Err? ==> r.error != Restored
  {
    hide Server.Valid, Server.Quiet, Server.Reliable, Stage, ValidPair, ManifestOf, Adds, Readable, Settled, RivalWrote;
    Whence(sftp);
    ghost var files, log := sftp.files, sftp.log;
    var apk :- sftp.Read(ApkFile(root));
    Whence(sftp);
    ghost var middle, before := sftp.files, sftp.log;
    var live := Pair(current, apk);
    if !Readable(t, live) {
      return Err(Refused);
    }
    var decision :- PairDecision(ManifestOf(t, live), ValidPair(t, live).Some?, job.candidate);
    if decision != Idempotent || live != NewPair(job) {
      return Err(Refused);
    }
    r := Withdraw(sftp, root, job);
    NoSwapLeaves(sftp.log, |before|, ApkFile(root));
    SettledAfter(sftp, before, middle, ApkFile(root), apk);
    SettledEarlier(sftp, |old(sftp.log)|, |before|, ApkFile(root), apk);
    NoSwapLeaves(sftp.log, |log|, ManifestFile(root));
    SettledAfter(sftp, log, files, ManifestFile(root), current);
  }

  /** Reads the manifest, and only the manifest, once more: one that is seen to
      have changed is not overwritten. */
  method PromoteUnlessChanged(sftp: Server, t: Tools, job: Job, root: Root, initial: Pair, ghost found: Option<Bytes>, ghost other: Served)
    returns (r: Result<bool, Error>)
    requires Replaces(t, job, initial) && sftp.Valid() && Staged(sftp, root, job)
    requires OnlyStaged(sftp, Stage(root, job), {StagedApk(root, job), StagedManifest(root, job)})
    requires sftp.Quiet() ==> other.root != root && PairAt(sftp.files, other.root) == other.pair && found == PairAt(sftp.files, root).apk
    requires MaySwap(sftp, t, job, root, initial, found, other)
    modifies sftp`clock, sftp`files, sftp`log, sftp`stages
    ensures sftp.Valid() && old(sftp.log) <= sftp.log && (sftp.Quiet() ==> PairAt(sftp.files, other.root) == other.pair)
    ensures sftp.Quiet() && PairAt(old(sftp.files), root).manifest == initial.manifest ==> Between(job, initial, found, PairAt(sftp.files, root))
    ensures sftp.Quiet() && PairAt(old(sftp.files), root).manifest != initial.manifest ==>
              PairAt(sftp.files, root) == PairAt(old(sftp.files), root)
    ensures r.Ok? && sftp.Quiet() ==> PairAt(sftp.files, root) == NewPair(job)
    ensures r.Ok? ==> PairSettled(sftp, |old(sftp.log)|, root, NewPair(job)) && sftp.Empty(Stage(root, job))
    ensures sftp.Quiet() && PairAt(old(sftp.files), root).manifest == initial.manifest ==> (r.Ok? ==> r.value) && (sftp.Reliable() ==> r.Ok?)
    ensures OnlyAt(sftp, root) && OtherStages(sftp, Stage(root, job))
    ensures r.Err? && r.error == Restored ==> PairSettled(sftp, |old(sftp.log)|, root, initial) && Genuine(t, initial)
    ensures r.Err? && r.error == Restored && sftp.Quiet() ==> PairAt(sftp.files, root) == initial
    ensures forall p: Path | p.place.Published? && !FixedPath(p) :: Lookup(sftp.files, p) == Lookup(old(sftp.files), p)
    ensures Lookup(old(sftp.Upcoming()), ManifestFile(root)) != initial.manifest ==> sftp.NoSwap()
    ensures PutOver(sftp, |old(sftp.log)|, job, root, old(sftp.clock) + 1, initial.manifest)
    ensures PairAt(old(sftp.files), root) == initial ==> WholeUnderOneFault(sftp, t, root, job, initial)
  {
    hide Server.Valid, Server.Quiet, Server.Reliable, Server.Upcoming, Stage, MaySwap, Between, ValidPair, PairDecision, Replaces, Adds,
         Continuous, ManifestOf, Settled, NewManifest, After;
    StartIsBetween(job, initial, found);
    var current := sftp.Read(ManifestFile(root));
    NothingNew(sftp, |old(sftp.log)|, job, root);
    if current.Err? {
      return Err(current.error);
    }
    ghost var before := sftp.log;
    if current.value != initial.manifest {
      var accepted := AcceptWinner(sftp, t, job, root, current.value);
      NothingNew(sftp, |before|, job, root);
      if accepted.Err? {
        return Err(accepted.error);
      }
      PairSettledEarlier(sftp, |old(sftp.log)|, |before|, root, NewPair(job));
      return Ok(false);
    }
    var promoted := PromoteOrRestore(sftp, t, job, root, initial, found, other);
    if promoted.Ok? {
      PairSettledEarlier(sftp, |old(sftp.log)|, |before|, root, NewPair(job));
    } else if promoted.error == Restored {
      PairSettledEarlier(sftp, |old(sftp.log)|, |before|, root, initial);
    }
    r := if promoted.Ok? then Ok(true) else Err(promoted.error);
  }

  /** From the complete history on: withdraws, or promotes. */
  method Finish(sftp: Server, t: Tools, job: Job, root: Root, initial: Pair, ghost found: Option<Bytes>, ghost other: Served, idempotent: bool)
    returns (r: Result<bool, Error>)
    requires (!idempotent ==> Replaces(t, job, initial)) && sftp.Valid() && Staged(sftp, root, job)
    requires OnlyStaged(sftp, Stage(root, job), {StagedApk(root, job), StagedManifest(root, job)})
    requires sftp.Quiet() ==> other.root != root && PairAt(sftp.files, other.root) == other.pair && found == PairAt(sftp.files, root).apk
    requires HistoryKept(t, sftp.files, root, job, initial)
    requires MaySwap(sftp, t, job, root, initial, found, other)
    modifies sftp`clock, sftp`files, sftp`log, sftp`stages
    ensures sftp.Valid() && old(sftp.log) <= sftp.log && (sftp.Quiet() ==> PairAt(sftp.files, other.root) == other.pair)
    ensures sftp.Quiet() && PairAt(old(sftp.files), root).manifest == initial.manifest && !idempotent ==>
              Between(job, initial, found, PairAt(sftp.files, root))
    ensures sftp.Quiet() && (PairAt(old(sftp.files), root).manifest != initial.manifest || idempotent) ==>
              PairAt(sftp.files, root) == PairAt(old(sftp.files), root)
    ensures r.Ok? && !idempotent ==> PairSettled(sftp, |old(sftp.log)|, root, NewPair(job))
    ensures r.Ok? && !idempotent && sftp.Quiet() ==> PairAt(sftp.files, root) == NewPair(job)
    ensures idempotent || (sftp.Quiet() && PairAt(old(sftp.files), root).manifest == initial.manifest) ==>
              (r.Ok? ==> r.value) && (sftp.Reliable() ==> r.Ok?)
    ensures OnlyAt(sftp, root) && OtherStages(sftp, Stage(root, job))
    ensures r.Err? && r.error == Restored ==> !idempotent && PairSettled(sftp, |old(sftp.log)|, root, initial) && Genuine(t, initial)
    ensures r.Err? && r.error == Restored && sftp.Quiet() ==> PairAt(sftp.files, root) == initial
    ensures r.Ok? ==> sftp.Empty(Stage(root, job)) && HistoryKept(t, sftp.files, root, job, initial)
    ensures forall p: Path | p.place.Published? && !FixedPath(p) :: Lookup(sftp.files, p) == Lookup(old(sftp.files), p)
    ensures idempotent || Lookup(old(sftp.Upcoming()), ManifestFile(root)) != initial.manifest ==> sftp.NoSwap()
    ensures PutOver(sftp, |old(sftp.log)|, job, root, old(sftp.clock) + 1, initial.manifest)
    ensures PairAt(old(sftp.files), root) == initial ==> WholeUnderOneFault(sftp, t, root, job, initial)
  {
    hide Server.Valid, Server.Quiet, Server.Reliable, Server.Upcoming, Stage, MaySwap, Between, OnlyStaged, Staged, ValidPair, Replaces, HistoryKept, Adds,
         PairSettled, NewManifest, After;
    ghost var complete := sftp.files;
    if idempotent {
      var withdrawn := Withdraw(sftp, root, job);
      NothingNew(sftp, |old(sftp.log)|, job, root);
      r := if withdrawn.Ok? then Ok(true) else Err(withdrawn.error);
    } else {
      r := PromoteUnlessChanged(sftp, t, job, root, initial, found, other);
    }
    if r.Ok? {
      HistoryStays(t, complete, sftp.files, root, job, initial);
    }
  }

  /** What a publication of a root reports: whether the previous pair was
      genuine, and what it replaced. */
  ghost predicate Told(t: Tools, job: Job, initial: Pair, o: Outcome) {
    && (o.previousValid <==> Genuine(t, initial))
    && match o.decision
       case PublishBootstrap => initial.manifest.None?
       case Idempotent => Genuine(t, initial) && initial == NewPair(job)
       case PublishUpgrade => Genuine(t, initial) && BuildAt(t, initial) < job.candidate.build
       case PublishReplacingInvalid =>
         initial.manifest.Some? && t.verify(initial.manifest.value).Some? && !Genuine(t, initial) && BuildAt(t, initial) < job.candidate.build
       case IdempotentRaceWinner => false
  }

  lemma DecidedTold(t: Tools, job: Job, initial: Pair)
    requires Bound(t, job) && Readable(t, initial) && Decided(t, job, initial).Ok?
    ensures Told(t, job, initial, Outcome(Decided(t, job, initial).value, ValidPair(t, initial).Some?))
  {
    hide ValidPair, Identified;
  }

  /** Of everything published but the served files, only the history of the
      candidate and of a genuine previous pair can differ. */
  ghost predicate OnlyHistory(t: Tools, was: Files, now: Files, root: Root, job: Job, initial: Pair) {
    forall p: Path | p.place.Published? && !FixedPath(p) && p !in HistoryOf(root, job.candidate)
                     && (Genuine(t, initial) ==> p !in HistoryOf(root, t.verify(initial.manifest.value).value)) ::
      Lookup(now, p) == Lookup(was, p)
  }

  function HistoryOf(root: Root, m: Manifest): set<Path> {
    {Path(Published(root), MobileApkOf(m.commit, m.build)), Path(Published(root), MobileManifestOf(m.commit, m.build))}
  }

  /** Publishes one root, whoever else writes there. `initial` is what the
      preflight read; without rivals `found` is the APK by now and `other` what
      the other root serves. `reread` is the request of the second look at the
      manifest. */
  method PublishRoot(sftp: Server, t: Tools, job: Job, root: Root, initial: Pair, ghost found: Option<Bytes>, ghost other: Served)
    returns (r: Result<Outcome, Error>, ghost reread: nat)
    requires sftp.Valid() && Bound(t, job) && Readable(t, initial)
    requires sftp.Quiet() ==> other.root != root && PairAt(sftp.files, other.root) == other.pair && found == PairAt(sftp.files, root).apk
    requires MaySwap(sftp, t, job, root, initial, found, other)
    modifies sftp`clock, sftp`files, sftp`log, sftp`stages
    ensures sftp.Valid() && old(sftp.log) <= sftp.log && (sftp.Quiet() ==> PairAt(sftp.files, other.root) == other.pair)
    ensures r.Ok? && r.value.decision != Idempotent ==> PairSettled(sftp, |old(sftp.log)|, root, NewPair(job))
    ensures r.Err? && r.error == Restored ==> PairSettled(sftp, |old(sftp.log)|, root, initial) && Genuine(t, initial)
    ensures PutOver(sftp, |old(sftp.log)|, job, root, reread + 1, initial.manifest)
    ensures r.Ok? ==> sftp.Empty(Stage(root, job)) && HistoryKept(t, sftp.files, root, job, initial)
    ensures OnlyAt(sftp, root) && OtherStages(sftp, Stage(root, job))
    ensures sftp.Quiet() && PairAt(old(sftp.files), root).manifest == initial.manifest ==> Between(job, initial, found, PairAt(sftp.files, root))
    ensures sftp.Quiet() && PairAt(old(sftp.files), root).manifest != initial.manifest ==>
              PairAt(sftp.files, root) == PairAt(old(sftp.files), root)
    ensures r.Ok? && sftp.Quiet() && (PairAt(old(sftp.files), root) == initial || r.value.decision != Idempotent) ==>
              PairAt(sftp.files, root) == NewPair(job)
    ensures r.Err? && r.error == Restored && sftp.Quiet() ==> PairAt(sftp.files, root) == initial
    ensures PairAt(old(sftp.files), root) == initial ==> WholeUnderOneFault(sftp, t, root, job, initial)
    ensures r.Ok? && r.value.decision != IdempotentRaceWinner ==> Told(t, job, initial, r.value)
    ensures OnlyHistory(t, old(sftp.files), sftp.files, root, job, initial)
    ensures sftp.Quiet() && PairAt(old(sftp.files), root) == initial ==>
              (r.Ok? ==> Publishable(t, old(sftp.files), old(sftp.stages), root, job) && Told(t, job, initial, r.value))
              && (sftp.Reliable() && Publishable(t, old(sftp.files), old(sftp.stages), root, job) ==> r.Ok?)
  {
    hide Server.Valid, Server.Quiet, Server.Reliable, Server.Upcoming, Stage, MaySwap, Between, OnlyStaged, Staged, ValidPair, Bound, Readable;
    hide HistoryKept, RoomFor, Adds, Continuous, ManifestOf, Identified, PairSettled, NewManifest, After, Decided, PairDecision, Replaces, Acceptable;
    StartIsBetween(job, initial, found);
    reread := 0;
    AcceptableIs(t, job, initial);
    var decided := Decided(t, job, initial);
    if decided.Err? {
      return Err(Refused), reread;
    }
    DecidedTold(t, job, initial);
    var prepared := Prepare(sftp, t, root, job, initial);
    NothingNew(sftp, |old(sftp.log)|, job, root);
    if prepared.Err? {
      return Err(prepared.error), reread;
    }
    ghost var before := sftp.log;
    reread := sftp.clock;
    var completed := Finish(sftp, t, job, root, initial, found, other, decided.value == Idempotent);
    if completed.Err? {
      if completed.error == Restored {
        PairSettledEarlier(sftp, |old(sftp.log)|, |before|, root, initial);
      }
      return Err(completed.error), reread;
    }
    if decided.value != Idempotent {
      PairSettledEarlier(sftp, |old(sftp.log)|, |before|, root, NewPair(job));
    }
    r := Ok(if decided.value == Idempotent then Outcome(Idempotent, true)
            else if completed.value then Outcome(decided.value, ValidPair(t, initial).Some?)
            else Outcome(IdempotentRaceWinner, true));
  }

  /** What a root serves, if the publisher accepts to start from it. */
  method ReadRoot(sftp: Server, t: Tools, root: Root) returns (r: Result<Pair, Error>)
    requires sftp.Valid() && sftp.Quiet()
    modifies sftp`clock, sftp`files, sftp`log
    ensures sftp.Beside({})
    ensures r.Ok? ==> r.value == PairAt(sftp.files, root) && Readable(t, r.value)
    ensures r.Ok? ==> (r.value.manifest.None? ==> r.value.apk.None?) && (r.value.manifest.Some? ==> t.verify(r.value.manifest.value).Some?)
    ensures r.Err? ==> r.error == Io || r.error == Refused
    ensures r.Err? && sftp.Reliable() ==> !Readable(t, PairAt(sftp.files, root))
  {
    hide Server.Valid;
    var apk :- sftp.Read(ApkFile(root));
    var manifest :- sftp.Read(ManifestFile(root));
    r := if Readable(t, Pair(manifest, apk)) then Ok(Pair(manifest, apk)) else Err(Refused);
  }

  /** Allowed at either root: the primary changes only while the fallback
      already serves the new pair, the fallback only while the primary is old. */
  ghost predicate EitherSwap(t: Tools, job: Job, primary: Root, fallback: Root, oldPrimary: Pair, oldFallback: Pair, s: Step) {
    || MobileSwap(t, job, fallback, oldFallback, oldFallback.apk, Served(primary, oldPrimary), s)
    || MobileSwap(t, job, primary, oldPrimary, oldPrimary.apk, Served(fallback, NewPair(job)), s)
  }

  /** Only what a root holds itself matters to its publication. */
  lemma PublishableElsewhere(t: Tools, files: Files, stages: set<Place>, later: Files, laterStages: set<Place>, root: Root, job: Job)
    requires forall p: Path | p.place.root == root :: Lookup(later, p) == Lookup(files, p)
    requires Stage(root, job) in laterStages <==> Stage(root, job) in stages
    ensures PairAt(later, root) == PairAt(files, root)
    ensures Publishable(t, later, laterStages, root, job) <==> Publishable(t, files, stages, root, job)
  {
    hide Acceptable;
  }

  method PublishMobile(sftp: Server, t: Tools, job: Job, primary: Root, fallback: Root)
    returns (r: Result<(Outcome, Outcome), Error>, ghost record: Publication)
    requires sftp.Valid() && sftp.Quiet() && Bound(t, job)
    modifies sftp`clock, sftp`files, sftp`log, sftp`stages, sftp`swaps, sftp`mark
    ensures sftp.Valid() && old(sftp.log) <= sftp.log
    ensures record == Publication(job, primary, fallback, old(sftp.files), sftp.log[|old(sftp.log)|..], sftp.files) && Recorded(t, record)
    ensures Between(job, PairAt(old(sftp.files), primary), PairAt(old(sftp.files), primary).apk, PairAt(sftp.files, primary))
    ensures Between(job, PairAt(old(sftp.files), fallback), PairAt(old(sftp.files), fallback).apk, PairAt(sftp.files, fallback))
    ensures PairAt(sftp.files, primary) != PairAt(old(sftp.files), primary) ==> PairAt(sftp.files, fallback) == NewPair(job)
    ensures r.Ok? ==> PairAt(sftp.files, primary) == NewPair(job) && PairAt(sftp.files, fallback) == NewPair(job)
    ensures r.Ok? ==> && primary != fallback
                      && Publishable(t, old(sftp.files), old(sftp.stages), primary, job)
                      && Publishable(t, old(sftp.files), old(sftp.stages), fallback, job)
                      && Told(t, job, PairAt(old(sftp.files), primary), r.value.0)
                      && Told(t, job, PairAt(old(sftp.files), fallback), r.value.1)
    ensures sftp.Reliable() && primary != fallback && Publishable(t, old(sftp.files), old(sftp.stages), primary, job)
            && Publishable(t, old(sftp.files), old(sftp.stages), fallback, job)
            ==> r.Ok?
    ensures !Admitted(t, job, PairAt(old(sftp.files), primary)) || !Admitted(t, job, PairAt(old(sftp.files), fallback))
            ==> r.Err? && PairAt(sftp.files, primary) == PairAt(old(sftp.files), primary)
                && PairAt(sftp.files, fallback) == PairAt(old(sftp.files), fallback)
    ensures forall x | x in {primary, fallback} :: WholeUnderOneFault(sftp, t, x, job, PairAt(old(sftp.files), x))
  {
    hide Server.Valid, Server.Quiet, Server.Reliable, EitherSwap, Publishable, Admitted, Recorded, Told, Between;
    ghost var oldPrimary, oldFallback := PairAt(sftp.files, primary), PairAt(sftp.files, fallback);
    Whence(sftp);
    sftp.Allow(s => EitherSwap(t, job, primary, fallback, oldPrimary, oldFallback, s));
    r := PublishBoth(sftp, t, job, primary, fallback);
    record := Publication(job, primary, fallback, old(sftp.files), sftp.log[|old(sftp.log)|..], sftp.files);
    RecordSoFar(sftp, t, record, old(sftp.log));
  }

  lemma RecordSoFar(sftp: Server, t: Tools, p: Publication, before: seq<Step>)
    requires sftp.Valid() && sftp.Quiet() && before <= sftp.log && sftp.mark == |before| && Continuous(sftp.origin, before, p.was)
    requires p.log == sftp.log[|before|..] && p.now == sftp.files
    requires forall s :: sftp.swaps(s) <==>
               EitherSwap(t, p.job, p.primary, p.fallback, PairAt(p.was, p.primary), PairAt(p.was, p.fallback), s)
    ensures Recorded(t, p)
  {
    Suffix(sftp.origin, before, p.was, sftp.log, sftp.files);
    hide EitherSwap, Adds, Continuous;
    forall i | 0 <= i < |p.log| ensures RecordedStep(t, p, p.log[i]) {
      assert p.log[i] == sftp.log[|before| + i];
      assert sftp.rivals(p.log[i].at).None?;
    }
  }

  /** With the replacements allowed: the preflight of both roots, then the
      fallback, then the primary. */
  method PublishBoth(sftp: Server, t: Tools, job: Job, primary: Root, fallback: Root)
    returns (r: Result<(Outcome, Outcome), Error>)
    requires sftp.Valid() && sftp.Quiet() && Bound(t, job)
    requires forall s | EitherSwap(t, job, primary, fallback, PairAt(sftp.files, primary), PairAt(sftp.files, fallback), s) :: sftp.swaps(s)
    modifies sftp`clock, sftp`files, sftp`log, sftp`stages
    ensures sftp.Valid() && old(sftp.log) <= sftp.log
    ensures Between(job, PairAt(old(sftp.files), primary), PairAt(old(sftp.files), primary).apk, PairAt(sftp.files, primary))
    ensures Between(job, PairAt(old(sftp.files), fallback), PairAt(old(sftp.files), fallback).apk, PairAt(sftp.files, fallback))
    ensures PairAt(sftp.files, primary) != PairAt(old(sftp.files), primary) ==> PairAt(sftp.files, fallback) == NewPair(job)
    ensures r.Ok? ==> PairAt(sftp.files, primary) == NewPair(job) && PairAt(sftp.files, fallback) == NewPair(job)
    ensures r.Ok? ==> && primary != fallback
                      && Publishable(t, old(sftp.files), old(sftp.stages), primary, job)
                      && Publishable(t, old(sftp.files), old(sftp.stages), fallback, job)
                      && Told(t, job, PairAt(old(sftp.files), primary), r.value.0)
                      && Told(t, job, PairAt(old(sftp.files), fallback), r.value.1)
    ensures sftp.Reliable() && primary != fallback && Publishable(t, old(sftp.files), old(sftp.stages), primary, job)
            && Publishable(t, old(sftp.files), old(sftp.stages), fallback, job)
            ==> r.Ok?
    ensures !Admitted(t, job, PairAt(old(sftp.files), primary)) || !Admitted(t, job, PairAt(old(sftp.files), fallback))
            ==> r.Err? && PairAt(sftp.files, primary) == PairAt(old(sftp.files), primary)
                && PairAt(sftp.files, fallback) == PairAt(old(sftp.files), fallback)
    ensures forall x | x in {primary, fallback} :: WholeUnderOneFault(sftp, t, x, job, PairAt(old(sftp.files), x))
  {
    hide Server.Valid, Server.Quiet, Server.Reliable, Stage, MobileSwap, ValidPair, PairDecision, Bound, Readable, HistoryKept;
    hide RoomFor, Told, Admitted;
    if primary == fallback {
      return Err(Refused);
    }
    AdmittedIs(t, job, PairAt(sftp.files, primary));
    AdmittedIs(t, job, PairAt(sftp.files, fallback));
    var oldPrimary :- ReadRoot(sftp, t, primary);
    var primaryDecision :- PairDecision(ManifestOf(t, oldPrimary), ValidPair(t, oldPrimary).Some?, job.candidate);
    var oldFallback :- ReadRoot(sftp, t, fallback);
    var fallbackDecision :- PairDecision(ManifestOf(t, oldFallback), ValidPair(t, oldFallback).Some?, job.candidate);
    SameFiles(sftp.files, old(sftp.files));
    var first, firstLook :- PublishRoot(sftp, t, job, fallback, oldFallback, oldFallback.apk, Served(primary, oldPrimary));
    PublishableElsewhere(t, old(sftp.files), old(sftp.stages), sftp.files, sftp.stages, primary, job);
    var second, secondLook :- PublishRoot(sftp, t, job, primary, oldPrimary, oldPrimary.apk, Served(fallback, NewPair(job)));
    r := Ok((second, first));
  }

  // ---------- Every moment, every crash ----------

  /** All that one publication did to the server, however far it got. */
  datatype Publication = Publication(job: Job, primary: Root, fallback: Root, was: Files, log: seq<Step>, now: Files)

  ghost predicate RecordedStep(t: Tools, p: Publication, s: Step) {
    s.own && (Adds(s) || EitherSwap(t, p.job, p.primary, p.fallback, PairAt(p.was, p.primary), PairAt(p.was, p.fallback), s))
  }

  ghost predicate Recorded(t: Tools, p: Publication) {
    Continuous(p.was, p.log, p.now) && forall i | 0 <= i < |p.log| :: RecordedStep(t, p, p.log[i])
  }

  /** What a connection leaves that breaks after `k` changes. */
  function Cut(p: Publication, k: nat): Publication
    requires k <= |p.log|
  {
    p.(log := p.log[..k], now := if k == 0 then p.was else p.log[k - 1].now)
  }

  lemma CutIsRecorded(t: Tools, p: Publication, k: nat)
    requires Recorded(t, p) && k <= |p.log|
    ensures Recorded(t, Cut(p, k))
  {
    hide EitherSwap, Adds;
  }

  /** A step that adds files leaves what roots serve alone. */
  lemma AddsServesSame(s: Step, root: Root)
    requires Adds(s)
    ensures PairAt(s.now, root) == PairAt(s.was, root)
  {
    assert FixedPath(ManifestFile(root)) && FixedPath(ApkFile(root));
  }

  lemma SwapServesSame(t: Tools, job: Job, root: Root, initial: Pair, found: Option<Bytes>, other: Served, s: Step, elsewhere: Root)
    requires MobileSwap(t, job, root, initial, found, other, s) && elsewhere != root
    ensures PairAt(s.now, elsewhere) == PairAt(s.was, elsewhere)
  {
    assert ManifestFile(elsewhere) !in {ApkFile(root), ManifestFile(root)};
    assert ApkFile(elsewhere) !in {ApkFile(root), ManifestFile(root)};
  }

  /** What a root can serve at some moment of a publication: the start, or a
      mixture of it with a candidate that may replace it. */
  ghost predicate Possible(t: Tools, job: Job, start: Pair, p: Pair) {
    p == start || (Replaces(t, job, start) && Between(job, start, start.apk, p))
  }

  /** After every single change of a publication, hence wherever it is cut
      short: each root serves a possible pair, other roots what they did, and
      the primary is touched only while the fallback serves the whole new pair. */
  lemma {:induction false} EveryMomentIsServable(t: Tools, p: Publication, root: Root)
    requires Recorded(t, p) && p.primary != p.fallback
    ensures root in {p.primary, p.fallback} ==> Possible(t, p.job, PairAt(p.was, root), PairAt(p.now, root))
    ensures root !in {p.primary, p.fallback} ==> PairAt(p.now, root) == PairAt(p.was, root)
    ensures PairAt(p.now, p.primary) != PairAt(p.was, p.primary) ==> PairAt(p.now, p.fallback) == NewPair(p.job)
    decreases |p.log|
  {
    if p.log != [] {
      var k := |p.log| - 1;
      var s, q := p.log[k], Cut(p, k);
      CutIsRecorded(t, p, k);
      EveryMomentIsServable(t, q, root);
      EveryMomentIsServable(t, q, p.primary);
      EveryMomentIsServable(t, q, p.fallback);
      assert s.was == q.now && s.now == p.now && RecordedStep(t, p, s);
      StepServes(t, p, s, root);
      hide Adds, Keeps, Possible, Recorded, EitherSwap, RecordedStep;
    }
  }

  /** One change keeps all of that. */
  lemma StepServes(t: Tools, p: Publication, s: Step, root: Root)
    requires RecordedStep(t, p, s) && p.primary != p.fallback
    requires forall x | x in {p.primary, p.fallback} :: Possible(t, p.job, PairAt(p.was, x), PairAt(s.was, x))
    requires PairAt(s.was, p.primary) != PairAt(p.was, p.primary) ==> PairAt(s.was, p.fallback) == NewPair(p.job)
    ensures root in {p.primary, p.fallback} ==> Possible(t, p.job, PairAt(p.was, root), PairAt(s.now, root))
    ensures root !in {p.primary, p.fallback} ==> PairAt(s.now, root) == PairAt(s.was, root)
    ensures PairAt(s.now, p.primary) != PairAt(p.was, p.primary) ==> PairAt(s.now, p.fallback) == NewPair(p.job)
  {
    hide Adds, Keeps, Replaces;
    var oldPrimary, oldFallback := PairAt(p.was, p.primary), PairAt(p.was, p.fallback);
    var roots := {root, p.primary, p.fallback};
    if Adds(s) {
      forall x | x in roots ensures PairAt(s.now, x) == PairAt(s.was, x) {
        AddsServesSame(s, x);
      }
    } else if MobileSwap(t, p.job, p.fallback, oldFallback, oldFallback.apk, Served(p.primary, oldPrimary), s) {
      forall x | x in roots && x != p.fallback ensures PairAt(s.now, x) == PairAt(s.was, x) {
        SwapServesSame(t, p.job, p.fallback, oldFallback, oldFallback.apk, Served(p.primary, oldPrimary), s, x);
      }
    } else {
      forall x | x in roots && x != p.primary ensures PairAt(s.now, x) == PairAt(s.was, x) {
        SwapServesSame(t, p.job, p.primary, oldPrimary, oldPrimary.apk, Served(p.fallback, NewPair(p.job)), s, x);
      }
    }
  }

  /** Each publication starts from where the one before it stopped. */
  ghost predicate Consecutive(ps: seq<Publication>) { forall k, l | 0 <= k && l == k + 1 < |ps| :: ps[l].was == ps[k].now }

  lemma PossibleNeverBelow(t: Tools, job: Job, start: Pair, p: Pair)
    ensures Possible(t, job, start, p) ==> BuildAt(t, start) <= BuildAt(t, p)
  {
    if Possible(t, job, start, p) && p != start {
      BuildNeverBelow(t, job, start, start.apk, p);
    }
  }

  /** Over any sequence of publications, each complete, failed or cut short at
      any change, what a root serves never carries a lower signed build number
      than at the start of any of them so far. */
  lemma {:induction false} BuildFloorHolds(t: Tools, ps: seq<Publication>, root: Root, i: nat, j: nat)
    requires i <= j < |ps| && Consecutive(ps)
    requires forall k | 0 <= k < |ps| :: Recorded(t, ps[k]) && ps[k].primary != ps[k].fallback
    ensures BuildAt(t, PairAt(ps[i].was, root)) <= BuildAt(t, PairAt(ps[j].now, root))
    decreases j
  {
    hide Recorded, Possible, BuildAt;
    var p := ps[j];
    EveryMomentIsServable(t, p, root);
    PossibleNeverBelow(t, p.job, PairAt(p.was, root), PairAt(p.now, root));
    if i < j {
      BuildFloorHolds(t, ps, root, i, j - 1);
      assert p.was == ps[j - 1].now;
    }
  }

  /** At every moment in between as well. */
  lemma FloorHoldsAtEveryMoment(t: Tools, ps: seq<Publication>, root: Root, i: nat, j: nat, k: nat)
    requires i <= j < |ps| && Consecutive(ps) && k <= |ps[j].log|
    requires forall k | 0 <= k < |ps| :: Recorded(t, ps[k]) && ps[k].primary != ps[k].fallback
    ensures BuildAt(t, PairAt(ps[i].was, root)) <= BuildAt(t, PairAt(Cut(ps[j], k).now, root))
  {
    CutIsRecorded(t, ps[j], k);
    hide Recorded;
    var cut := ps[..j] + [Cut(ps[j], k)];
    BuildFloorHolds(t, cut, root, i, j);
  }

  ghost predicate ManifestKnown(t: Tools, ps: seq<Publication>, first: Pair, m: Option<Bytes>) {
    m == first.manifest || exists k :: 0 <= k < |ps| && Bound(t, ps[k].job) && m == Some(ps[k].job.manifest)
  }

  ghost predicate ArtifactKnown(ps: seq<Publication>, first: Pair, a: Option<Bytes>) {
    a == first.apk || exists k :: 0 <= k < |ps| && a == Some(ps[k].job.artifact)
  }

  /** Whatever a root serves in the end, each half was there first or came with
      one of the candidates. */
  lemma {:induction false} HalvesAreKnown(t: Tools, ps: seq<Publication>, root: Root)
    requires ps != [] && Consecutive(ps)
    requires forall k | 0 <= k < |ps| :: Recorded(t, ps[k]) && ps[k].primary != ps[k].fallback
    ensures var first, p := PairAt(ps[0].was, root), PairAt(ps[|ps| - 1].now, root);
            ManifestKnown(t, ps, first, p.manifest) && ArtifactKnown(ps, first, p.apk)
  {
    hide Recorded, Bound, ManifestOf;
    var last := |ps| - 1;
    EveryMomentIsServable(t, ps[last], root);
    if last > 0 {
      assert ps[..last][last - 1].now == ps[last].was;
      HalvesAreKnown(t, ps[..last], root);
    }
  }

  /** Publication after publication, at every moment of any of them, a root
      serves a whole pair, the first or that of a candidate so far, or one that
      the hash check of every client rejects: unless two artifacts collide. */
  lemma EveryMomentIsWholeOrRejected(t: Tools, ps: seq<Publication>, root: Root, j: nat, k: nat)
    requires j < |ps| && Consecutive(ps) && k <= |ps[j].log|
    requires forall i | 0 <= i < |ps| :: Recorded(t, ps[i]) && ps[i].primary != ps[i].fallback
    requires var first := PairAt(ps[0].was, root);
             && (first.manifest.None? || Genuine(t, first))
             && forall a: Bytes, b: Bytes | ArtifactKnown(ps, first, Some(a)) && ArtifactKnown(ps, first, Some(b)) && t.digest(a) == t.digest(b) :: a == b
    ensures var first, p := PairAt(ps[0].was, root), PairAt(Cut(ps[j], k).now, root);
            p == first || (exists i :: 0 <= i <= j && p == NewPair(ps[i].job)) || !HashAccepts(t, p)
  {
    CutIsRecorded(t, ps[j], k);
    hide Recorded, Identified;
    var cut := ps[..j] + [Cut(ps[j], k)];
    HalvesAreKnown(t, cut, root);
    var first, p := PairAt(ps[0].was, root), PairAt(Cut(ps[j], k).now, root);
    assert forall i | 0 <= i <= j :: cut[i].job == ps[i].job;
    if HashAccepts(t, p) && p.manifest != first.manifest {
      var i :| 0 <= i <= j && Bound(t, ps[i].job) && p.manifest == Some(ps[i].job.manifest);
      assert ArtifactKnown(ps, first, p.apk) && ArtifactKnown(ps, first, Some(ps[i].job.artifact));
      assert p == NewPair(ps[i].job);
    }
  }

  /** Several publications of one pair of roots: their records follow each
      other, so the floor holds for whatever this server did. */
  method PublishSeries(sftp: Server, t: Tools, jobs: seq<Job>, primary: Root, fallback: Root) returns (ghost records: seq<Publication>)
    requires sftp.Valid() && sftp.Quiet() && primary != fallback && forall k | 0 <= k < |jobs| :: Bound(t, jobs[k])
    modifies sftp`clock, sftp`files, sftp`log, sftp`stages, sftp`swaps, sftp`mark
    ensures sftp.Valid() && |records| == |jobs| && Consecutive(records)
    ensures forall k | 0 <= k < |jobs| :: Recorded(t, records[k]) && records[k].job == jobs[k]
    ensures jobs != [] ==> records[0].was == old(sftp.files) && records[|jobs| - 1].now == sftp.files
    ensures forall root :: BuildAt(t, PairAt(old(sftp.files), root)) <= BuildAt(t, PairAt(sftp.files, root))
  {
    hide Server.Valid, Server.Quiet, Recorded, Publishable, Admitted, Told, BuildAt;
    records := [];
    var k := 0;
    while k < |jobs|
      invariant 0 <= k <= |jobs| && sftp.Valid() && |records| == k && Consecutive(records)
      invariant forall l | 0 <= l < k ::
                  Recorded(t, records[l]) && records[l].job == jobs[l] && records[l].primary == primary && records[l].fallback == fallback
      invariant if k == 0 then sftp.files == old(sftp.files) else records[0].was == old(sftp.files) && records[k - 1].now == sftp.files
    {
      var outcome, record := PublishMobile(sftp, t, jobs[k], primary, fallback);
      records := records + [record];
      k := k + 1;
    }
    forall root ensures BuildAt(t, PairAt(old(sftp.files), root)) <= BuildAt(t, PairAt(sftp.files, root)) {
      if k > 0 {
        BuildFloorHolds(t, records, root, 0, k - 1);
      }
    }
  }

  /** A run in which the served build number does fall: the candidate is staged
      and promoted, the last readback fails, and the rollback restores the
      valid pair of the fallback. */
  method RollbackLowersBuild(t: Tools, job: Job, files: Files, primary: Root, fallback: Root)
    returns (sftp: Server, r: Result<(), Error>, ghost record: Publication)
    requires primary != fallback && Replaces(t, job, PairAt(files, fallback)) && Genuine(t, PairAt(files, fallback))
    requires forall p | p in files :: p.place.Published?
    ensures fresh(sftp) && sftp.Valid() && r == Err(Restored) && PairAt(sftp.files, fallback) == PairAt(files, fallback)
    ensures record == Publication(job, primary, fallback, files, sftp.log, sftp.files) && Recorded(t, record)
    ensures BuildFalls(t, sftp.log, 0, fallback)
  {
    hide Server.Valid, Stage, Replaces, ValidPair, Recorded, EitherSwap, MobileSwap, Adds, Continuous, BuildFalls, PairSettled, PutOver;
    ghost var initial, other := PairAt(files, fallback), Served(primary, PairAt(files, primary));
    var faults: nat -> Fault := k => if k == 6 then FailsBefore else Works;
    sftp := new Server(faults, k => None, files, {});
    Whence(sftp);
    sftp.Allow(s => EitherSwap(t, job, primary, fallback, PairAt(files, primary), PairAt(files, fallback), s));
    EitherAllows(sftp, t, job, primary, fallback, files);
    var staged := PutServed(sftp, fallback, job);
    ghost var before := sftp.log;
    r := PromoteOrRestore(sftp, t, job, fallback, PairAt(files, fallback), initial.apk, other);
    BuildFallsEarlier(t, sftp.log, 0, |before|, fallback);
    record := Publication(job, primary, fallback, files, sftp.log, sftp.files);
    RecordSoFar(sftp, t, record, []);
  }

  lemma EitherAllows(sftp: Server, t: Tools, job: Job, primary: Root, fallback: Root, files: Files)
    requires sftp.Quiet()
    requires forall s | EitherSwap(t, job, primary, fallback, PairAt(files, primary), PairAt(files, fallback), s) :: sftp.swaps(s)
    ensures MaySwap(sftp, t, job, fallback, PairAt(files, fallback), PairAt(files, fallback).apk, Served(primary, PairAt(files, primary)))
  {
  }

  /** Two builds of one commit: the first is served, the second may replace it. */
  lemma SecondReplacesFirst() returns (t: Tools, job: Job, first: Pair)
    ensures Replaces(t, job, first) && Genuine(t, first)
  {
    var commit := seq(40, i => '0');
    assert TargetVersion.Hex(commit);
    var before, after := Manifest(commit, 1, 1, 1, "", ""), Manifest(commit, 2, 1, 2, "", "");
    t := Tools(b => if b == [1] then Some(before) else if b == [2] then Some(after) else None,
               b => if b == [1] then 1 else 2, (b, m) => true);
    job, first := Job(after, [2], [2], "1"), Pair(Some([1]), Some([1]));
    hide TargetVersion.Hex;
    assert ValidPair(t, first) == Some(before) && ManifestOf(t, first) == Some(before);
  }
}
