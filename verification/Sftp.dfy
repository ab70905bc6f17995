/** A remote file tree reached over SFTP. Every request may fail before or
    after its effect, and rivals may write published files between requests.
    File names are structured values: the originals differ by fixed prefixes. */
module Sftp {
  import opened Wrappers
  import opened Words

  type Bytes = seq<byte>

  datatype Root = Root(path: string)

  /** What a staging directory is named after: .staging-<commit>-<build>-<attempt>. */
  datatype StageId = TargetStage(commit: string, buildId: string, attempt: string) | MobileStage(commit: string, build: nat, attempt: string)

  datatype Place = Published(root: Root) | Staging(root: Root, id: StageId)

  datatype Name =
    | VersionJson                                      // version.json
    | TargetArtifact(file: string)                     // gatekeeper-firmware-<commit>.bin or .sgkenc
    | TargetManifestOf(commit: string)                 // version-<commit>.json
    | MobileApk                                        // ks-house-gatekeeper.apk
    | MobileApkOf(commit: string, build: nat)          // ks-house-gatekeeper-<commit>-<build>.apk
    | MobileManifestOf(commit: string, build: nat)     // version-<commit>-<build>.json
    | PreviousManifest(commit: string, build: nat)     // previous-<commit>[-<build>].json
    | PreviousApk(commit: string, build: nat)          // previous-<commit>-<build>.apk
    | RollbackApk                                      // rollback-previous.apk
    | RollbackManifest                                 // rollback-previous-version.json

  datatype Path = Path(place: Place, name: Name)

  type Files = map<Path, Bytes>

  /** A failing write may leave any part of its bytes. */
  datatype Fault = Works | FailsBefore | FailsAfter(kept: nat)

  datatype Rival = Rival(path: Path, value: Option<Bytes>)

  datatype Error = Io | Refused | Restored | RollbackFailed

  /** One change, made through this connection or by a rival: at which request,
      from what, to what. */
  datatype Step = Step(at: nat, own: bool, was: Files, now: Files)

  function Lookup(files: Files, p: Path): Option<Bytes> { if p in files then Some(files[p]) else None }

  function Rivaled(files: Files, r: Option<Rival>): Files {
    if r.None? then files
    else if r.value.value.Some? then files[r.value.path := r.value.value.value]
    else files - {r.value.path}
  }

  /** A rival has put something else than `value` under a path. */
  predicate Intrudes(r: Option<Rival>, p: Path, value: Option<Bytes>) {
    r.Some? && r.value.path == p && r.value.value != value
  }

  predicate RivalStep(rivals: nat -> Option<Rival>, s: Step) { rivals(s.at).Some? && s.now == Rivaled(s.was, rivals(s.at)) }

  predicate FixedPath(p: Path) { p.place.Published? && (p.name.VersionJson? || p.name.MobileApk?) }

  /** Every published file survives the step unaltered. */
  ghost predicate Keeps(s: Step, except: set<Path>) {
    forall p | p in s.was && p.place.Published? && p !in except :: p in s.now && s.now[p] == s.was[p]
  }

  /** A step that adds immutable files or touches staging, and nothing else. */
  ghost predicate Adds(s: Step) {
    Keeps(s, {}) && forall p | p in s.now && p !in s.was :: !FixedPath(p)
  }

  /** An immutable file can be placed: nothing is there yet, or the same bytes. */
  predicate Placeable(files: Files, p: Path, bytes: Bytes) {
    Lookup(files, p) == None || Lookup(files, p) == Some(bytes)
  }

  lemma SameFiles(a: Files, b: Files)
    requires forall p :: Lookup(a, p) == Lookup(b, p)
    ensures a == b
  {
    assert forall p | p in a || p in b :: Lookup(a, p) == Lookup(b, p);
  }

  /** Files under a path replaced by a staged one. */
  function Moved(files: Files, from: Path, to: Path): Files
    requires from in files
  {
    files[to := files[from]] - {from}
  }

  lemma MovedFiles(at: nat, own: bool, was: Files, from: Path, to: Path)
    requires from in was && from.place.Staging? && to.place.Published?
    ensures var now := Moved(was, from, to);
            && Lookup(now, to) == Lookup(was, from) && Lookup(now, from) == None
            && (forall p | p !in {from, to} :: Lookup(now, p) == Lookup(was, p))
            && Keeps(Step(at, own, was, now), {to})
            && (forall p | p in now && p !in was :: p == to)
  {
  }

  class Server {
    const faults: nat -> Fault
    const rivals: nat -> Option<Rival>
    ghost const origin: Files
    var clock: nat
    var files: Files
    var stages: set<Place>
    /** Every change since `origin`. */
    ghost var log: seq<Step>
    /** Replacements of fixed files that the connection may make since `mark`. */
    ghost var swaps: Step -> bool
    ghost var mark: nat

    ghost predicate Quiet() { forall k :: rivals(k).None? }

    /** No rival writes at the requests from `from` up to `to`. */
    ghost predicate Undisturbed(from: nat, to: nat) { forall k | from <= k < to :: rivals(k).None? }

    /** No request ever fails of itself. */
    ghost predicate Reliable() { forall k :: faults(k).Works? }

    /** None of the requests from `from` up to `to` fails of itself. */
    ghost predicate Unfailing(from: nat, to: nat) { forall k | from <= k < to :: faults(k).Works? }

    ghost predicate AtMostOneFault() { forall j, k | !faults(j).Works? && !faults(k).Works? :: j == k }

    /** Rivals write fixed files only; staged files live in made directories;
        the log is the whole history, and each change in it is a rival's, adds
        files or, since the mark, is an allowed replacement. */
    ghost predicate Valid()
      reads this
    {
      && (forall k | rivals(k).Some? :: FixedPath(rivals(k).value.path))
      && (forall p | p in files && p.place.Staging? :: p.place in stages)
      && mark <= |log|
      && (forall i | 0 <= i < |log| && !log[i].own :: RivalStep(rivals, log[i]))
      && (forall i | mark <= i < |log| && log[i].own :: Adds(log[i]) || swaps(log[i]))
      && Continuous(origin, log, files)
    }

    constructor (faults: nat -> Fault, rivals: nat -> Option<Rival>, files: Files, stages: set<Place>)
      requires forall p | p in files && p.place.Staging? :: p.place in stages
      requires forall k | rivals(k).Some? :: FixedPath(rivals(k).value.path)
      ensures Valid() && this.files == files && this.stages == stages && log == [] && origin == files
      ensures this.faults == faults && this.rivals == rivals && clock == 0
    {
      this.faults, this.rivals, this.files, this.stages, clock := faults, rivals, files, stages, 0;
      swaps, origin, log, mark := s => false, files, [], 0;
    }

    /** From now on these replacements are allowed. */
    ghost method Allow(swaps: Step -> bool)
      requires Valid()
      modifies `swaps, `mark
      ensures Valid() && this.swaps == swaps && mark == |log|
    {
      this.swaps, mark := swaps, |log|;
    }

    /** No replacement of a fixed file was made through the connection. */
    twostate predicate NoSwap()
      reads `log
    {
      forall i | |old(log)| <= i < |log| && log[i].own :: Adds(log[i])
    }

    ghost predicate Empty(place: Place)
      reads `files
    {
      forall p: Path | p.place == place :: Lookup(files, p) == None
    }

    /** What the next request finds. */
    ghost function Upcoming(): Files
      reads this
    {
      Rivaled(files, rivals(clock))
    }

    /** But for the named ones, files change only while a rival is about. */
    twostate predicate Still(changed: set<Path>)
      reads `clock, `files
    {
      && old(clock) <= clock
      && (Undisturbed(old(clock), clock) ==> forall p | p !in changed :: Lookup(files, p) == Lookup(old(files), p))
    }

    /** Only the named files can differ from before; rivals may have written fixed ones. */
    twostate predicate Beside(changed: set<Path>)
      reads this
    {
      && Valid() && stages == old(stages) && old(log) <= log && mark == old(mark) && swaps == old(swaps)
      && (forall p | p !in changed && (Quiet() || !FixedPath(p)) :: Lookup(files, p) == Lookup(old(files), p))
      && Still(changed)
    }

    method Arrive() returns (fault: Fault)
      requires Valid()
      modifies `clock, `files, `log
      ensures Valid() && clock == old(clock) + 1 && files == old(Upcoming())
      ensures Beside({}) && (Reliable() ==> fault.Works?) && fault == faults(old(clock))
      ensures forall i | |old(log)| <= i < |log| :: !log[i].own
    {
      if rivals(clock).Some? {
        log := log + [Step(clock, false, files, Rivaled(files, rivals(clock)))];
      }
      files := Rivaled(files, rivals(clock));
      fault := faults(clock);
      clock := clock + 1;
    }

    method Read(path: Path) returns (r: Result<Option<Bytes>, Error>)
      requires Valid()
      modifies `clock, `files, `log
      ensures Beside({}) && NoSwap()
      ensures r.Ok? ==> r.value == Lookup(files, path)
      ensures files == old(Upcoming()) && clock == old(clock) + 1
      ensures r.Err? ==> r.error == Io && !Reliable()
    {
      var fault := Arrive();
      r := if fault.Works? then Ok(Lookup(files, path)) else Err(Io);
    }

    /** Reads a file that must be there. */
    method ReadPresent(path: Path) returns (r: Result<Bytes, Error>)
      requires Valid()
      modifies `clock, `files, `log
      ensures Beside({}) && NoSwap()
      ensures r.Ok? ==> Lookup(files, path) == Some(r.value)
      ensures r.Ok? <==> faults(old(clock)).Works? && path in files
      ensures files == old(Upcoming()) && clock == old(clock) + 1
      ensures r.Err? ==> r.error == Io && (Reliable() ==> Lookup(files, path) == None)
    {
      var fault := Arrive();
      r := if fault.Works? && path in files then Ok(files[path]) else Err(Io);
    }

    method MakeDirectory(place: Place) returns (r: Result<(), Error>)
      requires Valid() && place.Staging?
      modifies `clock, `files, `stages, `log
      ensures Valid() && old(log) <= log && NoSwap() && Still({}) && clock == old(clock) + 1
      ensures forall s | s != place :: s in stages <==> s in old(stages)
      ensures forall p | Quiet() || !FixedPath(p) :: Lookup(files, p) == Lookup(old(files), p)
      ensures r.Ok? ==> place in stages && Empty(place) && place !in old(stages)
      ensures r.Err? ==> r.error == Io && (Reliable() || faults(old(clock)).Works? ==> place in old(stages))
    {
      var fault := Arrive();
      if fault.FailsBefore? || place in stages {
        return Err(Io);
      }
      stages := stages + {place};
      r := if fault.Works? then Ok(()) else Err(Io);
    }

    /** Only ever called on an empty directory. */
    method RemoveDirectory(place: Place) returns (r: Result<(), Error>)
      requires Valid() && place.Staging? && Empty(place)
      modifies `clock, `files, `stages, `log
      ensures Valid() && old(log) <= log && NoSwap() && Still({}) && clock == old(clock) + 1
      ensures forall s | s != place :: s in stages <==> s in old(stages)
      ensures forall p | Quiet() || !FixedPath(p) :: Lookup(files, p) == Lookup(old(files), p)
      ensures r.Err? ==> r.error == Io && !Reliable()
    {
      var fault := Arrive();
      if fault.FailsBefore? {
        return Err(Io);
      }
      stages := stages - {place};
      r := if fault.Works? then Ok(()) else Err(Io);
    }

    method Record(now: Files)
      requires Valid() && (forall p | p in now && p.place.Staging? :: p.place in stages)
      requires clock > 0 && var s := Step(clock - 1, true, files, now); Adds(s) || swaps(s)
      modifies `files, `log
      ensures Valid() && files == now && log == old(log) + [Step(clock - 1, true, old(files), now)]
    {
      log := log + [Step(clock - 1, true, files, now)];
      files := now;
    }

    method Write(path: Path, value: Bytes) returns (r: Result<(), Error>)
      requires Valid() && path.place in stages && path.place.Staging?
      modifies `clock, `files, `log
      ensures Beside({path}) && NoSwap() && clock == old(clock) + 1
      ensures r.Ok? ==> Lookup(files, path) == Some(value)
      ensures r.Err? ==> r.error == Io && !Reliable() && !faults(old(clock)).Works?
    {
      var fault := Arrive();
      if fault.FailsBefore? {
        return Err(Io);
      }
      var part := if fault.Works? then value else value[..Min(fault.kept, |value|)];
      Record(files[path := part]);
      r := if fault.Works? then Ok(()) else Err(Io);
    }

    method Remove(path: Path) returns (r: Result<(), Error>)
      requires Valid() && path.place.Staging?
      modifies `clock, `files, `log
      ensures Beside({path}) && NoSwap() && clock == old(clock) + 1
      ensures r.Ok? ==> path !in files && path in old(files)
      ensures r.Err? ==> r.error == Io && (Reliable() ==> path !in old(files))
    {
      hide Continuous, RivalStep;
      var fault := Arrive();
      if fault.FailsBefore? || path !in files {
        return Err(Io);
      }
      Record(files - {path});
      r := if fault.Works? then Ok(()) else Err(Io);
    }

    /** Plain rename: refused when the new name exists. */
    method Rename(from: Path, to: Path) returns (r: Result<(), Error>)
      requires Valid() && from.place.Staging? && to.place.Published? && !FixedPath(to)
      modifies `clock, `files, `log
      ensures Beside({from, to}) && NoSwap() && clock == old(clock) + 1
      ensures r.Ok? ==> to !in old(files) && from !in files && Lookup(files, to) == Lookup(old(files), from) != None
      ensures to in old(files) ==> Lookup(files, to) == Lookup(old(files), to)
      ensures r.Err? ==> r.error == Io && (Reliable() ==> to in old(files) || from !in old(files))
    {
      hide Continuous, RivalStep;
      var fault := Arrive();
      if fault.FailsBefore? || from !in files || to in files {
        return Err(Io);
      }
      Record(Moved(files, from, to));
      r := if fault.Works? then Ok(()) else Err(Io);
    }

    /** `posix_rename`: replaces the new name in one step. */
    method Replace(from: Path, to: Path) returns (r: Result<(), Error>)
      requires Valid() && from.place.Staging? && FixedPath(to)
      requires from in files ==> swaps(Step(clock, true, Upcoming(), Moved(Upcoming(), from, to)))
      modifies `clock, `files, `log
      ensures Beside({from, to}) && clock == old(clock) + 1
      ensures forall p | p !in {from, to} :: Lookup(files, p) == Lookup(old(Upcoming()), p)
      ensures forall i | |old(log)| <= i < |log| && log[i].own ::
                from in old(files) && log[i] == Step(old(clock), true, old(Upcoming()), Moved(old(Upcoming()), from, to))
      ensures Reliable() && from in old(files) ==> log != [] && log[|log| - 1] == Step(old(clock), true, old(Upcoming()), Moved(old(Upcoming()), from, to))
      ensures r.Ok? ==> from !in files && Lookup(files, to) == Lookup(old(files), from) != None
      ensures Quiet() && Lookup(files, to) != Lookup(old(files), to) ==> Lookup(files, to) == Lookup(old(files), from)
      ensures r.Err? ==> r.error == Io && (Reliable() || faults(old(clock)).Works? ==> from !in old(files))
    {
      hide Continuous, Adds, RivalStep;
      var fault := Arrive();
      if fault.FailsBefore? || from !in files {
        return Err(Io);
      }
      Record(Moved(files, from, to));
      r := if fault.Works? then Ok(()) else Err(Io);
    }
  }

  /** From `origin` to `files`, each logged step starts where the last ended. */
  ghost predicate Continuous(origin: Files, log: seq<Step>, files: Files) {
    && (forall i, j | 0 <= i && j == i + 1 < |log| :: log[j].was == log[i].now)
    && (if log == [] then files == origin else log[0].was == origin && log[|log| - 1].now == files)
  }

  /** What was added to a log goes on from where it stood. */
  lemma Suffix(origin: Files, before: seq<Step>, middle: Files, log: seq<Step>, files: Files)
    requires Continuous(origin, before, middle) && before <= log && Continuous(origin, log, files)
    ensures Continuous(middle, log[|before|..], files)
  {
    var k := |before|;
    assert before == log[..k];
    if 0 < k < |log| {
      assert log[k].was == log[k - 1].now;
    }
  }

  lemma Joined(origin: Files, first: seq<Step>, middle: Files, second: seq<Step>, files: Files)
    requires Continuous(origin, first, middle) && Continuous(middle, second, files)
    ensures Continuous(origin, first + second, files)
  {
  }

  /** A rival left `value` under a path. */
  ghost predicate RivalWrote(steps: seq<Step>, p: Path, value: Option<Bytes>) {
    exists i | 0 <= i < |steps| :: !steps[i].own && Lookup(steps[i].now, p) == value
  }

  predicate Leaves(s: Step, p: Path) { Lookup(s.now, p) == Lookup(s.was, p) }

  lemma AddsLeaves(s: Step, p: Path)
    requires Adds(s) && FixedPath(p)
    ensures Leaves(s, p)
  {
    assert p in s.was ==> p in s.now && s.now[p] == s.was[p];
  }

  /** A fixed file is what it was, what the connection put there, or what a
      rival left. */
  lemma {:induction false} FixedFileSources(origin: Files, steps: seq<Step>, files: Files, p: Path, value: Option<Bytes>)
    requires Continuous(origin, steps, files) && FixedPath(p)
    requires forall i | 0 <= i < |steps| && steps[i].own :: Leaves(steps[i], p) || Lookup(steps[i].now, p) == value
    ensures Lookup(files, p) == Lookup(origin, p) || Lookup(files, p) == value || RivalWrote(steps, p, Lookup(files, p))
    decreases |steps|
  {
    if steps != [] {
      var k := |steps| - 1;
      var last := steps[k];
      if last.own && Leaves(last, p) {
        FixedFileSources(origin, steps[..k], last.was, p, value);
        assert forall i | 0 <= i < k :: steps[..k][i] == steps[i];
      }
    }
  }

  /** What a replacement at that moment finds. */
  function FoundWith(r: Option<Rival>, p: Path, value: Option<Bytes>): Option<Bytes> {
    if r.Some? && r.value.path == p then r.value.value else value
  }

  /** What is there after so many requests that leave the path alone. */
  function After(rivals: nat -> Option<Rival>, from: nat, count: nat, p: Path, value: Option<Bytes>): Option<Bytes> {
    if count == 0 then value else FoundWith(rivals(from + count - 1), p, After(rivals, from, count - 1, p, value))
  }

  lemma RivaledLookup(files: Files, r: Option<Rival>, p: Path)
    ensures Lookup(Rivaled(files, r), p) == FoundWith(r, p, Lookup(files, p))
  {
  }

  lemma UpcomingFiles(sftp: Server)
    requires sftp.Valid()
    ensures forall p | sftp.rivals(sftp.clock).None? || !FixedPath(p) :: Lookup(sftp.Upcoming(), p) == Lookup(sftp.files, p)
  {
    assert sftp.rivals(sftp.clock).Some? ==> FixedPath(sftp.rivals(sftp.clock).value.path);
  }

  /** `value` is in place, but for what a rival wrote after the first `from` changes. */
  ghost predicate Settled(sftp: Server, from: nat, p: Path, value: Option<Bytes>)
    reads sftp`log, sftp`files
  {
    from <= |sftp.log| && (Lookup(sftp.files, p) == value || RivalWrote(sftp.log[from..], p, Lookup(sftp.files, p)))
  }

  lemma SettledEarlier(sftp: Server, from: nat, later: nat, p: Path, value: Option<Bytes>)
    requires from <= later && Settled(sftp, later, p, value)
    ensures Settled(sftp, from, p, value)
  {
    var log := sftp.log;
    if Lookup(sftp.files, p) != value {
      var i :| 0 <= i < |log[later..]| && !log[later..][i].own && Lookup(log[later..][i].now, p) == Lookup(sftp.files, p);
      assert log[from..][i + later - from] == log[later..][i];
    }
  }

  /** Once there, it is settled until the connection replaces it. */
  lemma SettledAfter(sftp: Server, before: seq<Step>, middle: Files, p: Path, value: Option<Bytes>)
    requires sftp.Valid() && before <= sftp.log && Continuous(sftp.origin, before, middle)
    requires Lookup(middle, p) == value && FixedPath(p)
    requires forall i | |before| <= i < |sftp.log| && sftp.log[i].own :: Leaves(sftp.log[i], p) || Lookup(sftp.log[i].now, p) == value
    ensures Settled(sftp, |before|, p, value)
  {
    Suffix(sftp.origin, before, middle, sftp.log, sftp.files);
    FixedFileSources(middle, sftp.log[|before|..], sftp.files, p, value);
  }

  lemma Whence(sftp: Server)
    requires sftp.Valid()
    ensures Continuous(sftp.origin, sftp.log, sftp.files)
  {
  }

  /** What is settled stays so until the connection replaces it. */
  lemma SettledStays(sftp: Server, from: nat, before: seq<Step>, middle: Files, p: Path, value: Option<Bytes>)
    requires sftp.Valid() && from <= |before| && before <= sftp.log && Continuous(sftp.origin, before, middle) && FixedPath(p)
    requires Lookup(middle, p) == value || RivalWrote(before[from..], p, Lookup(middle, p))
    requires forall i | |before| <= i < |sftp.log| && sftp.log[i].own :: Leaves(sftp.log[i], p)
    ensures Settled(sftp, from, p, value)
  {
    var now := Lookup(sftp.files, p);
    Suffix(sftp.origin, before, middle, sftp.log, sftp.files);
    FixedFileSources(middle, sftp.log[|before|..], sftp.files, p, Lookup(middle, p));
    var all, old', new' := sftp.log[from..], before[from..], sftp.log[|before|..];
    if now == Lookup(middle, p) {
      if now != value {
        var i :| 0 <= i < |old'| && !old'[i].own && Lookup(old'[i].now, p) == now;
        assert all[i] == old'[i];
      }
    } else {
      var i :| 0 <= i < |new'| && !new'[i].own && Lookup(new'[i].now, p) == now;
      assert all[i + |before| - from] == new'[i];
    }
  }

  /** Nothing but additions leaves every fixed file. */
  lemma NoSwapLeaves(log: seq<Step>, from: nat, p: Path)
    requires FixedPath(p) && forall i | from <= i < |log| && log[i].own :: Adds(log[i])
    ensures forall i | from <= i < |log| && log[i].own :: Leaves(log[i], p)
  {
    forall i | from <= i < |log| && log[i].own ensures Leaves(log[i], p) {
      AddsLeaves(log[i], p);
    }
  }
}
