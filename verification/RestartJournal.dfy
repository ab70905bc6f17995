/** Evidence kept across a controlled restart: an image whose magic is written
    last, and an A/B journal of two images
    (include/RestartEvidenceRetention.h). Clearing an image is taken to run
    from its first field, the magic, on. */
module RestartJournal {
  import opened Wrappers
  import opened Words

  type Record = seq<byte>

  /** The template parameters: capacity, record size, magic, version, validator. */
  datatype Config = Config(capacity: nat, recordSize: nat, magic: u32, version: u16, accepts: Record -> bool) {
    ghost predicate Valid() { 0 < capacity < 0x1_0000 && magic != 0 }
  }

  /** The value of an image. */
  datatype Slot = Slot(magic: u32, version: u16, count: u16, checksum: u32, generation: u32, records: seq<Record>)

  function ZeroRecord(c: Config): Record { seq(c.recordSize, i => 0) }

  function ClearedSlot(c: Config): Slot { Slot(0, 0, 0, 0, 0, seq(c.capacity, i => ZeroRecord(c))) }

  // ---------- Checksum ----------

  function Little(x: nat, n: nat): (b: seq<byte>)
    ensures |b| == n
  {
    if n == 0 then [] else [x % 256] + Little(x / 256, n - 1)
  }

  function Flatten(records: seq<Record>): seq<byte> {
    if records == [] then [] else Flatten(records[..|records| - 1]) + records[|records| - 1]
  }

  /** The image in memory. */
  function Raw(s: Slot): seq<byte> {
    Little(s.magic, 4) + Little(s.version, 2) + Little(s.count, 2) + Little(s.checksum, 4) + Little(s.generation, 4)
    + Flatten(s.records)
  }

  function Pow2(n: nat): nat { if n == 0 then 1 else 2 * Pow2(n - 1) }

  /** Exclusive or of the lowest `n` bits. */
  function Xor(a: nat, b: nat, n: nat): (x: nat)
    ensures x < Pow2(n)
  {
    if n == 0 then 0 else (if a % 2 == b % 2 then 0 else 1) + 2 * Xor(a / 2, b / 2, n - 1)
  }

  function Xor8(a: byte, b: byte): byte {
    assert Pow2(8) == 256;
    Xor(a, b, 8)
  }

  /** Exclusive or with a byte changes the low byte only. */
  function Mix(hash: u32, value: byte): u32 { hash - hash % 256 + Xor8(hash % 256, value) }

  function Times(hash: u32): u32 { Wrap32(hash * 16777619) }

  function Absorb(hash: u32, value: byte): u32 { Times(Mix(hash, value)) }

  /** 32-bit FNV-1a. */
  function Fnv(bytes: seq<byte>): u32 {
    if bytes == [] then 2166136261 else Absorb(Fnv(bytes[..|bytes| - 1]), bytes[|bytes| - 1])
  }

  /** Sum of the image as if committed, with a zero checksum field: the two
      fields written last do not count. */
  function ChecksumOf(c: Config, s: Slot): u32 { Fnv(Raw(s.(magic := c.magic, checksum := 0))) }

  method Checksum(c: Config, s: Slot) returns (sum: u32)
    ensures sum == ChecksumOf(c, s)
  {
    var bytes, magicBytes := Raw(s), Little(c.magic, 4);
    ghost var covered := Raw(s.(magic := c.magic, checksum := 0));
    RawBytes(c, s);
    hide Raw, Little, Flatten, Absorb;
    var hash: u32 := 2166136261;
    var index := 0;
    while index < |bytes|
      invariant 0 <= index <= |bytes| && hash == Fnv(covered[..index])
    {
      var value := if index < 4 then magicBytes[index] else if 8 <= index < 12 then 0 else bytes[index];
      assert covered[..index + 1][..index] == covered[..index];
      hash := Absorb(hash, value);
      index := index + 1;
    }
    assert covered[..index] == covered;
    sum := hash;
  }

  /** The bytes summed are those of the image but for the two fields. */
  lemma RawBytes(c: Config, s: Slot)
    ensures var covered := Raw(s.(magic := c.magic, checksum := 0));
            && |covered| == |Raw(s)| >= 16
            && forall i | 0 <= i < |covered| ::
                 covered[i] == if i < 4 then Little(c.magic, 4)[i] else if 8 <= i < 12 then 0 else Raw(s)[i]
  {
    var covered := Raw(s.(magic := c.magic, checksum := 0));
    assert Little(0, 4) == [0, 0, 0, 0] by {
      assert Little(0, 1) == [0] && Little(0, 2) == [0, 0] && Little(0, 3) == [0, 0, 0];
    }
    hide Little, Flatten;
  }

  // ---------- Validity and choice ----------

  predicate IsValid(c: Config, s: Slot) {
    && s.magic == c.magic && s.version == c.version && 0 < s.count <= c.capacity
    && s.checksum == ChecksumOf(c, s)
    && s.count <= |s.records| && forall i | 0 <= i < s.count :: c.accepts(s.records[i])
  }

  /** Serial-number comparison, as in section 3.2 of RFC 1982. */
  predicate GenerationIsNewer(candidate: u32, reference: u32) {
    var distance := Sub32(candidate, reference);
    distance != 0 && distance < 0x8000_0000
  }

  datatype Pair = Pair(first: Slot, second: Slot) {
    function At(index: nat): Slot
      requires index < 2
    {
      if index == 0 then first else second
    }

    function With(index: nat, s: Slot): Pair
      requires index < 2
    {
      if index == 0 then Pair(s, second) else Pair(first, s)
    }
  }

  function NewestValid(c: Config, j: Pair): (r: Option<nat>)
    ensures r.Some? ==> r.value < 2 && IsValid(c, j.At(r.value))
  {
    if !IsValid(c, j.first) && !IsValid(c, j.second) then None
    else if !IsValid(c, j.second) then Some(0)
    else if !IsValid(c, j.first) then Some(1)
    else Some(if GenerationIsNewer(j.second.generation, j.first.generation) then 1 else 0)
  }

  /** What a restart restores. */
  function Restored(c: Config, j: Pair): Option<seq<Record>> {
    var index := NewestValid(c, j);
    if index.None? then None else Some(j.At(index.value).records[..j.At(index.value).count])
  }

  function Destination(c: Config, j: Pair): (d: nat)
    ensures d < 2
  {
    var active := NewestValid(c, j);
    if active.None? then 0 else 1 - active.value
  }

  function NextGeneration(c: Config, j: Pair): u32 {
    var active := NewestValid(c, j);
    if active.None? then 1 else Wrap32(j.At(active.value).generation + 1)
  }

  // ---------- Saving ----------

  /** The `count` records of a ring from `head` on. */
  function Fifo(ring: seq<Record>, head: nat, count: nat): (f: seq<Record>)
    requires |ring| > 0
    ensures |f| == count && forall i | 0 <= i < count :: f[i] == ring[(head + i) % |ring|]
  {
    seq(count, i requires 0 <= i < count => ring[(head + i) % |ring|])
  }

  function Unsummed(c: Config, fifo: seq<Record>, generation: u32): Slot
    requires |fifo| <= c.capacity < 0x1_0000
  {
    Slot(0, c.version, |fifo|, 0, generation, fifo + seq(c.capacity - |fifo|, i => ZeroRecord(c)))
  }

  /** The image of a committed FIFO. */
  function Committed(c: Config, fifo: seq<Record>, generation: u32): Slot
    requires |fifo| <= c.capacity < 0x1_0000
  {
    var s := Unsummed(c, fifo, generation);
    s.(magic := c.magic, checksum := ChecksumOf(c, s))
  }

  predicate Savable(c: Config, fifo: seq<Record>) {
    0 < |fifo| <= c.capacity && forall r | r in fifo :: c.accepts(r)
  }

  lemma CommittedIsValid(c: Config, fifo: seq<Record>, generation: u32)
    requires c.Valid() && Savable(c, fifo)
    ensures IsValid(c, Committed(c, fifo, generation))
    ensures Committed(c, fifo, generation).records[..|fifo|] == fifo
  {
    var s := Unsummed(c, fifo, generation);
    var committed := Committed(c, fifo, generation);
    assert committed.(magic := c.magic, checksum := 0) == s.(magic := c.magic, checksum := 0);
    forall i | 0 <= i < committed.count ensures c.accepts(committed.records[i]) {
      assert committed.records[i] == fifo[i] && fifo[i] in fifo;
    }
    hide ChecksumOf;
  }

  class Image {
    const config: Config
    const records: array<Record>
    var magic: u32
    var version: u16
    var count: u16
    var checksum: u32
    var generation: u32
    /** The value after every single write. */
    ghost var trace: seq<Slot>

    ghost predicate Valid() { config.Valid() && records.Length == config.capacity }

    ghost function Model(): Slot
      reads this, records
    {
      Slot(magic, version, count, checksum, generation, records[..])
    }

    constructor (c: Config)
      requires c.Valid()
      ensures Valid() && config == c && Model() == ClearedSlot(c) && trace == [] && fresh(records)
    {
      config := c;
      records := new Record[c.capacity](i => ZeroRecord(c));
      magic, version, count, checksum, generation := 0, 0, 0, 0, 0;
      trace := [];
      new;
      assert records[..] == ClearedSlot(c).records;
    }

    ghost method Note()
      modifies `trace
      ensures trace == old(trace) + [Model()]
    {
      trace := trace + [Model()];
    }

    /** Everything noted since `from` was without magic. */
    ghost predicate Uncommitted(from: nat)
      reads `trace
    {
      from <= |trace| && forall k | from <= k < |trace| :: trace[k].magic == 0
    }

    method Clear()
      requires Valid()
      modifies this, records
      ensures Model() == ClearedSlot(config)
      ensures old(trace) <= trace && Uncommitted(|old(trace)|)
    {
      magic := 0;
      Note();
      version := 0;
      Note();
      count := 0;
      Note();
      checksum := 0;
      Note();
      generation := 0;
      Note();
      var index := 0;
      while index < records.Length
        invariant 0 <= index <= records.Length
        invariant (magic, version, count, checksum, generation) == (0, 0, 0, 0, 0)
        invariant forall i | 0 <= i < index :: records[i] == ZeroRecord(config)
        invariant old(trace) <= trace && Uncommitted(|old(trace)|)
      {
        records[index] := ZeroRecord(config);
        Note();
        index := index + 1;
      }
      assert |records[..]| == config.capacity;
      assert records[..] == ClearedSlot(config).records;
    }

    method Usable() returns (usable: bool)
      requires Valid()
      ensures usable <==> IsValid(config, Model())
    {
      var s := Slot(magic, version, count, checksum, generation, records[..]);
      if magic != config.magic || version != config.version || count == 0 || count > config.capacity {
        return false;
      }
      var sum := Checksum(config, s);
      if checksum != sum {
        return false;
      }
      var index := 0;
      while index < count
        invariant 0 <= index <= count && forall i | 0 <= i < index :: config.accepts(records[i])
      {
        if !config.accepts(records[index]) {
          return false;
        }
        index := index + 1;
      }
      usable := true;
    }

    /** Everything noted since `from` was without magic, or the new image whole. */
    ghost predicate Replacing(from: nat, fifo: seq<Record>, next: u32)
      requires Valid() && |fifo| <= config.capacity
      reads `trace
    {
      from <= |trace| && forall k | from <= k < |trace| :: trace[k].magic == 0 || trace[k] == Committed(config, fifo, next)
    }

    /** Copies the records into a cleared image. */
    method CopyRecords(ring: array<Record>, head: nat, n: nat, next: u32) returns (copied: bool)
      requires Valid() && ring.Length == config.capacity && ring != records && head < config.capacity && 0 < n <= config.capacity
      requires Model() == ClearedSlot(config)
      modifies this, records
      ensures old(trace) <= trace && Uncommitted(|old(trace)|)
      ensures copied <==> Savable(config, Fifo(ring[..], head, n))
      ensures Model() == if copied then Unsummed(config, Fifo(ring[..], head, n), next) else ClearedSlot(config)
    {
      ghost var fifo := Fifo(ring[..], head, n);
      version := config.version;
      Note();
      count := n;
      Note();
      generation := next;
      Note();
      var index := 0;
      while index < n
        invariant 0 <= index <= n
        invariant (magic, version, count, checksum, generation) == (0, config.version, n, 0, next)
        invariant forall i | 0 <= i < index :: records[i] == fifo[i] && config.accepts(fifo[i])
        invariant forall i | index <= i < records.Length :: records[i] == ZeroRecord(config)
        invariant old(trace) <= trace && Uncommitted(|old(trace)|) && ring[..] == old(ring[..])
      {
        var record := ring[(head + index) % ring.Length];
        assert record == fifo[index];
        if !config.accepts(record) {
          assert fifo[index] in fifo;
          Clear();
          return false;
        }
        records[index] := record;
        Note();
        index := index + 1;
      }
      assert records[..] == Unsummed(config, fifo, next).records;
      copied := true;
    }

    /** Replaces the image; the magic is the last write. */
    method Save(ring: array<Record>, head: nat, n: nat, next: u32) returns (saved: bool)
      requires Valid() && ring.Length == config.capacity && ring != records
      modifies this, records
      ensures saved <==> head < config.capacity && Savable(config, Fifo(ring[..], head, n))
      ensures saved ==> Model() == Committed(config, Fifo(ring[..], head, n), next)
      ensures !saved ==> Uncommitted(|old(trace)|) && (Model() == old(Model()) || Model().magic == 0)
      ensures old(trace) <= trace
      ensures n <= config.capacity ==> Replacing(|old(trace)|, Fifo(ring[..], head, n), next)
    {
      if n == 0 || n > config.capacity || head >= config.capacity {
        return false;
      }
      Clear();
      ghost var fifo := Fifo(ring[..], head, n);
      hide ClearedSlot, ChecksumOf, Fifo, ZeroRecord;
      var copied := CopyRecords(ring, head, n, next);
      if !copied {
        return false;
      }
      var sum := Checksum(config, Slot(magic, version, count, checksum, generation, records[..]));
      checksum := sum;
      Note();
      magic := config.magic;
      Note();
      CommittedIsValid(config, fifo, next);
      saved := Usable();
    }
  }

  class Journal {
    const config: Config
    const first: Image
    const second: Image

    ghost predicate Valid()
      reads this
    {
      && first.Valid() && second.Valid() && first.config == second.config == config
      && first != second && first.records != second.records
    }

    ghost function Model(): Pair
      reads first, second, first.records, second.records
    {
      Pair(first.Model(), second.Model())
    }

    constructor (c: Config)
      requires c.Valid()
      ensures Valid() && config == c && Model() == Pair(ClearedSlot(c), ClearedSlot(c))
    {
      config := c;
      first := new Image(c);
      second := new Image(c);
    }

    method NewestIndex() returns (index: Option<nat>)
      requires Valid()
      ensures index == NewestValid(config, Model())
    {
      var firstValid := first.Usable();
      var secondValid := second.Usable();
      if !firstValid && !secondValid {
        return None;
      }
      if !secondValid {
        return Some(0);
      }
      if !firstValid {
        return Some(1);
      }
      index := Some(if GenerationIsNewer(second.generation, first.generation) then 1 else 0);
    }

    function ImageAt(index: nat): Image
      requires index < 2
      reads this
    {
      if index == 0 then first else second
    }

    /** Every write of a save went to its destination through a reachable state. */
    twostate predicate Passed(fifo: seq<Record>)
      requires old(Valid())
      reads this, first, second, first.records, second.records
    {
      var before := old(Model());
      var d := Destination(config, before);
      && Model() == before.With(d, Model().At(d))
      && old(ImageAt(d).trace) <= ImageAt(d).trace
      && forall k | |old(ImageAt(d).trace)| <= k < |ImageAt(d).trace| ::
           Reachable(config, before, fifo, before.With(d, ImageAt(d).trace[k]))
    }

    /** Writes only the slot that restores nothing. */
    method SaveJournal(ring: array<Record>, head: nat, n: nat) returns (saved: bool)
      requires Valid() && ring.Length == config.capacity && ring != first.records && ring != second.records
      modifies first, second, first.records, second.records
      ensures Valid() && Passed(Fifo(ring[..], head, n))
      ensures Reachable(config, old(Model()), Fifo(ring[..], head, n), Model())
      ensures saved <==> head < config.capacity && Savable(config, Fifo(ring[..], head, n))
      ensures saved ==> Model() == Next(config, old(Model()), Fifo(ring[..], head, n))
    {
      hide IsValid, Committed, ClearedSlot, GenerationIsNewer, Adjacent;
      var active := NewestIndex();
      var destination := if active.Some? then 1 - active.value else 0;
      var generation := if active.None? then 1 else Wrap32(ImageAt(active.value).generation + 1);
      var image := ImageAt(destination);
      var written := image.Save(ring, head, n, generation);
      ghost var before := old(Model());
      forall k | |old(image.trace)| <= k < |image.trace|
        ensures Reachable(config, before, Fifo(ring[..], head, n), before.With(destination, image.trace[k]))
      {
        var t := image.trace[k];
        assert before.With(destination, t).At(destination) == t;
      }
      assert Model() == before.With(destination, Model().At(destination));
      if !written {
        return false;
      }
      SavedIsNewest(config, old(Model()), Fifo(ring[..], head, n));
      var committed := NewestIndex();
      saved := committed == Some(destination);
    }
  }

  /** Copies the newest valid FIFO to the front of a ring. */
  method RestoreNewest(j: Journal, ring: array<Record>) returns (count: Option<nat>)
    requires j.Valid() && ring.Length == j.config.capacity && ring != j.first.records && ring != j.second.records
    modifies ring
    ensures count.Some? <==> Restored(j.config, j.Model()).Some?
    ensures count.Some? ==> count.value <= ring.Length && ring[..count.value] == Restored(j.config, j.Model()).value
    ensures count.None? ==> ring[..] == old(ring[..])
    ensures j.Model() == old(j.Model())
  {
    var index := j.NewestIndex();
    if index.None? {
      return None;
    }
    var image := j.ImageAt(index.value);
    var i := 0;
    while i < image.count
      invariant 0 <= i <= image.count <= ring.Length
      invariant ring[..i] == image.records[..i]
      invariant j.Model() == old(j.Model())
    {
      ring[i] := image.records[i];
      i := i + 1;
    }
    count := Some(image.count);
  }

  lemma SavedIsNewest(c: Config, j: Pair, fifo: seq<Record>)
    requires c.Valid() && Savable(c, fifo)
    ensures NewestValid(c, Next(c, j, fifo)) == Some(Destination(c, j))
  {
    CommittedSaves(c, j, fifo);
  }

  /** The journal once `fifo` is committed. */
  function Next(c: Config, j: Pair, fifo: seq<Record>): Pair
    requires |fifo| <= c.capacity < 0x1_0000
  {
    j.With(Destination(c, j), Committed(c, fifo, NextGeneration(c, j)))
  }

  /** States a save of `fifo` passes through: untouched, its destination
      without magic, or committed. */
  ghost predicate Reachable(c: Config, j: Pair, fifo: seq<Record>, k: Pair) {
    || k == j
    || (k == j.With(Destination(c, j), k.At(Destination(c, j))) && k.At(Destination(c, j)).magic == 0)
    || (c.capacity < 0x1_0000 && Savable(c, fifo) && k == Next(c, j, fifo))
  }

  // ---------- What every interruption restores ----------

  /** Two valid images hold neighbouring generations. */
  ghost predicate Adjacent(c: Config, j: Pair) {
    IsValid(c, j.first) && IsValid(c, j.second) ==>
      j.second.generation == Wrap32(j.first.generation + 1) || j.first.generation == Wrap32(j.second.generation + 1)
  }

  lemma NeighbourIsNewer(g: u32)
    ensures GenerationIsNewer(Wrap32(g + 1), g) && !GenerationIsNewer(g, Wrap32(g + 1))
  {
  }

  /** Cutting a save anywhere restores the previous FIFO until the magic is
      written and the new one from then on, and keeps generations adjacent. */
  lemma CutRestoresOldOrNew(c: Config, j: Pair, fifo: seq<Record>, k: Pair)
    requires c.Valid() && Adjacent(c, j) && Reachable(c, j, fifo, k)
    ensures Adjacent(c, k)
    ensures Restored(c, k) == if Savable(c, fifo) && k == Next(c, j, fifo) then Some(fifo) else Restored(c, j)
  {
    var d := Destination(c, j);
    hide ChecksumOf;
    if Savable(c, fifo) && k == Next(c, j, fifo) {
      CommittedIsValid(c, fifo, NextGeneration(c, j));
      CommittedSaves(c, j, fifo);
      hide IsValid, Adjacent;
    } else if k != j {
      assert !IsValid(c, k.At(d));
    }
  }

  lemma CommittedSaves(c: Config, j: Pair, fifo: seq<Record>)
    requires c.Valid() && Savable(c, fifo)
    ensures NewestValid(c, Next(c, j, fifo)) == Some(Destination(c, j))
    ensures Adjacent(c, Next(c, j, fifo))
  {
    hide IsValid, Committed, Adjacent, GenerationIsNewer, Wrap32, ChecksumOf;
    CommittedIsValid(c, fifo, NextGeneration(c, j));
    GenerationOf(c, fifo, NextGeneration(c, j));
    SoleOrNext(c, Next(c, j, fifo), Destination(c, j));
  }

  /** A valid image alone, or one generation ahead of the other, is newest. */
  lemma SoleOrNext(c: Config, j: Pair, d: nat)
    requires d < 2 && IsValid(c, j.At(d))
    requires IsValid(c, j.At(1 - d)) ==> j.At(d).generation == Wrap32(j.At(1 - d).generation + 1)
    ensures NewestValid(c, j) == Some(d) && Adjacent(c, j)
  {
    hide IsValid, GenerationIsNewer, Wrap32;
    NeighbourIsNewer(j.At(1 - d).generation);
  }

  lemma GenerationOf(c: Config, fifo: seq<Record>, generation: u32)
    requires |fifo| <= c.capacity < 0x1_0000
    ensures Committed(c, fifo, generation).generation == generation
  {
  }

  /** One save, and the state a reset or its return left behind. */
  datatype Attempt = Attempt(fifo: seq<Record>, left: Pair)

  ghost predicate Attempts(c: Config, j: Pair, attempts: seq<Attempt>)
    decreases attempts
  {
    attempts == [] || (Reachable(c, j, attempts[0].fifo, attempts[0].left) && Attempts(c, attempts[0].left, attempts[1..]))
  }

  /** The FIFO of the last attempt that got as far as its magic. */
  ghost function LastCommitted(c: Config, j: Pair, known: Option<seq<Record>>, attempts: seq<Attempt>): Option<seq<Record>>
    requires c.Valid()
    decreases attempts
  {
    if attempts == [] then known
    else
      var a := attempts[0];
      LastCommitted(c, a.left, if Savable(c, a.fifo) && a.left == Next(c, j, a.fifo) then Some(a.fifo) else known, attempts[1..])
  }

  ghost function JournalAfter(j: Pair, attempts: seq<Attempt>): Pair {
    if attempts == [] then j else attempts[|attempts| - 1].left
  }

  /** Over any saves, rejected saves and cuts the newest committed FIFO is what
      a restart restores, across every wrap of the generation. */
  lemma {:induction false} RunRestoresLastCommitted(c: Config, j: Pair, attempts: seq<Attempt>)
    requires c.Valid() && Adjacent(c, j) && Attempts(c, j, attempts)
    ensures Adjacent(c, JournalAfter(j, attempts))
    ensures Restored(c, JournalAfter(j, attempts)) == LastCommitted(c, j, Restored(c, j), attempts)
    decreases attempts
  {
    if attempts != [] {
      hide Restored, Adjacent, Reachable, Next, IsValid, Savable;
      assert JournalAfter(j, attempts) == JournalAfter(attempts[0].left, attempts[1..]);
      CutRestoresOldOrNew(c, j, attempts[0].fifo, attempts[0].left);
      RunRestoresLastCommitted(c, attempts[0].left, attempts[1..]);
    }
  }

  lemma FromCleared(c: Config, attempts: seq<Attempt>)
    requires c.Valid() && Attempts(c, Pair(ClearedSlot(c), ClearedSlot(c)), attempts)
    ensures Restored(c, JournalAfter(Pair(ClearedSlot(c), ClearedSlot(c)), attempts))
            == LastCommitted(c, Pair(ClearedSlot(c), ClearedSlot(c)), None, attempts)
  {
    RunRestoresLastCommitted(c, Pair(ClearedSlot(c), ClearedSlot(c)), attempts);
  }

  // ---------- The volatile acknowledgement boundary ----------

  class Retention {
    const capacity: nat
    var retained: nat

    constructor (capacity: nat)
      ensures this.capacity == capacity && retained == 0
    {
      this.capacity, retained := capacity, 0;
    }

    method Retain(count: nat)
      modifies this
      ensures retained == if count <= capacity then count else 0
    {
      retained := if count <= capacity then count else 0;
    }

    method FrontRemoved() returns (acknowledged: bool)
      modifies this
      ensures (retained, acknowledged) == Removing(old(retained))
    {
      if retained == 0 {
        return false;
      }
      retained := retained - 1;
      acknowledged := retained == 0;
    }
  }

  function Removing(retained: nat): (nat, bool) {
    if retained == 0 then (0, false) else (retained - 1, retained == 1)
  }

  function AfterRemovals(retained: nat, removals: nat): nat {
    if removals == 0 then retained else Removing(AfterRemovals(retained, removals - 1)).0
  }

  /** Of all removals after retaining `n` records exactly the n-th acknowledges. */
  lemma {:induction false} AcknowledgedOnce(n: nat, removal: nat)
    requires removal > 0
    ensures AfterRemovals(n, removal) == if removal <= n then n - removal else 0
    ensures Removing(AfterRemovals(n, removal - 1)).1 <==> removal == n
  {
    if removal > 1 {
      AcknowledgedOnce(n, removal - 1);
    }
  }
}
