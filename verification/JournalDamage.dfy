/** What one damaged byte does to the restart journal
    (include/RestartEvidenceRetention.h): the image that holds it is no longer
    valid, whatever byte it is. */
module JournalDamage {
  import opened Wrappers
  import opened Words
  import opened RestartJournal

  // ---------- The image, byte by byte ----------

  /** Sixteen bytes before the records, each number from its low byte on. */
  lemma RawLayout(s: Slot)
    ensures Raw(s) == [s.magic % 256, s.magic / 256 % 256, s.magic / 0x1_0000 % 256, s.magic / 0x100_0000,
                       s.version % 256, s.version / 256, s.count % 256, s.count / 256,
                       s.checksum % 256, s.checksum / 256 % 256, s.checksum / 0x1_0000 % 256, s.checksum / 0x100_0000,
                       s.generation % 256, s.generation / 256 % 256, s.generation / 0x1_0000 % 256, s.generation / 0x100_0000]
                      + Flatten(s.records)
  {
    LittleTwo(s.version);
    LittleTwo(s.count);
    LittleFour(s.magic);
    LittleFour(s.checksum);
    LittleFour(s.generation);
    hide Little, Flatten;
  }

  lemma LittleTwo(x: u16)
    ensures Little(x, 2) == [x % 256, x / 256]
  {
    assert Little(x / 256, 1) == [x / 256 % 256] + Little(x / 256 / 256, 0);
  }

  lemma LittleFour(x: u32)
    ensures Little(x, 4) == [x % 256, x / 256 % 256, x / 0x1_0000 % 256, x / 0x100_0000]
  {
    LittleTwo(x / 0x1_0000);
    assert Little(x, 4) == [x % 256] + Little(x / 256, 3) && Little(x / 256, 3) == [x / 256 % 256] + Little(x / 256 / 256, 2);
    assert x / 256 / 256 == x / 0x1_0000 && x / 0x1_0000 / 256 == x / 0x100_0000;
  }

  /** A cleared image is zero throughout. */
  lemma ClearedIsZero(c: Config)
    ensures forall b | b in Raw(ClearedSlot(c)) :: b == 0
  {
    hide Raw, Flatten;
    var s := ClearedSlot(c);
    ZerosFlat(s.records);
    RawLayout(s);
    var head: seq<byte> := [0, 0, 0, 0, 0, 0, 0, 0, 0, 0, 0, 0, 0, 0, 0, 0];
    assert Raw(s) == head + Flatten(s.records);
  }

  lemma {:induction false} ZerosFlat(records: seq<Record>)
    requires forall i, k | 0 <= i < |records| && 0 <= k < |records[i]| :: records[i][k] == 0
    ensures forall b | b in Flatten(records) :: b == 0
  {
    if records != [] {
      ZerosFlat(records[..|records| - 1]);
    }
  }

  // ---------- The checksum ----------

  lemma FnvNext(bytes: seq<byte>, b: byte)
    ensures Fnv(bytes + [b]) == Absorb(Fnv(bytes), b)
  {
    hide Absorb;
    assert (bytes + [b])[..|bytes|] == bytes;
  }

  lemma KnownBits()
    ensures Xor8(197, 97) == 164
    ensures Xor8(197, 102) == 163
    ensures Xor8(153, 111) == 246
    ensures Xor8(66, 111) == 45
    ensures Xor8(215, 98) == 181
    ensures Xor8(239, 97) == 142
    ensures Xor8(138, 114) == 248
  {
  }

  lemma WrapIs(x: int, m: int, r: u32)
    requires x == m * 0x1_0000_0000 + r
    ensures Wrap32(x) == r
  {
  }

  lemma AbsorbBy(h: u32, b: byte, x: byte, m: nat, r: u32)
    requires Xor8(h % 256, b) == x && (h - h % 256 + x) * 16777619 == m * 0x1_0000_0000 + r
    ensures Absorb(h, b) == r
  {
    hide Xor8;
    WrapIs((h - h % 256 + x) * 16777619, m, r);
  }

  lemma KnownSteps()
    ensures Absorb(0x811c_9dc5, 97) == 0xe40c_292c
    ensures Absorb(0x811c_9dc5, 102) == 0xe30c_2799
    ensures Absorb(0xe30c_2799, 111) == 0x6222_e842
    ensures Absorb(0x6222_e842, 111) == 0xa9f3_7ed7
    ensures Absorb(0xa9f3_7ed7, 98) == 0x3f50_76ef
    ensures Absorb(0x3f50_76ef, 97) == 0x39aa_a18a
    ensures Absorb(0x39aa_a18a, 114) == 0xbf9c_f968
  {
    hide Xor8, Absorb;
    KnownBits();
    AbsorbBy(0x811c_9dc5, 97, 164, 8461672, 0xe40c_292c);
    AbsorbBy(0x811c_9dc5, 102, 163, 8461672, 0xe30c_2799);
    AbsorbBy(0xe30c_2799, 111, 246, 14880141, 0x6222_e842);
    AbsorbBy(0x6222_e842, 111, 45, 6431618, 0xa9f3_7ed7);
    AbsorbBy(0xa9f3_7ed7, 98, 181, 11138186, 0x3f50_76ef);
    AbsorbBy(0x3f50_76ef, 97, 142, 4149466, 0x39aa_a18a);
    AbsorbBy(0x39aa_a18a, 114, 248, 3779324, 0xbf9c_f968);
  }

  /** Published values of 32-bit FNV-1a: of nothing, of "a" and of "foobar". */
  lemma KnownChecksums()
    ensures Fnv([]) == 0x811c_9dc5 && Fnv([97]) == 0xe40c_292c && Fnv([102, 111, 111, 98, 97, 114]) == 0xbf9c_f968
  {
    hide Absorb;
    KnownSteps();
    FnvNext([], 97);
    FnvNext([], 102);
    FnvNext([102], 111);
    FnvNext([102, 111], 111);
    FnvNext([102, 111, 111], 98);
    FnvNext([102, 111, 111, 98], 97);
    FnvNext([102, 111, 111, 98, 97], 114);
    assert [] + [97] == [97] && [] + [102] == [102] && [102] + [111] == [102, 111] && [102, 111] + [111] == [102, 111, 111];
    assert [102, 111, 111] + [98] == [102, 111, 111, 98] && [102, 111, 111, 98] + [97] == [102, 111, 111, 98, 97];
    assert [102, 111, 111, 98, 97] + [114] == [102, 111, 111, 98, 97, 114];
  }

  /** 899433627 undoes the multiplication. */
  lemma TimesInjective(x: u32, y: u32)
    ensures Times(x) == Times(y) ==> x == y
  {
    TimesUndone(x);
    TimesUndone(y);
  }

  lemma TimesUndone(x: u32)
    ensures Wrap32(Times(x) * 899433627) == x
  {
    hide Wrap32;
    var a := x * 16777619 / 0x1_0000_0000;
    WrapIs(x * 16777619, a, x * 16777619 - a * 0x1_0000_0000);
    WrapIs(Times(x) * 899433627, x * 3513497 - a * 899433627, x);
  }

  lemma {:induction false} XorInjective(a: nat, b: nat, c: nat, n: nat)
    requires a < Pow2(n) && b < Pow2(n)
    ensures Xor(a, c, n) == Xor(b, c, n) ==> a == b
    ensures Xor(c, a, n) == Xor(c, b, n) ==> a == b
  {
    if n > 0 {
      XorInjective(a / 2, b / 2, c / 2, n - 1);
    }
  }

  lemma LowByte(h: u32, x: byte)
    ensures (h - h % 256 + x) / 256 == h / 256 && (h - h % 256 + x) % 256 == x
  {
  }

  lemma MixInjective(h: u32, a: byte, g: u32, b: byte)
    requires (h != g && a == b) || (h == g && a != b)
    ensures Mix(h, a) != Mix(g, b)
  {
    assert Pow2(8) == 256;
    hide Xor;
    XorInjective(h % 256, g % 256, a, 8);
    XorInjective(a, b, h % 256, 8);
    LowByte(h, Xor8(h % 256, a));
    LowByte(g, Xor8(g % 256, b));
  }

  /** Absorbing loses neither the sum so far nor the byte. */
  lemma AbsorbInjective(h: u32, a: byte, g: u32, b: byte)
    requires (h != g && a == b) || (h == g && a != b)
    ensures Absorb(h, a) != Absorb(g, b)
  {
    hide Mix, Times;
    MixInjective(h, a, g, b);
    TimesInjective(Mix(h, a), Mix(g, b));
  }

  /** Two texts that differ in one byte have different sums. */
  lemma {:induction false} OneByteChangesTheSum(a: seq<byte>, b: seq<byte>, i: nat)
    requires |a| == |b| && i < |a| && a[i] != b[i]
    requires forall k | 0 <= k < |a| && k != i :: a[k] == b[k]
    ensures Fnv(a) != Fnv(b)
  {
    hide Absorb;
    var n := |a| - 1;
    if i == n {
      assert a[..n] == b[..n];
    } else {
      OneByteChangesTheSum(a[..n], b[..n], i);
    }
    AbsorbInjective(Fnv(a[..n]), a[n], Fnv(b[..n]), b[n]);
  }

  // ---------- Valid images ----------

  /** What the checksum covers: the image with the magic as written and zeros
      for the checksum. */
  lemma SumCovers(c: Config, s: Slot)
    ensures |Raw(s)| >= 16
    ensures ChecksumOf(c, s) == Fnv(Little(c.magic, 4) + Raw(s)[4..8] + [0, 0, 0, 0] + Raw(s)[12..])
  {
    RawBytes(c, s);
    hide Raw, Little, Fnv;
    var (covered, bytes) := (Raw(s.(magic := c.magic, checksum := 0)), Raw(s));
    assert covered == Little(c.magic, 4) + bytes[4..8] + [0, 0, 0, 0] + bytes[12..];
  }

  /** A valid image has the magic and version of the build, one record to as
      many as fit, all accepted, and the sum of its own bytes. */
  lemma ValidMeans(c: Config, s: Slot)
    ensures |Raw(s)| >= 16
    ensures IsValid(c, s) <==>
              && s.magic == c.magic && s.version == c.version && 1 <= s.count && s.count <= c.capacity && s.count <= |s.records|
              && s.checksum == Fnv(Little(c.magic, 4) + Raw(s)[4..8] + [0, 0, 0, 0] + Raw(s)[12..])
              && forall i | 0 <= i < s.count :: c.accepts(s.records[i])
  {
    SumCovers(c, s);
    hide ChecksumOf, Fnv, Raw;
  }

  /** Position of a slot of the ring in the FIFO from `head` on. */
  function Place(k: nat, head: nat, size: nat): int { if k >= head then k - head else k + size - head }

  lemma PlaceOf(ring: seq<Record>, head: nat, n: nat, k: nat)
    requires head < |ring| && k < |ring| && Place(k, head, |ring|) < n
    ensures ring[k] in Fifo(ring, head, n)
  {
    var i := Place(k, head, |ring|);
    assert (head + i) % |ring| == k;
    assert Fifo(ring, head, n)[i] == ring[k];
  }

  lemma SlotOf(ring: seq<Record>, head: nat, n: nat, i: nat) returns (k: nat)
    requires head < |ring| && i < n <= |ring|
    ensures k < |ring| && Place(k, head, |ring|) < n && Fifo(ring, head, n)[i] == ring[k]
  {
    k := if head + i < |ring| then head + i else head + i - |ring|;
    assert (head + i) % |ring| == k;
  }

  /** From one record to the whole ring, each accepted. */
  lemma SavableMeans(c: Config, ring: seq<Record>, head: nat, n: nat)
    requires head < |ring| == c.capacity
    ensures Savable(c, Fifo(ring, head, n)) <==>
              1 <= n <= |ring| && forall k | 0 <= k < |ring| :: Place(k, head, |ring|) < n ==> c.accepts(ring[k])
  {
    hide Place;
    var fifo := Fifo(ring, head, n);
    if Savable(c, fifo) {
      forall k | 0 <= k < |ring| && Place(k, head, |ring|) < n ensures c.accepts(ring[k]) {
        PlaceOf(ring, head, n, k);
      }
    }
    if 1 <= n <= |ring| && forall k | 0 <= k < |ring| :: Place(k, head, |ring|) < n ==> c.accepts(ring[k]) {
      forall r | r in fifo ensures c.accepts(r) {
        var i :| 0 <= i < n && fifo[i] == r;
        var k := SlotOf(ring, head, n, i);
      }
    }
  }

  /** Newer means ahead by less than half the range, counted around it. */
  lemma NewerIsAhead(a: u32, b: u32)
    ensures GenerationIsNewer(a, b) <==> (b < a < b + 0x8000_0000 || a + 0x8000_0000 < b)
  {
  }

  // ---------- Damage ----------

  /** The image with one byte changed, wherever it is. */
  ghost predicate Damaged(s: Slot, t: Slot, i: nat) {
    |Raw(t)| == |Raw(s)| && i < |Raw(s)| && Raw(t)[i] != Raw(s)[i] && forall k | 0 <= k < |Raw(s)| && k != i :: Raw(t)[k] == Raw(s)[k]
  }

  lemma MagicDamaged(s: Slot, t: Slot, i: nat)
    requires Damaged(s, t, i) && i < 4
    ensures s.magic != t.magic
  {
    RawLayout(s);
    RawLayout(t);
    hide Raw, Flatten;
  }

  lemma ChecksumDamaged(c: Config, s: Slot, t: Slot, i: nat)
    requires Damaged(s, t, i) && 8 <= i < 12
    ensures s.checksum != t.checksum && ChecksumOf(c, s) == ChecksumOf(c, t)
  {
    RawLayout(s);
    RawLayout(t);
    SumCovers(c, s);
    SumCovers(c, t);
    hide Raw, Flatten, Fnv, ChecksumOf, Little;
    assert Raw(s)[4..8] == Raw(t)[4..8] && Raw(s)[12..] == Raw(t)[12..];
  }

  lemma ContentsDamaged(c: Config, s: Slot, t: Slot, i: nat)
    requires Damaged(s, t, i) && (4 <= i < 8 || 12 <= i)
    ensures s.checksum == t.checksum && ChecksumOf(c, s) != ChecksumOf(c, t)
  {
    ChecksumKept(s, t, i);
    RawBytes(c, s);
    RawBytes(c, t);
    hide Raw, Little, Fnv;
    OneByteChangesTheSum(Raw(s.(magic := c.magic, checksum := 0)), Raw(t.(magic := c.magic, checksum := 0)), i);
  }

  lemma ChecksumKept(s: Slot, t: Slot, i: nat)
    requires Damaged(s, t, i) && (4 <= i < 8 || 12 <= i)
    ensures s.checksum == t.checksum
  {
    RawLayout(s);
    RawLayout(t);
    hide Raw, Flatten;
    assert Raw(s)[8] == Raw(t)[8] && Raw(s)[9] == Raw(t)[9] && Raw(s)[10] == Raw(t)[10] && Raw(s)[11] == Raw(t)[11];
    Assembled(s.checksum);
    Assembled(t.checksum);
  }

  lemma Assembled(x: u32)
    ensures x == x % 256 + 256 * (x / 256 % 256) + 0x1_0000 * (x / 0x1_0000 % 256) + 0x100_0000 * (x / 0x100_0000)
  {
    assert x / 256 / 256 == x / 0x1_0000 && x / 0x1_0000 / 256 == x / 0x100_0000;
  }

  /** Whichever byte of a valid image changes, it is valid no more. */
  lemma DamageIsDetected(c: Config, s: Slot, t: Slot, i: nat)
    requires IsValid(c, s) && Damaged(s, t, i)
    ensures !IsValid(c, t)
  {
    hide Damaged, ChecksumOf;
    if i < 4 {
      MagicDamaged(s, t, i);
    } else if 8 <= i < 12 {
      ChecksumDamaged(c, s, t, i);
    } else {
      ContentsDamaged(c, s, t, i);
    }
  }

  /** A restart never restores a damaged image: it falls back to the other one. */
  lemma DamagedImageIsSkipped(c: Config, j: Pair, d: nat, t: Slot, i: nat)
    requires d < 2 && IsValid(c, j.At(d)) && Damaged(j.At(d), t, i)
    ensures Restored(c, j.With(d, t)) ==
              if IsValid(c, j.At(1 - d)) then Some(j.At(1 - d).records[..j.At(1 - d).count]) else None
  {
    hide Damaged, IsValid;
    DamageIsDetected(c, j.At(d), t, i);
  }

  /** The FIFOs a run committed. */
  ghost function CommittedBy(c: Config, j: Pair, attempts: seq<Attempt>): set<seq<Record>>
    requires c.Valid()
    decreases attempts
  {
    if attempts == [] then {}
    else
      var a := attempts[0];
      (if Savable(c, a.fifo) && a.left == Next(c, j, a.fifo) then {a.fifo} else {}) + CommittedBy(c, a.left, attempts[1..])
  }

  /** A valid image holds what it held before, or what the save committed. */
  lemma StepHolds(c: Config, j: Pair, fifo: seq<Record>, k: Pair, d: nat)
    requires c.Valid() && d < 2 && Reachable(c, j, fifo, k) && IsValid(c, k.At(d)) && k.At(d) != j.At(d)
    ensures Savable(c, fifo) && k == Next(c, j, fifo) && k.At(d).records[..k.At(d).count] == fifo
  {
    hide ChecksumOf, GenerationIsNewer;
    if Savable(c, fifo) && k == Next(c, j, fifo) {
      CommittedIsValid(c, fifo, NextGeneration(c, j));
    }
  }

  /** After any run, a valid image holds what it held at the start or a FIFO
      that the run committed. */
  lemma {:induction false} ImagesHoldCommitted(c: Config, j: Pair, attempts: seq<Attempt>, d: nat)
    requires c.Valid() && d < 2 && Attempts(c, j, attempts)
    requires IsValid(c, JournalAfter(j, attempts).At(d))
    ensures var s := JournalAfter(j, attempts).At(d);
            s == j.At(d) || s.records[..s.count] in CommittedBy(c, j, attempts)
    decreases attempts
  {
    hide IsValid, Reachable, Next, Savable;
    if attempts != [] {
      var a := attempts[0];
      assert JournalAfter(j, attempts) == JournalAfter(a.left, attempts[1..]);
      ImagesHoldCommitted(c, a.left, attempts[1..], d);
      if JournalAfter(j, attempts).At(d) == a.left.At(d) != j.At(d) {
        StepHolds(c, j, a.fifo, a.left, d);
      }
    }
  }

  /** Over any saves, rejected saves and cuts on a cleared journal, and then one
      byte of a valid image damaged: a restart restores a FIFO that was
      committed, or nothing; the last one if the other image held it. */
  lemma DamagedRunRestoresCommitted(c: Config, attempts: seq<Attempt>, d: nat, t: Slot, i: nat)
    requires c.Valid() && d < 2 && Attempts(c, Pair(ClearedSlot(c), ClearedSlot(c)), attempts)
    requires var j := JournalAfter(Pair(ClearedSlot(c), ClearedSlot(c)), attempts);
             IsValid(c, j.At(d)) && Damaged(j.At(d), t, i)
    ensures var start := Pair(ClearedSlot(c), ClearedSlot(c));
            var j := JournalAfter(start, attempts);
            var restored := Restored(c, j.With(d, t));
            && (restored.Some? ==> restored.value in CommittedBy(c, start, attempts))
            && (NewestValid(c, j) == Some(1 - d) ==> restored == LastCommitted(c, start, None, attempts))
  {
    var start := Pair(ClearedSlot(c), ClearedSlot(c));
    var j := JournalAfter(start, attempts);
    ClearedIsInvalid(c);
    hide Damaged, IsValid, ClearedSlot, Attempts, CommittedBy, LastCommitted;
    DamagedImageIsSkipped(c, j, d, t, i);
    FromCleared(c, attempts);
    if IsValid(c, j.At(1 - d)) {
      ImagesHoldCommitted(c, start, attempts, 1 - d);
    }
  }

  lemma ClearedIsInvalid(c: Config)
    requires c.Valid()
    ensures !IsValid(c, ClearedSlot(c))
  {
  }

  /** The first save goes to the first image, as generation one. */
  lemma FirstSave(c: Config, fifo: seq<Record>)
    requires c.Valid() && |fifo| <= c.capacity
    ensures Next(c, Pair(ClearedSlot(c), ClearedSlot(c)), fifo) == Pair(Committed(c, fifo, 1), ClearedSlot(c))
  {
    ClearedIsInvalid(c);
    hide IsValid, ClearedSlot, Committed;
  }
}
