/** Fixed-width unsigned words as the firmware stores them, and the link
    between a wrapping 32-bit clock and unbounded real time. */
module Words {
  const TWO_32: int := 0x1_0000_0000

  type byte = x: int | 0 <= x < 256
  type u16 = x: int | 0 <= x < 0x1_0000
  type u32 = x: int | 0 <= x < 0x1_0000_0000
  type u64 = x: int | 0 <= x < 0x1_0000_0000_0000_0000

  function Min(a: int, b: int): int { if a <= b then a else b }

  function Max(a: int, b: int): int { if a >= b then a else b }

  function Wrap32(x: int): u32 { x % 0x1_0000_0000 }

  function Wrap64(x: int): u64 { x % 0x1_0000_0000_0000_0000 }

  /** Unsigned 32-bit subtraction. */
  function Sub32(a: u32, b: u32): u32 { Wrap32(a - b) }

  /** `int32_t(now - deadline) >= 0`. */
  predicate Reached(now: u32, deadline: u32) { Sub32(now, deadline) < 0x8000_0000 }

  lemma WrapShift(x: int, k: int)
    ensures Wrap32(x + k * 0x1_0000_0000) == Wrap32(x)
  {
  }

  lemma WrapAdd(a: int, b: int)
    ensures Wrap32(Wrap32(a) + b) == Wrap32(a + b)
  {
    var k := a / 0x1_0000_0000;
    assert a == Wrap32(a) + k * 0x1_0000_0000;
    WrapShift(Wrap32(a) + b, k);
  }

  /** Elapsed 32-bit time is elapsed real time modulo 2^32. */
  lemma ElapsedWraps(since: int, now: int)
    ensures Sub32(Wrap32(now), Wrap32(since)) == Wrap32(now - since)
  {
    var k := since / 0x1_0000_0000;
    var low: int := Wrap32(since);
    assert since == low + k * 0x1_0000_0000;
    WrapAdd(now, -low);
    WrapShift(now - low, -k);
  }

  /** Read as a 32-bit difference, real time never looks longer than it is. */
  lemma ElapsedUnder(since: nat, now: nat)
    requires since <= now
    ensures Sub32(Wrap32(now), Wrap32(since)) <= now - since
    ensures now - since < 0x1_0000_0000 ==> Sub32(Wrap32(now), Wrap32(since)) == now - since
  {
    ElapsedWraps(since, now);
  }

  /** A deadline set `span` ahead is reached exactly from its real time on,
      as long as it is less than 2^31 ms away on either side. */
  lemma DeadlineReached(since: nat, span: nat, now: nat)
    requires since <= now < since + span + 0x8000_0000 && span <= 0x8000_0000
    ensures Reached(Wrap32(now), Wrap32(Wrap32(since) + span)) <==> now >= since + span
  {
    WrapAdd(since, span);
    ElapsedWraps(since + span, now);
  }

  // ---------- Big-endian bytes ----------

  function Bytes16(x: u16): (b: seq<byte>)
    ensures |b| == 2
  {
    [x / 256, x % 256]
  }

  function Read16(hi: byte, lo: byte): u16 { hi * 256 + lo }

  /** The `n` low bytes of `x`, most significant first. */
  function BigEndian(x: nat, n: nat): (b: seq<byte>)
    ensures |b| == n
  {
    if n == 0 then [] else BigEndian(x / 256, n - 1) + [x % 256]
  }

  function FromBigEndian(b: seq<byte>): nat {
    if b == [] then 0 else FromBigEndian(b[..|b| - 1]) * 256 + b[|b| - 1]
  }

  function Pow256(n: nat): (p: nat)
    ensures p > 0
  {
    if n == 0 then 1 else 256 * Pow256(n - 1)
  }

  lemma {:induction false} BigEndianReads(x: nat, n: nat)
    requires x < Pow256(n)
    ensures FromBigEndian(BigEndian(x, n)) == x
  {
    if n > 0 {
      BigEndianReads(x / 256, n - 1);
      var b := BigEndian(x, n);
      assert b[..n - 1] == BigEndian(x / 256, n - 1);
    }
  }

  lemma BigEndianInjective(x: nat, y: nat, n: nat)
    requires x < Pow256(n) && y < Pow256(n)
    requires BigEndian(x, n) == BigEndian(y, n)
    ensures x == y
  {
    BigEndianReads(x, n);
    BigEndianReads(y, n);
  }
}
