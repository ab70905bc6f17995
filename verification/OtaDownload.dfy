/** The resumable firmware download (include/OtaDownload.h): the recogniser of
    resumed responses and the buffered retry loop over an adversarial
    connection that serves one fixed ciphertext. */
module OtaDownload {
  import opened Wrappers
  import opened Words
  import opened Decimals

  const CHUNK: nat := 4096

  // ---------- Content-Range ----------

  predicate AllDigits(d: string) { d != "" && forall i | 0 <= i < |d| :: Digit(d[i]) }

  /** `bytes <first>-<last>/<size>` for exactly the rest from `offset`, in the
      form of section 14.4 of RFC 9110. */
  ghost predicate DescribesRest(text: string, offset: u32, total: u32) {
    exists first, last, size: string ::
      Spelled(text, first, last, size) && Value(first) == offset && Value(last) == total - 1 && Value(size) == total
  }

  ghost predicate Spelled(text: string, first: string, last: string, size: string) {
    && AllDigits(first) && AllDigits(last) && AllDigits(size)
    && text == "bytes " + first + "-" + last + "/" + size
  }

  /** One more digit of a run. */
  lemma DigitStep(text: string, start: nat, next: nat, n: nat)
    requires start <= next < start + n <= |text|
    ensures Value(text[start..next + 1]) == 10 * Value(text[start..next]) + DigitValue(text[next])
    ensures Value(text[start..next + 1]) <= Value(text[start..start + n])
  {
    var run, part := text[start..start + n], text[start..next + 1];
    assert part == run[..next + 1 - start] && part[..next - start] == text[start..next];
    PrefixIsSmaller(run, next + 1 - start);
  }

  lemma RunIsDigits(text: string, start: nat)
    requires start <= |text|
    ensures var n := Digits(text[start..]);
            && start + n <= |text| && (forall i | start <= i < start + n :: Digit(text[i]))
            && (start + n < |text| ==> !Digit(text[start + n]))
  {
    var n := Digits(text[start..]);
    assert forall i | start <= i < start + n :: text[i] == text[start..][i - start];
  }

  datatype Numeral = NoNumeral | Numeral(value: u32, end: nat)

  /** The number spelled by the digits at `start`, if it fits in 32 bits, and
      where they end. */
  function Reading(text: string, start: nat): Numeral
    requires start <= |text|
  {
    var n := Digits(text[start..]);
    if n == 0 || Value(text[start..start + n]) >= 0x1_0000_0000 then NoNumeral else Numeral(Value(text[start..start + n]), start + n)
  }

  method ReadNumber(text: string, start: nat) returns (value: Option<u32>, next: nat)
    requires start <= |text|
    ensures value.Some? <==> Reading(text, start).Numeral?
    ensures value.Some? ==> Reading(text, start) == Numeral(value.value, next)
  {
    RunIsDigits(text, start);
    ghost var n := Digits(text[start..]);
    hide Digits, Value;
    next := start;
    if next >= |text| || !Digit(text[next]) {
      return None, next;
    }
    var sum: int := 0;
    EmptyIsZero();
    assert text[start..start] == "";
    while next < |text| && Digit(text[next])
      invariant start <= next <= start + n
      invariant sum == Value(text[start..next]) < 0x1_0000_0000
    {
      DigitStep(text, start, next, n);
      var digit := DigitValue(text[next]);
      if sum > (0xFFFF_FFFF - digit) / 10 {
        return None, next;
      }
      sum := sum * 10 + digit;
      next := next + 1;
    }
    value := Some(sum);
  }

  lemma EmptyIsZero()
    ensures Value("") == 0
  {
  }

  predicate HasUnit(t: string) { |t| >= 6 && t[..6] == "bytes " }

  /** A maximal run of digits at `start`. */
  ghost predicate RunAt(t: string, start: nat, run: string) {
    && start + |run| <= |t| && t[start..start + |run|] == run
    && AllDigits(run) && Digits(t[start..]) == |run|
  }

  ghost predicate Accepted(t: string, offset: u32, total: u32) {
    && HasUnit(t)
    && var first := Reading(t, 6);
    && first.Numeral? && first.end < |t| && t[first.end] == '-'
    && var last := Reading(t, first.end + 1);
    && last.Numeral? && last.end < |t| && t[last.end] == '/'
    && var size := Reading(t, last.end + 1);
    && size.Numeral? && size.end == |t|
    && first.value == offset && last.value == total - 1 && size.value == total
  }

  method ContentRangeMatches(text: Option<string>, offset: u32, total: u32) returns (matches: bool)
    ensures matches <==> text.Some? && offset < total && DescribesRest(text.value, offset, total)
  {
    hide Reading, DescribesRest;
    if text.None? || offset >= total {
      return false;
    }
    var t := text.value;
    AcceptedIsRest(t, offset, total);
    if !HasUnit(t) {
      return false;
    }
    matches := false;
    var first, dash := ReadNumber(t, 6);
    if first.Some? && dash < |t| && t[dash] == '-' {
      var last, slash := ReadNumber(t, dash + 1);
      if last.Some? && slash < |t| && t[slash] == '/' {
        var size, end := ReadNumber(t, slash + 1);
        matches := size.Some? && end == |t| && first.value == offset && last.value == total - 1 && size.value == total;
      }
    }
  }

  lemma AcceptedIsRest(t: string, offset: u32, total: u32)
    requires offset < total
    ensures Accepted(t, offset, total) <==> DescribesRest(t, offset, total)
  {
    hide Accepted, Value;
    if Accepted(t, offset, total) {
      AcceptedIsSpelled(t, offset, total);
    }
    if DescribesRest(t, offset, total) {
      var f, l, s: string :| Spelled(t, f, l, s) && Value(f) == offset && Value(l) == total - 1 && Value(s) == total;
      SpelledIsAccepted(t, f, l, s, offset, total);
    }
  }

  lemma SpelledIsAccepted(t: string, first: string, last: string, size: string, offset: u32, total: u32)
    requires Spelled(t, first, last, size) && Value(first) == offset && Value(last) == total - 1 && Value(size) == total
    ensures Accepted(t, offset, total)
  {
    hide Value, RunAt, HasUnit;
    SpelledRuns(t, first, last, size);
    hide Spelled;
    RunsAccepted(t, first, last, size, offset, total);
  }

  lemma RunsAccepted(t: string, first: string, last: string, size: string, offset: u32, total: u32)
    requires RunAt(t, 6, first) && RunAt(t, 7 + |first|, last) && RunAt(t, 8 + |first| + |last|, size)
    requires Value(first) == offset && Value(last) == total - 1 && Value(size) == total
    requires HasUnit(t) && |t| == 8 + |first| + |last| + |size|
    requires t[6 + |first|] == '-' && t[7 + |first| + |last|] == '/'
    ensures Accepted(t, offset, total)
  {
    hide Value, RunAt, Reading, HasUnit;
    RunReads(t, 6, first);
    RunReads(t, 7 + |first|, last);
    RunReads(t, 8 + |first| + |last|, size);
  }

  /** What a successful reading read. */
  lemma ReadingRun(t: string, start: nat)
    requires start <= |t| && Reading(t, start).Numeral?
    ensures var (value, end) := (Reading(t, start).value, Reading(t, start).end);
            start < end <= |t| && AllDigits(t[start..end]) && Value(t[start..end]) == value
  {
    RunIsDigits(t, start);
  }

  lemma SplitText(t: string, dash: nat, slash: nat)
    requires 6 <= dash < slash < |t| && t[..6] == "bytes " && t[dash] == '-' && t[slash] == '/'
    ensures t == "bytes " + t[6..dash] + "-" + t[dash + 1..slash] + "/" + t[slash + 1..|t|]
  {
    assert t == t[..6] + t[6..dash] + [t[dash]] + t[dash + 1..slash] + [t[slash]] + t[slash + 1..|t|];
  }

  lemma AcceptedIsSpelled(t: string, offset: u32, total: u32)
    requires offset < total && Accepted(t, offset, total)
    ensures DescribesRest(t, offset, total)
  {
    hide Reading, Value, AllDigits;
    var dash := Reading(t, 6).end;
    var slash := Reading(t, dash + 1).end;
    ReadingRun(t, 6);
    ReadingRun(t, dash + 1);
    ReadingRun(t, slash + 1);
    SplitText(t, dash, slash);
    assert Spelled(t, t[6..dash], t[dash + 1..slash], t[slash + 1..|t|]);
  }

  lemma RunReads(t: string, start: nat, run: string)
    requires RunAt(t, start, run) && Value(run) < 0x1_0000_0000
    ensures start + |run| <= |t| && Reading(t, start) == Numeral(Value(run), start + |run|)
  {
    hide Value, Digits, AllDigits, RunAt;
    RunSize(t, start, run);
  }

  lemma RunSize(t: string, start: nat, run: string)
    requires RunAt(t, start, run)
    ensures run != "" && start + |run| <= |t| && t[start..start + |run|] == run && Digits(t[start..]) == |run|
  {
    hide Value, Digits;
  }

  /** The three numbers are the maximal digit runs at their places. */
  lemma SpelledRuns(t: string, first: string, last: string, size: string)
    requires Spelled(t, first, last, size)
    ensures var dash, slash := 6 + |first|, 7 + |first| + |last|;
            && slash < |t| && HasUnit(t) && t[dash] == '-' && t[slash] == '/'
            && RunAt(t, 6, first) && RunAt(t, dash + 1, last) && RunAt(t, slash + 1, size) && slash + 1 + |size| == |t|
  {
    var dash, slash := 6 + |first|, 7 + |first| + |last|;
    assert t[6..] == first + "-" + last + "/" + size;
    RunLength(first, t[6..]);
    assert t[dash + 1..] == last + "/" + size;
    RunLength(last, t[dash + 1..]);
    assert t[slash + 1..] == size;
    RunLength(size, t[slash + 1..]);
  }

  lemma RunLength(run: string, s: string)
    requires |run| <= |s| && s[..|run|] == run && (forall i | 0 <= i < |run| :: Digit(run[i])) && (|run| < |s| ==> !Digit(s[|run|]))
    ensures Digits(s) == |run|
  {
    assert forall i | 0 <= i < |run| :: s[i] == run[i];
  }

  /** Whether a response carries exactly the bytes from `offset` on. */
  method ResponseMatches(code: int, length: int, range: Option<string>, encoding: Option<string>, transfer: Option<string>,
                         offset: u32, total: u32) returns (matches: bool)
    ensures matches <==>
              && offset < total && length == total - offset
              && (encoding == None || encoding == Some("") || encoding == Some("identity"))
              && (transfer == None || transfer == Some(""))
              && ((code == 200 && offset == 0 && (range == None || range == Some("")))
                  || (code == 206 && range.Some? && DescribesRest(range.value, offset, total)))
  {
    if offset >= total || length < 0 || length != total - offset
       || (!Absent(encoding) && encoding != Some("identity")) || !Absent(transfer)
    {
      return false;
    }
    if code == 200 {
      return offset == 0 && Absent(range);
    }
    if code != 206 {
      return false;
    }
    matches := ContentRangeMatches(range, offset, total);
  }

  predicate Absent(header: Option<string>) { header.None? || header == Some("") }

  // ---------- The connection ----------

  datatype OpenResult = Ready | Retryable | OpenRejected

  datatype DownloadResult = Complete | Rejected | Transport | Timeout | WriteFailed

  /** What the world answers to one call, and how long it takes. */
  datatype Answer = Answer(elapsed: nat, open: OpenResult, available: int, connected: bool, read: int, written: bool)

  function Concat(chunks: seq<seq<byte>>): seq<byte> {
    if chunks == [] then [] else Concat(chunks[..|chunks| - 1]) + chunks[|chunks| - 1]
  }

  /** Serves `cipher` from the offset it was opened at; everything else is up
      to the answers. Each call takes at most `slowest` ms, a pause at least 1. */
  class Connection {
    const cipher: seq<byte>
    const answers: nat -> Answer
    const slowest: nat
    var calls: nat
    var clock: nat
    var position: nat
    ghost var opens: nat
    ghost var writes: seq<seq<byte>>
    /** There is a connection. */
    ghost var live: bool
    /** A pause or nothing came after an open that may be retried. */
    ghost var rested: bool
    /** Opens that may be retried, reads of nothing and connections lost. */
    ghost var faults: nat
    /** An open was rejected or a read overran what was asked for. */
    ghost var refused: bool
    /** A write failed. */
    ghost var unwritten: bool

    constructor (cipher: seq<byte>, answers: nat -> Answer, slowest: nat)
      requires slowest >= 1 && forall k :: answers(k).elapsed <= slowest
      ensures Valid() && this.cipher == cipher && this.answers == answers && this.slowest == slowest
      ensures calls == 0 && clock == 0 && Unused()
    {
      this.cipher, this.answers, this.slowest := cipher, answers, slowest;
      calls, clock, position, opens, writes := 0, 0, 0, 0, [];
      live, rested, faults, refused, unwritten := false, true, 0, false, false;
    }

    ghost predicate Valid()
      reads this
    {
      slowest >= 1 && (forall k :: answers(k).elapsed <= slowest) && position <= |cipher|
    }

    ghost predicate Unused()
      reads this
    {
      opens == 0 && writes == [] && !live && rested && faults == 0 && !refused && !unwritten
    }

    /** One call takes its time. */
    method Spend() returns (a: Answer)
      requires Valid()
      modifies `calls, `clock
      ensures Valid() && a == answers(old(calls)) && calls == old(calls) + 1
      ensures clock == old(clock) + a.elapsed <= old(clock) + slowest
    {
      a := answers(calls);
      clock := clock + a.elapsed;
      calls := calls + 1;
    }

    method Now() returns (now: u32)
      requires Valid()
      modifies `calls, `clock
      ensures Valid() && old(clock) <= clock <= old(clock) + slowest && now == Wrap32(clock)
      ensures clock == old(clock) + answers(old(calls)).elapsed
    {
      var a := Spend();
      now := Wrap32(clock);
    }

    method Pause()
      requires Valid()
      modifies `calls, `clock, `rested
      ensures Valid() && old(clock) < clock <= old(clock) + slowest && rested
    {
      clock := clock + Max(1, answers(calls).elapsed);
      calls, rested := calls + 1, true;
    }

    method Close()
      requires Valid()
      modifies `live
      ensures Valid() && !live
    {
      live := false;
    }

    /** Only without a connection, and after a pause if one was to be retried. */
    method Open(offset: nat) returns (r: OpenResult)
      requires Valid() && offset <= |cipher| && !live && rested
      modifies `calls, `clock, `position, `opens, `refused, `live, `rested, `faults
      ensures Valid() && old(clock) <= clock <= old(clock) + slowest && refused == (old(refused) || r.OpenRejected?)
      ensures opens == old(opens) + 1 && (r.Ready? ==> position == offset)
      ensures live == r.Ready? && rested == !r.Retryable? && faults == old(faults) + if r.Retryable? then 1 else 0
    {
      var a := Spend();
      opens, refused := opens + 1, refused || a.open.OpenRejected?;
      live, rested, faults := a.open.Ready?, !a.open.Retryable?, faults + if a.open.Retryable? then 1 else 0;
      if a.open.Ready? {
        position := offset;
      }
      r := a.open;
    }

    method Available() returns (n: int)
      requires Valid() && live
      modifies `calls, `clock, `faults
      ensures Valid() && old(clock) <= clock <= old(clock) + slowest && faults == old(faults) + if n < 0 then 1 else 0
    {
      var a := Spend();
      n, faults := a.available, faults + if a.available < 0 then 1 else 0;
    }

    method Connected() returns (connected: bool)
      requires Valid() && live
      modifies `calls, `clock, `faults
      ensures Valid() && old(clock) <= clock <= old(clock) + slowest && faults == old(faults) + if connected then 0 else 1
    {
      var a := Spend();
      connected, faults := a.connected, faults + if a.connected then 0 else 1;
    }

    /** The next bytes of the ciphertext, at most `wanted`; but the reported
        count may be anything. */
    method Read(buffer: array<byte>, at: nat, wanted: nat) returns (n: int)
      requires Valid() && at + wanted <= buffer.Length && position + wanted <= |cipher| && live
      modifies `calls, `clock, `position, `refused, `faults, buffer
      ensures Valid() && old(clock) <= clock <= old(clock) + slowest && refused == (old(refused) || n > wanted)
      ensures faults == old(faults) + if n <= 0 then 1 else 0
      ensures buffer[..at] == old(buffer[..at])
      ensures 0 < n <= wanted ==> position == old(position) + n && buffer[at..at + n] == cipher[old(position)..old(position) + n]
    {
      var a := Spend();
      n, refused, faults := a.read, refused || a.read > wanted, faults + if a.read <= 0 then 1 else 0;
      if 0 < n <= wanted {
        forall i | 0 <= i < n {
          buffer[at + i] := cipher[position + i];
        }
        assert buffer[at..at + n] == cipher[position..position + n];
        position := position + n;
      }
    }

    method Write(buffer: array<byte>, n: nat) returns (ok: bool)
      requires Valid() && n <= buffer.Length
      modifies `calls, `clock, `writes, `unwritten
      ensures Valid() && old(clock) <= clock <= old(clock) + slowest && unwritten == (old(unwritten) || !ok)
      ensures writes == if ok then old(writes) + [buffer[..n]] else old(writes)
    {
      var a := Spend();
      ok, unwritten := a.written, unwritten || !a.written;
      if ok {
        writes := writes + [buffer[..n]];
      }
    }
  }

  // ---------- Time ----------

  /** The time limit can be told from wrapped time. */
  predicate Bounded(io: Connection, totalMs: u32) { totalMs + 5 * io.slowest < 0x1_0000_0000 }

  /** At most `calls` calls since the limit was seen not to have passed. */
  ghost predicate Fresh(io: Connection, begun: nat, totalMs: u32, calls: nat)
    reads io`clock
  {
    begun <= io.clock && (Bounded(io, totalMs) ==> io.clock <= begun + totalMs + calls * io.slowest)
  }

  /** The time limit has passed, as the 32-bit clock tells. */
  predicate Late(io: Connection, begun: nat, totalMs: u32)
    reads io`clock
  {
    Sub32(Wrap32(io.clock), Wrap32(begun)) >= totalMs
  }

  /** When a download may end so: on a timeout not before the limit and at
      most five calls after it; complete or rejected before it. */
  ghost predicate Punctual(io: Connection, result: DownloadResult, begun: nat, totalMs: u32)
    reads io`clock
  {
    match result
    case Timeout => begun + totalMs <= io.clock && (Bounded(io, totalMs) ==> io.clock <= begun + totalMs + 5 * io.slowest)
    case Complete => !Late(io, begun, totalMs) && (Bounded(io, totalMs) ==> io.clock < begun + totalMs)
    case Rejected => !Late(io, begun, totalMs) && (Bounded(io, totalMs) ==> io.clock < begun + totalMs)
    case Transport => Bounded(io, totalMs) ==> io.clock <= begun + totalMs + 2 * io.slowest
    case WriteFailed => Bounded(io, totalMs) ==> io.clock <= begun + totalMs + 2 * io.slowest
  }

  method TimedOut(io: Connection, started: u32, ghost begun: nat, totalMs: u32, ghost calls: nat) returns (late: bool)
    requires io.Valid() && started == Wrap32(begun) && Fresh(io, begun, totalMs, calls) && calls < 5
    modifies io`calls, io`clock
    ensures io.Valid() && old(io.clock) <= io.clock <= old(io.clock) + io.slowest
    ensures late ==> Punctual(io, Timeout, begun, totalMs)
    ensures !late ==> Fresh(io, begun, totalMs, 0) && Punctual(io, Rejected, begun, totalMs) && Punctual(io, Complete, begun, totalMs)
  {
    var now := io.Now();
    ElapsedUnder(begun, io.clock);
    assert (calls + 1) * io.slowest <= 5 * io.slowest;
    late := Sub32(now, started) >= totalMs;
  }

  /** A call later. */
  lemma OneCall(io: Connection, begun: nat, totalMs: u32, calls: nat, before: nat)
    requires begun <= before <= io.clock <= before + io.slowest
    requires Bounded(io, totalMs) ==> before <= begun + totalMs + calls * io.slowest
    ensures Fresh(io, begun, totalMs, calls + 1)
  {
    assert (calls + 1) * io.slowest == calls * io.slowest + io.slowest;
  }

  /** Few enough calls from `since` on for the 32-bit clock to tell. */
  predicate Brief(io: Connection, clock: nat, since: nat) { clock + 5 * io.slowest - since < 0x1_0000_0000 }

  /** Idle time is measured truly as long as it is below 2^32 ms, and never
      overestimated. */
  method IdleFor(io: Connection, progress: u32, ghost since: nat, limit: u32) returns (idle: bool)
    requires io.Valid() && progress == Wrap32(since) && since <= io.clock
    modifies io`calls, io`clock
    ensures io.Valid() && old(io.clock) <= io.clock <= old(io.clock) + io.slowest
    ensures io.clock - since < 0x1_0000_0000 ==> (idle <==> io.clock - since >= limit)
    ensures idle ==> io.clock - since >= limit
  {
    var now := io.Now();
    ElapsedUnder(since, io.clock);
    idle := Sub32(now, progress) >= limit;
  }

  // ---------- The download ----------

  /** All chunks but the last are of 4096 bytes. */
  ghost predicate FullButLast(chunks: seq<seq<byte>>) {
    (forall k | 0 <= k < |chunks| - 1 :: |chunks[k]| == 4096) && (chunks != [] ==> 0 < |chunks[|chunks| - 1]| <= 4096)
  }

  ghost predicate AllFull(chunks: seq<seq<byte>>) { forall k | 0 <= k < |chunks| :: |chunks[k]| == 4096 }

  lemma ConcatAppend(chunks: seq<seq<byte>>, chunk: seq<byte>)
    ensures Concat(chunks + [chunk]) == Concat(chunks) + chunk
  {
    assert (chunks + [chunk])[..|chunks|] == chunks;
  }

  /** Buffered ciphertext never runs ahead of or behind what was received. */
  ghost predicate Carried(io: Connection, buffer: array<byte>, buffered: nat, received: nat)
    reads io`writes, buffer
  {
    && buffered <= buffer.Length == CHUNK && received <= |io.cipher|
    && Concat(io.writes) + buffer[..buffered] == io.cipher[..received]
  }

  lemma CarriedPrefix(io: Connection, buffer: array<byte>, buffered: nat, received: nat)
    requires Carried(io, buffer, buffered, received)
    ensures Delivered(io)
    ensures buffered == 0 && received == |io.cipher| ==> Concat(io.writes) == io.cipher
  {
    assert Concat(io.writes) <= io.cipher[..received] <= io.cipher;
    assert buffer[..0] == [] && io.cipher[..|io.cipher|] == io.cipher;
  }

  /** A read continues the buffered bytes exactly where they end. */
  method ReadInto(io: Connection, buffer: array<byte>, buffered: nat, received: nat, wanted: nat) returns (n: int)
    requires io.Valid() && Carried(io, buffer, buffered, received) && io.position == received && io.live
    requires buffered + wanted <= CHUNK && received + wanted <= |io.cipher|
    modifies io`calls, io`clock, io`position, io`refused, io`faults, buffer
    ensures io.Valid() && old(io.clock) <= io.clock <= old(io.clock) + io.slowest && io.refused == (old(io.refused) || n > wanted)
    ensures Carried(io, buffer, buffered, received) && io.faults == old(io.faults) + if n <= 0 then 1 else 0
    ensures 0 < n <= wanted ==> Carried(io, buffer, buffered + n, received + n) && io.position == received + n
  {
    hide Concat;
    n := io.Read(buffer, buffered, wanted);
    if 0 < n <= wanted {
      assert buffer[..buffered + n] == buffer[..buffered] + buffer[buffered..buffered + n];
      assert io.cipher[..received + n] == io.cipher[..received] + io.cipher[received..received + n];
    }
  }

  /** Writes out everything buffered. */
  method Flush(io: Connection, buffer: array<byte>, buffered: nat, received: nat) returns (ok: bool)
    requires io.Valid() && Carried(io, buffer, buffered, received)
    modifies io`calls, io`clock, io`writes, io`unwritten
    ensures io.Valid() && old(io.clock) <= io.clock <= old(io.clock) + io.slowest && io.unwritten == (old(io.unwritten) || !ok)
    ensures Carried(io, buffer, if ok then 0 else buffered, received)
    ensures io.writes == if ok then old(io.writes) + [buffer[..buffered]] else old(io.writes)
  {
    hide Concat;
    ConcatAppend(io.writes, buffer[..buffered]);
    ok := io.Write(buffer, buffered);
    assert buffer[..0] == [];
  }

  /** How one part of an iteration ended: with the whole download, with a
      failure that costs a retry, by waiting, or with something done. */
  datatype Step = Stopped(result: DownloadResult) | Failed | Waiting | Done

  /** Stopped in time, and never for want of retries. */
  ghost predicate StopsPunctually(io: Connection, step: Step, begun: nat, totalMs: u32)
    reads io`clock
  {
    step.Stopped? ==> !step.result.Transport? && !step.result.Complete? && Punctual(io, step.result, begun, totalMs)
  }

  /** Rejected only by the connection, and never carried on with after that;
      a failure shows a fault, or idleness since `since`. */
  twostate predicate Caused(io: Connection, step: Step, since: nat, idleMs: u32)
    reads io`refused, io`faults, io`clock
  {
    && (step == Stopped(Rejected) ==> io.refused) && (!step.Stopped? ==> io.refused == old(io.refused))
    && (step.Stopped? ==> old(io.faults) <= io.faults <= old(io.faults) + 1)
    && (step.Failed? ==> io.faults == old(io.faults) + 1 || (io.faults == old(io.faults) && since + idleMs <= io.clock))
    && (step.Waiting? || step.Done? ==> io.faults == old(io.faults))
  }

  method OpenAt(io: Connection, received: nat, started: u32, ghost begun: nat, totalMs: u32, ghost since: nat, idleMs: u32)
    returns (step: Step)
    requires io.Valid() && received <= |io.cipher| && !io.live && io.rested
    requires started == Wrap32(begun) && Fresh(io, begun, totalMs, 0)
    modifies io`calls, io`clock, io`position, io`opens, io`refused, io`live, io`rested, io`faults
    ensures Caused(io, step, since, idleMs) && StopsPunctually(io, step, begun, totalMs)
    ensures io.Valid() && old(io.clock) <= io.clock && io.opens == old(io.opens) + 1
    ensures step.Failed? ==> io.faults == old(io.faults) + 1
    ensures step.Done? ==> io.position == received && io.live && io.rested
    ensures !step.Waiting? && !step.Stopped? ==> Fresh(io, begun, totalMs, 0)
    ensures !step.Waiting? && step != Stopped(WriteFailed)
  {
    hide Connection.Valid, Late;
    var answer := io.Open(received);
    OneCall(io, begun, totalMs, 0, old(io.clock));
    var late := TimedOut(io, started, begun, totalMs, 1);
    step := if late then Stopped(Timeout)
            else if answer == OpenRejected then Stopped(Rejected)
            else if answer == Retryable then Failed else Done;
  }

  /** Waits for data no longer than the idle limit. */
  method Poll(io: Connection, progress: u32, ghost since: nat, idleMs: u32, started: u32, ghost begun: nat, totalMs: u32)
    returns (step: Step, available: int)
    requires io.Valid() && progress == Wrap32(since) && since <= io.clock && io.live
    requires started == Wrap32(begun) && Fresh(io, begun, totalMs, 1)
    modifies io`calls, io`clock, io`faults, io`rested
    ensures io.Valid() && old(io.clock) <= io.clock && (old(io.rested) ==> io.rested)
    ensures Caused(io, step, since, idleMs) && StopsPunctually(io, step, begun, totalMs) && step != Stopped(Rejected) && step != Stopped(WriteFailed)
    ensures step.Waiting? ==> old(io.clock) < io.clock && (Brief(io, old(io.clock), since) ==> io.clock < since + idleMs + io.slowest)
    ensures step.Waiting? ==> Fresh(io, begun, totalMs, 3)
    ensures step.Failed? ==> Fresh(io, begun, totalMs, 2)
    ensures step.Done? ==> available > 0 && Fresh(io, begun, totalMs, 0)
  {
    hide Connection.Valid, Late;
    available := io.Available();
    OneCall(io, begun, totalMs, 1, old(io.clock));
    var late := TimedOut(io, started, begun, totalMs, 2);
    if late {
      return Stopped(Timeout), available;
    }
    if available > 0 {
      return Done, available;
    }
    if available < 0 {
      return Failed, available;
    }
    ghost var seen := io.clock;
    var connected := io.Connected();
    OneCall(io, begun, totalMs, 0, seen);
    if !connected {
      return Failed, available;
    }
    seen := io.clock;
    var idle := IdleFor(io, progress, since, idleMs);
    OneCall(io, begun, totalMs, 1, seen);
    if idle {
      return Failed, available;
    }
    seen := io.clock;
    io.Pause();
    OneCall(io, begun, totalMs, 2, seen);
    step := Waiting;
  }

  method Consume(io: Connection, buffer: array<byte>, buffered: nat, received: nat, wanted: nat, ghost since: nat, idleMs: u32,
                 started: u32, ghost begun: nat, totalMs: u32)
    returns (step: Step, n: int)
    requires io.Valid() && Carried(io, buffer, buffered, received) && io.position == received && io.live
    requires buffered + wanted <= CHUNK && received + wanted <= |io.cipher|
    requires started == Wrap32(begun) && Fresh(io, begun, totalMs, 0)
    modifies io`calls, io`clock, io`position, io`refused, io`faults, buffer
    ensures Caused(io, step, since, idleMs) && StopsPunctually(io, step, begun, totalMs) && step != Stopped(WriteFailed)
    ensures io.Valid() && old(io.clock) <= io.clock && Carried(io, buffer, buffered, received)
    ensures step.Done? ==> 0 < n <= wanted && Carried(io, buffer, buffered + n, received + n) && io.position == received + n
    ensures !step.Waiting? && (!step.Stopped? ==> Fresh(io, begun, totalMs, 0))
  {
    hide Connection.Valid, Carried, Late;
    n := ReadInto(io, buffer, buffered, received, wanted);
    OneCall(io, begun, totalMs, 0, old(io.clock));
    var late := TimedOut(io, started, begun, totalMs, 1);
    step := if late then Stopped(Timeout) else if n <= 0 then Failed else if n > wanted then Stopped(Rejected) else Done;
  }

  lemma FresherStill(io: Connection, begun: nat, totalMs: u32, calls: nat, more: nat)
    requires Fresh(io, begun, totalMs, calls) && calls <= more
    ensures Fresh(io, begun, totalMs, more)
  {
    assert calls * io.slowest <= more * io.slowest;
  }

  /** Waits for data, then reads what fits. */
  method Fetch(io: Connection, buffer: array<byte>, buffered: nat, received: nat, progress: u32, ghost since: nat, idleMs: u32,
               started: u32, ghost begun: nat, totalMs: u32)
    returns (step: Step, n: int)
    requires io.Valid() && Carried(io, buffer, buffered, received) && io.position == received && io.live
    requires buffered < CHUNK && received < |io.cipher|
    requires progress == Wrap32(since) && since <= io.clock
    requires started == Wrap32(begun) && Fresh(io, begun, totalMs, 1)
    modifies io`calls, io`clock, io`position, io`refused, io`faults, io`rested, buffer
    ensures Caused(io, step, since, idleMs) && StopsPunctually(io, step, begun, totalMs) && step != Stopped(WriteFailed)
    ensures io.Valid() && old(io.clock) <= io.clock && Carried(io, buffer, buffered, received) && (old(io.rested) ==> io.rested)
    ensures step.Waiting? ==> old(io.clock) < io.clock && (Brief(io, old(io.clock), since) ==> io.clock < since + idleMs + io.slowest)
    ensures step.Waiting? ==> io.position == received && Fresh(io, begun, totalMs, 3)
    ensures step.Failed? ==> Fresh(io, begun, totalMs, 2)
    ensures step.Done? ==> 0 < n <= CHUNK - buffered && received + n <= |io.cipher| && Fresh(io, begun, totalMs, 0)
                           && Carried(io, buffer, buffered + n, received + n) && io.position == received + n
  {
    hide Late;
    assert buffer.Length == CHUNK;
    hide Connection.Valid, Carried, Brief, Fresh, Punctual;
    var available;
    step, available := Poll(io, progress, since, idleMs, started, begun, totalMs);
    n := 0;
    if step.Done? {
      var wanted := Min(|io.cipher| - received, Min(available, buffer.Length - buffered));
      step, n := Consume(io, buffer, buffered, received, wanted, since, idleMs, started, begun, totalMs);
      if step.Failed? {
        FresherStill(io, begun, totalMs, 0, 2);
      }
    }
  }

  /** Chunks are written only when full or last. */
  ghost predicate ChunksFit(io: Connection, buffered: nat, received: nat)
    reads io`writes
  {
    if received < |io.cipher| then buffered < CHUNK && AllFull(io.writes) else buffered == 0 && FullButLast(io.writes)
  }

  /** Only ciphertext was written, from its start and without gaps. */
  ghost predicate Delivered(io: Connection)
    reads io`writes
  {
    Concat(io.writes) <= io.cipher
  }

  /** Writes the buffer if it is full or the ciphertext is complete. */
  method Store(io: Connection, buffer: array<byte>, buffered: nat, received: nat, started: u32, ghost begun: nat, totalMs: u32)
    returns (step: Step, left: nat)
    requires io.Valid() && Carried(io, buffer, buffered, received) && 0 < buffered <= CHUNK
    requires AllFull(io.writes) && Delivered(io)
    requires started == Wrap32(begun) && Fresh(io, begun, totalMs, 1)
    modifies io`calls, io`clock, io`writes, io`unwritten
    ensures io.Valid() && old(io.clock) <= io.clock <= old(io.clock) + 2 * io.slowest
    ensures Delivered(io) && io.unwritten == (old(io.unwritten) || step == Stopped(WriteFailed))
    ensures step.Done? ==> Carried(io, buffer, left, received) && ChunksFit(io, left, received) && Fresh(io, begun, totalMs, 1)
    ensures step.Done? && received == |io.cipher| ==> Punctual(io, Complete, begun, totalMs)
    ensures step.Done? || (step.Stopped? && step.result != Rejected && StopsPunctually(io, step, begun, totalMs))
  {
    hide Late;
    left := buffered;
    step := Done;
    if buffered == buffer.Length || received == |io.cipher| {
      hide Connection.Valid, Concat;
      var ok := Flush(io, buffer, buffered, received);
      CarriedPrefix(io, buffer, if ok then 0 else buffered, received);
      OneCall(io, begun, totalMs, 1, old(io.clock));
      if !ok {
        return Stopped(WriteFailed), left;
      }
      left := 0;
      var late := TimedOut(io, started, begun, totalMs, 2);
      if late {
        step := Stopped(Timeout);
      } else {
        FresherStill(io, begun, totalMs, 0, 1);
      }
    }
  }

  /** Deadline check and, when needed, a connection at the received offset;
      `progress` restarts with a new connection. */
  method EnsureOpen(io: Connection, received: nat, isOpen: bool, before: u32, ghost origin: nat, idleMs: u32,
                    started: u32, ghost begun: nat, totalMs: u32)
    returns (step: Step, progress: u32, ghost since: nat)
    requires io.Valid() && received <= |io.cipher| && io.live == isOpen && io.rested
    requires isOpen ==> io.position == received && before == Wrap32(origin) && origin <= io.clock
    requires started == Wrap32(begun) && Fresh(io, begun, totalMs, 3)
    modifies io`calls, io`clock, io`position, io`opens, io`refused, io`live, io`rested, io`faults
    ensures Caused(io, step, origin, idleMs) && StopsPunctually(io, step, begun, totalMs) && step != Stopped(WriteFailed)
    ensures io.Valid() && old(io.clock) <= io.clock && old(io.opens) <= io.opens <= old(io.opens) + if isOpen then 0 else 1
    ensures !step.Stopped? ==> io.opens == old(io.opens) + if isOpen then 0 else 1
    ensures step.Done? ==> io.position == received && progress == Wrap32(since) && since <= io.clock && io.live && io.rested
    ensures step.Done? && isOpen ==> since == origin && io.clock <= old(io.clock) + 2 * io.slowest
    ensures step.Done? && !isOpen ==> since == io.clock
    ensures !step.Waiting? && (step.Failed? ==> !isOpen && io.faults == old(io.faults) + 1)
    ensures !step.Stopped? ==> Fresh(io, begun, totalMs, 1)
  {
    hide Connection.Valid, Late;
    progress, since := before, origin;
    var service := io.Spend();
    OneCall(io, begun, totalMs, 3, old(io.clock));
    var late := TimedOut(io, started, begun, totalMs, 4);
    if late {
      return Stopped(Timeout), progress, since;
    }
    step := Done;
    if !isOpen {
      step := OpenAt(io, received, started, begun, totalMs, origin, idleMs);
      if step.Done? {
        ghost var seen := io.clock;
        progress := io.Now();
        since := io.clock;
        OneCall(io, begun, totalMs, 0, seen);
      }
    }
    if !step.Stopped? && (isOpen || !step.Done?) {
      FresherStill(io, begun, totalMs, 0, 1);
    }
  }

  /** One exchange on an open connection: waits, or reads and stores; `next`
      is the clock's reading when data came. */
  method Exchange(io: Connection, buffer: array<byte>, buffered: nat, received: nat, progress: u32, ghost since: nat,
                  idleMs: u32, started: u32, ghost begun: nat, totalMs: u32)
    returns (step: Step, n: nat, left: nat, next: u32, ghost at: nat)
    requires io.Valid() && Carried(io, buffer, buffered, received) && io.position == received && Delivered(io) && io.live && io.rested
    requires ChunksFit(io, buffered, received) && received < |io.cipher|
    requires progress == Wrap32(since) && since <= io.clock
    requires started == Wrap32(begun) && Fresh(io, begun, totalMs, 1)
    modifies io`calls, io`clock, io`position, io`refused, io`faults, io`rested, io`writes, io`unwritten, buffer
    ensures io.Valid() && old(io.clock) <= io.clock && Delivered(io) && io.rested
    ensures Caused(io, step, since, idleMs) && StopsPunctually(io, step, begun, totalMs)
    ensures io.unwritten == (old(io.unwritten) || step == Stopped(WriteFailed))
    ensures step == Stopped(WriteFailed) ==> io.refused == old(io.refused)
    ensures step.Waiting? || step.Failed? ==> Carried(io, buffer, buffered, received) && ChunksFit(io, buffered, received)
    ensures step.Waiting? ==> old(io.clock) < io.clock && (Brief(io, old(io.clock), since) ==> io.clock < since + idleMs + io.slowest)
    ensures step.Waiting? ==> io.position == received
    ensures step.Done? ==> n > 0 && received + n <= |io.cipher| && io.position == received + n
                           && Carried(io, buffer, left, received + n) && ChunksFit(io, left, received + n)
                           && next == Wrap32(at) && since <= at <= io.clock <= at + 2 * io.slowest
    ensures step.Done? && received + n == |io.cipher| ==> Punctual(io, Complete, begun, totalMs)
    ensures !step.Stopped? ==> Fresh(io, begun, totalMs, 3)
    ensures step.Failed? ==> Fresh(io, begun, totalMs, 2)
  {
    hide Late, Carried, Connection.Valid, Concat, AllFull, FullButLast, Delivered, Punctual, Brief;
    n, left, next, at := 0, buffered, progress, since;
    var taken, got := Fetch(io, buffer, buffered, received, progress, since, idleMs, started, begun, totalMs);
    if taken.Failed? {
      FresherStill(io, begun, totalMs, 2, 3);
    }
    if !taken.Done? {
      return taken, n, left, next, at;
    }
    n := got;
    ghost var seen := io.clock;
    next := io.Now();
    at := io.clock;
    OneCall(io, begun, totalMs, 0, seen);
    step, left := Store(io, buffer, buffered + n, received + n, started, begun, totalMs);
    if step.Done? {
      FresherStill(io, begun, totalMs, 1, 3);
    }
  }

  /** Idle time stays measurable. */
  predicate Measurable(io: Connection, idleMs: u32) { idleMs + 10 * io.slowest < 0x1_0000_0000 }

  /** One more than the milliseconds a connection can be idle. */
  function Patience(io: Connection, idleMs: u32): (w: nat)
    ensures w > 0
  {
    idleMs + 2 * io.slowest + 1
  }

  /** So many rounds end every download whose idle time is measurable. */
  function Enough(io: Connection, total: nat, idleMs: u32, maxRetries: nat): nat {
    (total + 2 * maxRetries + 1) * Patience(io, idleMs)
  }

  /** Bytes, retries and an opening still to come. */
  function Ahead(bytes: nat, retries: nat, isOpen: bool): nat { bytes + 2 * retries + if isOpen then 0 else 1 }

  /** The milliseconds left of an idle time. */
  function Wait(io: Connection, clock: nat, isOpen: bool, since: nat, idleMs: u32): int {
    if isOpen then since + idleMs + 2 * io.slowest - clock else 0
  }

  /** How many rounds are left at most. */
  function Left(ahead: nat, wait: int, patience: nat): int { ahead * patience + wait }

  /** A round either waits on, or gets ahead and may wait a whole idle time again. */
  lemma LeftFalls(ahead: nat, wait: int, next: nat, nextWait: int, patience: nat)
    requires (next == ahead && nextWait < wait) || (next < ahead && 0 <= wait && nextWait < patience)
    ensures Left(next, nextWait, patience) < Left(ahead, wait, patience)
  {
    if next < ahead {
      assert (next + 1) * patience <= ahead * patience;
    }
  }

  /** After `k` rounds at most `all` are ever needed, as far as idle time can be
      measured. */
  ghost predicate Within(io: Connection, clock: nat, k: nat, bytes: nat, retries: nat, isOpen: bool, since: nat, idleMs: u32, all: nat) {
    Measurable(io, idleMs) ==>
      && (isOpen ==> clock <= since + idleMs + 2 * io.slowest)
      && k + Left(Ahead(bytes, retries, isOpen), Wait(io, clock, isOpen, since, idleMs), Patience(io, idleMs)) <= all
  }

  lemma WithinAtFirst(io: Connection, total: nat, idleMs: u32, maxRetries: nat)
    ensures Within(io, io.clock, 0, total, maxRetries, false, io.clock, idleMs, Enough(io, total, idleMs, maxRetries))
  {
  }

  /** A failure costs a retry. */
  lemma WithinAfterFailure(io: Connection, clock: nat, k: nat, bytes: nat, retries: nat, isOpen: bool, since: nat, idleMs: u32, all: nat,
                           later: nat)
    requires Within(io, clock, k, bytes, retries + 1, isOpen, since, idleMs, all)
    ensures Within(io, later, k + 1, bytes, retries, false, since, idleMs, all)
  {
    if Measurable(io, idleMs) {
      LeftFalls(Ahead(bytes, retries + 1, isOpen), Wait(io, clock, isOpen, since, idleMs), Ahead(bytes, retries, false), 0,
                Patience(io, idleMs));
      hide Left;
    }
  }

  /** A round on a connection open since `from` waits on, or takes `n` bytes. */
  lemma WithinAfterRound(io: Connection, clock: nat, k: nat, bytes: nat, retries: nat, isOpen: bool, since: nat, idleMs: u32, all: nat,
                         from: nat, ready: nat, n: nat, again: nat, later: nat)
    requires Within(io, clock, k, bytes, retries, isOpen, since, idleMs, all) && n <= bytes
    requires clock <= ready && (if isOpen then from == since && ready <= clock + 2 * io.slowest else from == ready)
    requires n == 0 ==> again == from && ready < later && (Brief(io, ready, from) ==> later < from + idleMs + io.slowest)
    requires n > 0 ==> again <= later <= again + 2 * io.slowest
    ensures Within(io, later, k + 1, bytes - n, retries, true, again, idleMs, all)
  {
    if Measurable(io, idleMs) {
      LeftFalls(Ahead(bytes, retries, isOpen), Wait(io, clock, isOpen, since, idleMs),
                Ahead(bytes - n, retries, true), Wait(io, later, true, again, idleMs), Patience(io, idleMs));
      hide Left;
    }
  }

  lemma WithinEnough(io: Connection, clock: nat, k: nat, bytes: nat, retries: nat, isOpen: bool, since: nat, idleMs: u32, all: nat)
    requires Within(io, clock, k, bytes, retries, isOpen, since, idleMs, all) && bytes > 0
    ensures Measurable(io, idleMs) ==> k < all
  {
    if Measurable(io, idleMs) {
      LeftFalls(Ahead(bytes, retries, isOpen), Wait(io, clock, isOpen, since, idleMs), 0, 0, Patience(io, idleMs));
    }
  }

  /** Every retry so far was for a fault, or for one of the idle times that
      passed between `begun` and `until`. */
  ghost predicate Accounted(faults: nat, begun: nat, retries: nat, idled: nat, until: nat, idleMs: u32) {
    retries == faults + idled && begun + idled * idleMs <= until
  }

  lemma LaterAccounted(faults: nat, begun: nat, retries: nat, idled: nat, until: nat, later: nat, idleMs: u32)
    requires Accounted(faults, begun, retries, idled, until, idleMs) && until <= later
    ensures Accounted(faults, begun, retries, idled, later, idleMs)
  {
  }

  /** A failure shows a fault, or an idle time. */
  lemma FailureAccounted(faults: nat, begun: nat, retries: nat, idled: nat, since: nat, idleMs: u32, shown: nat, now: nat)
    returns (more: nat)
    requires Accounted(faults, begun, retries, idled, since, idleMs) && since <= now
    requires shown == faults + 1 || (shown == faults && since + idleMs <= now)
    ensures Accounted(shown, begun, retries + 1, more, now, idleMs) && shown <= retries + 1
  {
    more := if shown == faults then idled + 1 else idled;
    assert (idled + 1) * idleMs == idled * idleMs + idleMs;
  }

  lemma BeginsFresh(io: Connection, totalMs: u32)
    ensures Fresh(io, io.clock, totalMs, 3) && forall idleMs: u32 :: Accounted(0, io.clock, 0, 0, io.clock, idleMs)
  {
  }

  /** Given up only after `failures` faults and idle times, and in time. */
  lemma GivenUp(io: Connection, begun: nat, totalMs: u32, calls: nat, faults: nat, failures: nat, idled: nat, idleMs: u32)
    requires Accounted(faults, begun, failures, idled, io.clock, idleMs) && Fresh(io, begun, totalMs, calls) && calls <= 2
    ensures faults <= failures && begun + (failures - faults) * idleMs <= io.clock
    ensures Punctual(io, Transport, begun, totalMs) && (Bounded(io, totalMs) ==> io.clock <= begun + totalMs + 5 * io.slowest)
  {
    FresherStill(io, begun, totalMs, calls, 2);
  }

  lemma InTimeYet(io: Connection, begun: nat, totalMs: u32)
    requires Fresh(io, begun, totalMs, 3)
    ensures Bounded(io, totalMs) ==> io.clock <= begun + totalMs + 5 * io.slowest
  {
    FresherStill(io, begun, totalMs, 3, 5);
  }

  /** Whatever the end, it is in time. */
  lemma EndsInTime(io: Connection, result: DownloadResult, begun: nat, totalMs: u32)
    requires Punctual(io, result, begun, totalMs)
    ensures Bounded(io, totalMs) ==> io.clock <= begun + totalMs + 5 * io.slowest
  {
  }

  /** Before another attempt to open; a pause only when none succeeded. */
  method Retry(io: Connection, wasOpen: bool, ghost begun: nat, ghost totalMs: u32)
    requires io.Valid() && Fresh(io, begun, totalMs, if wasOpen then 2 else 1) && (wasOpen ==> io.rested)
    modifies io`live, io`calls, io`clock, io`rested
    ensures io.Valid() && !io.live && io.rested && Fresh(io, begun, totalMs, 3) && old(io.clock) <= io.clock
  {
    hide Connection.Valid;
    FresherStill(io, begun, totalMs, if wasOpen then 2 else 1, 2);
    io.Close();
    if wasOpen {
      FresherStill(io, begun, totalMs, 2, 3);
    } else {
      ghost var seen := io.clock;
      assert Bounded(io, totalMs) ==> seen <= begun + totalMs + 2 * io.slowest;
      io.Pause();
      OneCall(io, begun, totalMs, 2, seen);
    }
  }

  /** When the present idle time began, if any. */
  ghost function IdleSince(io: Connection, isOpen: bool, since: nat): nat
    reads io`clock
  {
    if isOpen then since else io.clock
  }

  /** One iteration: a connection, then an exchange on it; on a failure
      `nowOpen` tells whether there still is a connection to close. */
  method Round(io: Connection, buffer: array<byte>, buffered: nat, received: nat, isOpen: bool, progress: u32, ghost since: nat,
               idleMs: u32, started: u32, ghost begun: nat, totalMs: u32, ghost k: nat, ghost spare: nat, ghost all: nat)
    returns (step: Step, n: nat, left: nat, nowOpen: bool, next: u32, ghost at: nat)
    requires io.Valid() && Carried(io, buffer, buffered, received) && Delivered(io) && ChunksFit(io, buffered, received)
    requires received < |io.cipher| && io.live == isOpen && io.rested
    requires isOpen ==> io.position == received && progress == Wrap32(since) && since <= io.clock
    requires started == Wrap32(begun) && Fresh(io, begun, totalMs, 3)
    requires Within(io, io.clock, k, |io.cipher| - received, spare, isOpen, since, idleMs, all)
    modifies io, buffer
    ensures io.Valid() && old(io.clock) <= io.clock && Delivered(io)
    ensures Caused(io, step, old(IdleSince(io, isOpen, since)), idleMs) && StopsPunctually(io, step, begun, totalMs)
    ensures io.unwritten == (old(io.unwritten) || step == Stopped(WriteFailed))
    ensures step == Stopped(WriteFailed) ==> io.refused == old(io.refused)
    ensures old(io.opens) <= io.opens <= old(io.opens) + if isOpen then 0 else 1
    ensures !step.Stopped? ==> io.opens == old(io.opens) + if isOpen then 0 else 1
    ensures step.Failed? ==> Fresh(io, begun, totalMs, if nowOpen then 2 else 1) && (isOpen ==> nowOpen)
    ensures step.Failed? ==> Carried(io, buffer, buffered, received) && ChunksFit(io, buffered, received) && (nowOpen ==> io.rested)
    ensures step.Waiting? || step.Done? ==>
              && io.live && io.rested && Fresh(io, begun, totalMs, 3) && received + n <= |io.cipher| && io.position == received + n
              && Carried(io, buffer, left, received + n) && ChunksFit(io, left, received + n)
              && next == Wrap32(at) && old(IdleSince(io, isOpen, since)) <= at <= io.clock
              && Within(io, io.clock, k + 1, |io.cipher| - received - n, spare, true, at, idleMs, all)
              && (received + n == |io.cipher| ==> Punctual(io, Complete, begun, totalMs))
  {
    hide Late, Carried, Connection.Valid, Concat, AllFull, FullButLast, Delivered, Fresh, Punctual, Within, Brief, ChunksFit;
    n, left := 0, buffered;
    ghost var before := io.clock;
    step, next, at := EnsureOpen(io, received, isOpen, progress, since, idleMs, started, begun, totalMs);
    nowOpen := step.Done?;
    if !nowOpen {
      return;
    }
    ghost var from, ready := at, io.clock;
    var took, later;
    ghost var instant;
    step, took, left, later, instant := Exchange(io, buffer, buffered, received, next, at, idleMs, started, begun, totalMs);
    if step.Waiting? {
      left := buffered;
      WithinAfterRound(io, before, k, |io.cipher| - received, spare, isOpen, since, idleMs, all, from, ready, 0, from, io.clock);
    }
    if step.Done? {
      n, next, at := took, later, instant;
      WithinAfterRound(io, before, k, |io.cipher| - received, spare, isOpen, since, idleMs, all, from, ready, n, at, io.clock);
    }
  }

  /** `begun` is when the clock was first read; the loop is followed for
      `rounds` iterations at most, none if it has not ended by then. */
  method DownloadOta(io: Connection, total: u32, idleMs: u32, totalMs: u32, maxRetries: u32, rounds: nat)
    returns (result: Option<DownloadResult>, ghost begun: nat)
    requires io.Valid() && |io.cipher| == total && io.Unused()
    modifies io
    ensures result == None ==> !Measurable(io, idleMs) || rounds < Enough(io, total, idleMs, maxRetries)
    ensures begun == old(io.clock) + io.answers(old(io.calls)).elapsed
    ensures result.Some? && total > 0 ==> Punctual(io, result.value, begun, totalMs)
    ensures Bounded(io, totalMs) ==> io.clock <= begun + totalMs + 5 * io.slowest
    ensures io.opens <= maxRetries + 1 && (result == Some(Transport) ==> io.opens == maxRetries + 1)
    ensures io.faults <= if result == None || result == Some(Complete) then maxRetries else maxRetries + 1
    ensures result == Some(Transport) ==> begun + (maxRetries + 1 - io.faults) * idleMs <= io.clock
    ensures (result == Some(Rejected) && total > 0 ==> io.refused) && (io.refused ==> result == Some(Rejected) || result == Some(Timeout))
    ensures result == Some(WriteFailed) <==> io.unwritten
    ensures Delivered(io)
    ensures result == Some(Complete) ==> total > 0 && Concat(io.writes) == io.cipher && FullButLast(io.writes)
    ensures total == 0 ==> result == Some(Rejected)
  {
    hide Late, Carried, Connection.Valid, Concat, AllFull, FullButLast, Delivered, Enough, Fresh, Punctual, Accounted, Bounded, Within,
         Measurable;
    var buffer := new byte[CHUNK](i => 0);
    EmptyConcat(io, buffer);
    var buffered: nat, received: nat := 0, 0;
    var started := io.Now();
    var progress := started;
    BeginsFresh(io, totalMs);
    begun := io.clock;
    ghost var since: nat, idled: nat := io.clock, 0;
    var isOpen, retries, k := false, 0, 0;
    WithinAtFirst(io, total, idleMs, maxRetries);
    ghost var all := Enough(io, total, idleMs, maxRetries);
    while received < total && k < rounds
      invariant io.Valid() && fresh(buffer) && received <= total && k <= rounds && io.live == isOpen && io.rested
      invariant Carried(io, buffer, buffered, received) && Delivered(io) && ChunksFit(io, buffered, received)
      invariant isOpen ==> io.position == received && progress == Wrap32(since) && since <= io.clock
      invariant !io.refused && !io.unwritten
      invariant Fresh(io, begun, totalMs, 3) && (received == total && total > 0 ==> Punctual(io, Complete, begun, totalMs))
      invariant Accounted(io.faults, begun, retries, idled, IdleSince(io, isOpen, since), idleMs)
      invariant io.faults <= retries <= maxRetries && io.opens == retries + if isOpen then 1 else 0
      invariant Within(io, io.clock, k, total - received, maxRetries - retries, isOpen, since, idleMs, all)
      decreases rounds - k
    {
      ghost var before, last, faults := io.clock, IdleSince(io, isOpen, since), io.faults;
      var step, n, left, nowOpen, next, at :=
        Round(io, buffer, buffered, received, isOpen, progress, since, idleMs, started, begun, totalMs, k, maxRetries - retries, all);
      k := k + 1;
      if step.Stopped? {
        EndsInTime(io, step.result, begun, totalMs);
        return Some(step.result), begun;
      }
      if step.Failed? {
        ghost var more := FailureAccounted(faults, begun, retries, idled, last, idleMs, io.faults, io.clock);
        if retries >= maxRetries {
          GivenUp(io, begun, totalMs, if nowOpen then 2 else 1, io.faults, retries + 1, more, idleMs);
          return Some(Transport), begun;
        }
        ghost var seen := io.clock;
        Retry(io, nowOpen, begun, totalMs);
        LaterAccounted(io.faults, begun, retries + 1, more, seen, io.clock, idleMs);
        WithinAfterFailure(io, before, k - 1, total - received, maxRetries - retries - 1, isOpen, since, idleMs, all, io.clock);
        retries, idled, isOpen := retries + 1, more, false;
        continue;
      }
      LaterAccounted(io.faults, begun, retries, idled, last, at, idleMs);
      received, buffered, isOpen, progress, since := received + n, left, true, next, at;
    }
    InTimeYet(io, begun, totalMs);
    if received < total {
      WithinEnough(io, io.clock, k, total - received, maxRetries - retries, isOpen, since, idleMs, all);
      return None, begun;
    }
    CarriedPrefix(io, buffer, buffered, received);
    result := Some(if received == total && total != 0 then Complete else Rejected);
  }

  lemma EmptyConcat(io: Connection, buffer: array<byte>)
    requires io.writes == [] && buffer.Length == CHUNK
    ensures Carried(io, buffer, 0, 0) && Delivered(io) && ChunksFit(io, 0, 0)
  {
  }
}
