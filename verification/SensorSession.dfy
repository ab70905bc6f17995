/** The sensor windows recorded per access session
    (include/SensorSessionDiagnostics.h, `SensorSessionTracker`). */
module SensorSession {
  import opened Wrappers
  import opened Words

  const PENDING_CAPACITY: nat := 4
  const NO_MEASUREMENT: u16 := 0xFFFF
  const ORPHAN_RETENTION_MS: nat := 300000

  datatype Clearance = Unknown | Clear | Occupied | Fault

  datatype Counters = Counters(samples: u32, valid: u32, timeouts: u32, invalid: u32, inRange: u32, blocked: u32, clear: u32)

  datatype Measured = Measured(threshold: u16, minRaw: u16, maxRaw: u16, lastRaw: u16, lastMedian: u16)

  datatype Summary = Summary(
    started: u32, ended: u32, counters: Counters, measured: Measured,
    blockedAtStart: bool, blockedAtEnd: bool, clearance: Clearance)

  const EMPTY := Summary(0, 0, Counters(0, 0, 0, 0, 0, 0, 0),
                         Measured(0, NO_MEASUREMENT, NO_MEASUREMENT, NO_MEASUREMENT, NO_MEASUREMENT), false, false, Unknown)

  // ---------- Specification ----------

  function Opening(now: u32, threshold: u16, blocked: bool): Summary {
    EMPTY.(started := now, measured := EMPTY.measured.(threshold := threshold), blockedAtStart := blocked)
  }

  function Plus(x: u32): u32 { Wrap32(x + 1) }

  function Valued(s: Summary, raw: u16): Summary {
    var c, m := s.counters, s.measured;
    s.(counters := c.(valid := Plus(c.valid),
                      inRange := if raw <= m.threshold then Plus(c.inRange) else c.inRange,
                      clear := if raw > m.threshold + 100 then Plus(c.clear) else c.clear),
       measured := m.(minRaw := if m.minRaw == NO_MEASUREMENT || raw < m.minRaw then raw else m.minRaw,
                      maxRaw := if m.maxRaw == NO_MEASUREMENT || raw > m.maxRaw then raw else m.maxRaw))
  }

  function Observed(s: Summary, echo: bool, raw: u16, median: u16, blocked: bool, clearance: Clearance): Summary {
    var noted := s.(counters := s.counters.(samples := Plus(s.counters.samples),
                                           blocked := if blocked then Plus(s.counters.blocked) else s.counters.blocked),
                    measured := s.measured.(lastRaw := raw, lastMedian := median), clearance := clearance);
    if !echo then noted.(counters := noted.counters.(timeouts := Plus(noted.counters.timeouts)))
    else if raw == NO_MEASUREMENT then noted.(counters := noted.counters.(invalid := Plus(noted.counters.invalid)))
    else Valued(noted, raw)
  }

  function Closing(s: Summary, now: u32, blocked: bool, clearance: Clearance): Summary {
    s.(ended := now, blockedAtEnd := blocked, clearance := clearance)
  }

  /** The first window that ended at `at`. */
  function Find(pending: seq<Summary>, at: u64): (r: nat)
    ensures r <= |pending| && (r < |pending| ==> pending[r].ended == at)
    ensures forall i | 0 <= i < r :: pending[i].ended != at
  {
    if pending == [] || pending[0].ended == at then 0 else 1 + Find(pending[1..], at)
  }

  function Without(pending: seq<Summary>, i: nat): seq<Summary>
    requires i < |pending|
  {
    pending[..i] + pending[i + 1..]
  }

  predicate Recent(s: Summary, now: u32) { Sub32(now, s.ended) < ORPHAN_RETENTION_MS }

  /** The recent windows, in order. */
  function Surviving(pending: seq<Summary>, now: u32): (r: seq<Summary>)
    ensures |r| <= |pending|
  {
    if pending == [] then []
    else (if Recent(pending[0], now) then [pending[0]] else []) + Surviving(pending[1..], now)
  }

  // ---------- What the signer checks ----------

  predicate Measurable(x: u16) { x == NO_MEASUREMENT || 200 <= x <= 4000 }

  /** The counter and range checks on a summary to be signed. */
  predicate Signable(s: Summary) {
    var c, m := s.counters, s.measured;
    && 200 <= m.threshold <= 4000
    && c.valid + c.timeouts + c.invalid == c.samples
    && c.inRange <= c.valid && c.clear <= c.valid && c.blocked <= c.samples
    && Measurable(m.minRaw) && Measurable(m.maxRaw) && Measurable(m.lastRaw) && Measurable(m.lastMedian)
  }

  /** Inputs in range keep a window signable as long as its samples fit. */
  lemma ObservedSignable(s: Summary, echo: bool, raw: u16, median: u16, blocked: bool, clearance: Clearance)
    requires Signable(s) && Measurable(raw) && Measurable(median) && s.counters.samples + 1 < 0x1_0000_0000
    ensures Signable(Observed(s, echo, raw, median, blocked, clearance))
    ensures Observed(s, echo, raw, median, blocked, clearance).counters.samples == s.counters.samples + 1
  {
    hide Wrap32;
    var c := s.counters;
    PlusExact(c.samples);
    PlusExact(c.valid);
    PlusExact(c.timeouts);
    PlusExact(c.invalid);
    PlusExact(c.inRange);
    PlusExact(c.blocked);
    PlusExact(c.clear);
  }

  lemma PlusExact(x: u32)
    ensures x + 1 < 0x1_0000_0000 ==> Plus(x) == x + 1
  {
  }

  datatype Reading = Reading(echo: bool, raw: u16, median: u16, blocked: bool, clearance: Clearance)

  function Window(s: Summary, readings: seq<Reading>): Summary {
    if readings == [] then s
    else
      var last := readings[|readings| - 1];
      Observed(Window(s, readings[..|readings| - 1]), last.echo, last.raw, last.median, last.blocked, last.clearance)
  }

  lemma {:induction false} ReadingsSignable(now: u32, threshold: u16, blocked: bool, readings: seq<Reading>)
    requires 200 <= threshold <= 4000 && |readings| < 0x1_0000_0000
    requires forall i | 0 <= i < |readings| :: Measurable(readings[i].raw) && Measurable(readings[i].median)
    ensures Signable(Window(Opening(now, threshold, blocked), readings))
    ensures Window(Opening(now, threshold, blocked), readings).counters.samples == |readings|
  {
    if readings != [] {
      var front, last := readings[..|readings| - 1], readings[|readings| - 1];
      ReadingsSignable(now, threshold, blocked, front);
      ObservedSignable(Window(Opening(now, threshold, blocked), front), last.echo, last.raw, last.median, last.blocked, last.clearance);
    }
  }

  // ---------- What a window counts ----------

  /** What the counters of a window count. */
  datatype Kind = Every | WithValue | Silent | Unusable | InReach | WellClear | Obstructed

  predicate IsValid(r: Reading) { r.echo && r.raw != NO_MEASUREMENT }

  predicate IsOf(kind: Kind, threshold: u16, r: Reading) {
    match kind
    case Every => true
    case WithValue => IsValid(r)
    case Silent => !r.echo
    case Unusable => r.echo && r.raw == NO_MEASUREMENT
    case InReach => IsValid(r) && r.raw <= threshold
    case WellClear => IsValid(r) && r.raw > threshold + 100
    case Obstructed => r.blocked
  }

  function CountOf(kind: Kind, threshold: u16, readings: seq<Reading>): (n: nat)
    ensures n <= |readings|
  {
    if readings == [] then 0
    else CountOf(kind, threshold, readings[..|readings| - 1]) + if IsOf(kind, threshold, readings[|readings| - 1]) then 1 else 0
  }

  function Counter(kind: Kind, c: Counters): u32 {
    match kind
    case Every => c.samples
    case WithValue => c.valid
    case Silent => c.timeouts
    case Unusable => c.invalid
    case InReach => c.inRange
    case WellClear => c.clear
    case Obstructed => c.blocked
  }

  lemma CounterSteps(kind: Kind, s: Summary, r: Reading)
    requires Counter(kind, s.counters) + 1 < 0x1_0000_0000
    ensures var o := Observed(s, r.echo, r.raw, r.median, r.blocked, r.clearance);
            && Counter(kind, o.counters) == Counter(kind, s.counters) + (if IsOf(kind, s.measured.threshold, r) then 1 else 0)
            && o.measured.threshold == s.measured.threshold
  {
    hide Wrap32;
    PlusExact(Counter(kind, s.counters));
  }

  /** Below 2^32 readings every counter is the number of readings of its kind. */
  lemma {:induction false} WindowCounts(kind: Kind, now: u32, threshold: u16, blocked: bool, readings: seq<Reading>)
    requires |readings| < 0x1_0000_0000
    ensures var w := Window(Opening(now, threshold, blocked), readings);
            Counter(kind, w.counters) == CountOf(kind, threshold, readings) && w.measured.threshold == threshold
  {
    if readings != [] {
      var front, last := readings[..|readings| - 1], readings[|readings| - 1];
      WindowCounts(kind, now, threshold, blocked, front);
      CounterSteps(kind, Window(Opening(now, threshold, blocked), front), last);
      hide Observed, IsOf, Counter;
    }
  }

  lemma ExtremesStep(s: Summary, r: Reading)
    ensures var o, m := Observed(s, r.echo, r.raw, r.median, r.blocked, r.clearance).measured, s.measured;
            && o.minRaw == (if IsValid(r) && (m.minRaw == NO_MEASUREMENT || r.raw < m.minRaw) then r.raw else m.minRaw)
            && o.maxRaw == (if IsValid(r) && (m.maxRaw == NO_MEASUREMENT || r.raw > m.maxRaw) then r.raw else m.maxRaw)
            && o.lastRaw == r.raw && o.lastMedian == r.median
  {
    hide Wrap32;
  }

  ghost predicate Attained(readings: seq<Reading>, raw: u16) {
    exists i | 0 <= i < |readings| :: IsValid(readings[i]) && readings[i].raw == raw
  }

  lemma AttainedStays(readings: seq<Reading>, raw: u16)
    requires readings != []
    ensures Attained(readings[..|readings| - 1], raw) ==> Attained(readings, raw)
  {
    var front := readings[..|readings| - 1];
    if Attained(front, raw) {
      var i :| 0 <= i < |front| && IsValid(front[i]) && front[i].raw == raw;
      assert readings[i] == front[i];
    }
  }

  /** The extremes are those of the valid readings, the last values those of
      the last reading. */
  lemma {:induction false} WindowExtremes(now: u32, threshold: u16, blocked: bool, readings: seq<Reading>)
    ensures var m := Window(Opening(now, threshold, blocked), readings).measured;
            && (forall i | 0 <= i < |readings| && IsValid(readings[i]) :: m.minRaw <= readings[i].raw <= m.maxRaw < NO_MEASUREMENT)
            && (m.minRaw != NO_MEASUREMENT ==> Attained(readings, m.minRaw))
            && (m.maxRaw != NO_MEASUREMENT ==> Attained(readings, m.maxRaw))
            && (m.minRaw == NO_MEASUREMENT <==> m.maxRaw == NO_MEASUREMENT)
            && (readings != [] ==> m.lastRaw == readings[|readings| - 1].raw && m.lastMedian == readings[|readings| - 1].median)
  {
    if readings != [] {
      var front, last := readings[..|readings| - 1], readings[|readings| - 1];
      WindowExtremes(now, threshold, blocked, front);
      var f := Window(Opening(now, threshold, blocked), front);
      ExtremesStep(f, last);
      AttainedStays(readings, f.measured.minRaw);
      AttainedStays(readings, f.measured.maxRaw);
      assert IsValid(last) ==> Attained(readings, last.raw);
      hide Observed, Attained;
    }
  }

  /** Every finished window of in-range readings, fewer than 2^32 of them,
      passes every check of the signer. */
  lemma FinishedWindowsAreSignable(now: u32, threshold: u16, blocked: bool, readings: seq<Reading>,
                                   end: u32, blockedAtEnd: bool, clearance: Clearance)
    requires 200 <= threshold <= 4000 && |readings| < 0x1_0000_0000
    requires forall i | 0 <= i < |readings| :: Measurable(readings[i].raw) && Measurable(readings[i].median)
    ensures Signable(Closing(Window(Opening(now, threshold, blocked), readings), end, blockedAtEnd, clearance))
  {
    ReadingsSignable(now, threshold, blocked, readings);
  }

  // ---------- The class ----------

  function Saturate(n: nat): u32 { Min(n, 0xFFFF_FFFF) }

  function Bump(x: u32): u32 { if x == 0xFFFF_FFFF then x else x + 1 }

  /** How many windows were finished, taken, orphaned and dropped. */
  datatype Totals = Totals(finished: nat, taken: nat, orphaned: nat, dropped: nat)

  class SensorSessionTracker {
    const pending: array<Summary>
    var current: Summary
    var pendingCount: nat
    var dropped: u32
    var orphaned: u32
    var active: bool
    ghost var totals: Totals

    /** Every finished window is pending, taken, orphaned or dropped. */
    ghost predicate Valid()
      reads this
    {
      && pending.Length == PENDING_CAPACITY && pendingCount <= PENDING_CAPACITY
      && totals.finished == totals.taken + totals.orphaned + totals.dropped + pendingCount
      && dropped == Saturate(totals.dropped) && orphaned == Saturate(totals.orphaned)
    }

    ghost function Pending(): (p: seq<Summary>)
      requires Valid()
      reads this, pending
      ensures |p| == pendingCount
    {
      pending[..pendingCount]
    }

    constructor ()
      ensures Valid() && Pending() == [] && !active && totals == Totals(0, 0, 0, 0) && fresh(pending)
    {
      pending := new Summary[PENDING_CAPACITY](i => EMPTY);
      current, pendingCount, dropped, orphaned, active := EMPTY, 0, 0, 0, false;
      totals := Totals(0, 0, 0, 0);
    }

    method Begin(now: u32, threshold: u16, blocked: bool)
      requires Valid()
      modifies `current, `active
      ensures Valid() && active && current == Opening(now, threshold, blocked)
    {
      current := EMPTY;
      current := current.(started := now, measured := current.measured.(threshold := threshold), blockedAtStart := blocked);
      active := true;
    }

    method Observe(echo: bool, raw: u16, median: u16, blocked: bool, clearance: Clearance)
      requires Valid()
      modifies `current
      ensures Valid()
      ensures current == if active then Observed(old(current), echo, raw, median, blocked, clearance) else old(current)
    {
      if !active {
        return;
      }
      var c, m := current.counters, current.measured;
      c, m := c.(samples := Plus(c.samples)), m.(lastRaw := raw, lastMedian := median);
      if !echo {
        c := c.(timeouts := Plus(c.timeouts));
      } else if raw == NO_MEASUREMENT {
        c := c.(invalid := Plus(c.invalid));
      } else {
        c := c.(valid := Plus(c.valid));
        if m.minRaw == NO_MEASUREMENT || raw < m.minRaw {
          m := m.(minRaw := raw);
        }
        if m.maxRaw == NO_MEASUREMENT || raw > m.maxRaw {
          m := m.(maxRaw := raw);
        }
        if raw <= m.threshold {
          c := c.(inRange := Plus(c.inRange));
        }
        if raw > m.threshold + 100 {
          c := c.(clear := Plus(c.clear));
        }
      }
      if blocked {
        c := c.(blocked := Plus(c.blocked));
      }
      current := current.(counters := c, measured := m, clearance := clearance);
    }

    method Finish(now: u32, blocked: bool, clearance: Clearance) returns (kept: bool)
      requires Valid()
      modifies this, pending
      ensures Valid() && !active && kept == (old(active) && old(pendingCount) < PENDING_CAPACITY)
      ensures old(active) ==> current == Closing(old(current), now, blocked, clearance)
      ensures Pending() == if kept then old(Pending()) + [current] else old(Pending())
      ensures totals == if !old(active) then old(totals)
                        else if kept then old(totals).(finished := old(totals).finished + 1)
                        else old(totals).(finished := old(totals).finished + 1, dropped := old(totals).dropped + 1)
    {
      if !active {
        return false;
      }
      current := current.(ended := now, blockedAtEnd := blocked, clearance := clearance);
      active := false;
      totals := totals.(finished := totals.finished + 1);
      if pendingCount == pending.Length {
        dropped := Bump(dropped);
        totals := totals.(dropped := totals.dropped + 1);
        return false;
      }
      pending[pendingCount] := current;
      pendingCount := pendingCount + 1;
      kept := true;
    }

    /** Closes the gap at `i`. */
    method RemoveAt(i: nat)
      requires pending.Length == PENDING_CAPACITY && i < pendingCount <= PENDING_CAPACITY
      modifies `pendingCount, pending
      ensures pendingCount == old(pendingCount) - 1 && pending[..pendingCount] == Without(old(pending[..pendingCount]), i)
    {
      ghost var before := pending[..pendingCount];
      var next := i + 1;
      while next < pendingCount
        invariant i < next <= pendingCount == old(pendingCount) <= PENDING_CAPACITY
        invariant forall k | 0 <= k < i :: pending[k] == before[k]
        invariant forall k | i <= k < next - 1 :: pending[k] == before[k + 1]
        invariant forall k | next <= k < pendingCount :: pending[k] == before[k]
      {
        pending[next - 1] := pending[next];
        next := next + 1;
      }
      pendingCount := pendingCount - 1;
      pending[pendingCount] := EMPTY;
      assert pending[..pendingCount] == Without(before, i);
    }

    method Take(terminal: u64) returns (output: Option<Summary>)
      requires Valid()
      modifies `pendingCount, `totals, pending
      ensures Valid()
      ensures var i := Find(old(Pending()), terminal);
              && i <= |old(Pending())|
              && if i < |old(Pending())|
              then output == Some(old(Pending())[i]) && Pending() == Without(old(Pending()), i)
                   && totals == old(totals).(taken := old(totals).taken + 1)
              else output == None && Pending() == old(Pending()) && totals == old(totals)
    {
      hide Find, Without;
      var i := IndexOf(terminal);
      if i == pendingCount {
        return None;
      }
      output := Some(pending[i]);
      RemoveAt(i);
      totals := totals.(taken := totals.taken + 1);
    }

    method IndexOf(terminal: u64) returns (i: nat)
      requires Valid()
      ensures i == Find(Pending(), terminal)
    {
      i := 0;
      while i < pendingCount
        invariant 0 <= i <= pendingCount && Find(Pending(), terminal) == i + Find(Pending()[i..], terminal)
      {
        assert Pending()[i..][0] == pending[i] && Pending()[i..][1..] == Pending()[i + 1..];
        if pending[i].ended == terminal {
          return;
        }
        i := i + 1;
      }
    }

    /** Drops every window too old to be claimed, keeping the order. */
    method ExpireOrphans(now: u32, deferredEmpty: bool)
      requires Valid()
      modifies `pendingCount, `orphaned, `totals, pending
      ensures Valid()
      ensures Pending() == if deferredEmpty then Surviving(old(Pending()), now) else old(Pending())
      ensures |Pending()| <= |old(Pending())|
      ensures totals == old(totals).(orphaned := old(totals).orphaned + (|old(Pending())| - |Pending()|))
    {
      hide Surviving, Without, Recent;
      if !deferredEmpty {
        return;
      }
      ghost var before := Pending();
      var i := 0;
      SplitSurviving(before, now);
      while i < pendingCount
        invariant 0 <= i <= pendingCount <= |before| && Valid()
        invariant Surviving(before, now) == Pending()[..i] + Surviving(Pending()[i..], now)
        invariant totals == old(totals).(orphaned := old(totals).orphaned + (|before| - pendingCount))
        decreases pendingCount - i
      {
        SurvivingStep(Pending(), i, now);
        if Recent(pending[i], now) {
          i := i + 1;
        } else {
          RemoveAt(i);
          orphaned := Bump(orphaned);
          totals := totals.(orphaned := totals.orphaned + 1);
        }
      }
      SurvivingEnd(Pending(), now);
    }
  }

  // ---------- Runs of the tracker ----------

  datatype Event =
    | Begun(now: u32, threshold: u16, blocked: bool)
    | Read(reading: Reading)
    | Finished(now: u32, blocked: bool, clearance: Clearance)
    | Asked(terminal: u64)
    | Expired(now: u32, deferredEmpty: bool)

  /** Thresholds and distances are in the range the sensor reports. */
  predicate InRange(e: Event) {
    match e
    case Begun(now, threshold, blocked) => 200 <= threshold <= 4000
    case Read(r) => Measurable(r.raw) && Measurable(r.median)
    case _ => true
  }

  /** Every window of the tracker passes the checks of the signer. */
  ghost predicate AllSignable(tracker: SensorSessionTracker, readings: nat)
    requires tracker.Valid()
    reads tracker, tracker.pending
  {
    && (tracker.active ==> Signable(tracker.current) && tracker.current.counters.samples <= readings)
    && forall p | p in tracker.Pending() :: Signable(p)
  }

  /** One event keeps every window signable, and what is claimed is so too. */
  method Perform(tracker: SensorSessionTracker, e: Event, ghost readings: nat) returns (claimed: Option<Summary>)
    requires tracker.Valid() && AllSignable(tracker, readings) && InRange(e) && readings + 1 < 0x1_0000_0000
    modifies tracker, tracker.pending
    ensures tracker.Valid() && AllSignable(tracker, readings + 1)
    ensures claimed.Some? ==> Signable(claimed.value)
    ensures tracker.totals.taken == old(tracker.totals).taken + (if claimed.Some? then 1 else 0)
    ensures tracker.totals.finished == old(tracker.totals).finished + (if e.Finished? && old(tracker.active) then 1 else 0)
  {
    hide Observed, Find, Measurable, Surviving, Signable, Recent;
    claimed := None;
    match e
    case Begun(now, threshold, blocked) =>
      tracker.Begin(now, threshold, blocked);
      OpeningSignable(now, threshold, blocked);
    case Read(r) =>
      if tracker.active {
        ObservedSignable(tracker.current, r.echo, r.raw, r.median, r.blocked, r.clearance);
      }
      tracker.Observe(r.echo, r.raw, r.median, r.blocked, r.clearance);
    case Finished(now, blocked, clearance) =>
      if tracker.active {
        ClosingSignable(tracker.current, now, blocked, clearance);
      }
      var kept := tracker.Finish(now, blocked, clearance);
    case Asked(terminal) => claimed := tracker.Take(terminal);
    case Expired(now, deferredEmpty) =>
      SurvivingIsFilter(tracker.Pending(), now);
      tracker.ExpireOrphans(now, deferredEmpty);
  }

  lemma OpeningSignable(now: u32, threshold: u16, blocked: bool)
    requires 200 <= threshold <= 4000
    ensures Signable(Opening(now, threshold, blocked)) && Opening(now, threshold, blocked).counters.samples == 0
  {
  }

  lemma ClosingSignable(s: Summary, now: u32, blocked: bool, clearance: Clearance)
    requires Signable(s)
    ensures Signable(Closing(s, now, blocked, clearance))
  {
  }

  /** A new tracker through any fewer than 2^32 events in range: every window it
      holds or has handed out passes the checks of the signer, and none is lost
      unnoticed. */
  method Drive(events: seq<Event>) returns (tracker: SensorSessionTracker, claimed: seq<Summary>)
    requires |events| < 0x1_0000_0000 && forall k | 0 <= k < |events| :: InRange(events[k])
    ensures fresh(tracker) && tracker.Valid() && AllSignable(tracker, |events|)
    ensures |claimed| == tracker.totals.taken && forall k | 0 <= k < |claimed| :: Signable(claimed[k])
  {
    hide Signable, SensorSessionTracker.Valid, AllSignable, InRange;
    tracker := new SensorSessionTracker();
    claimed := [];
    NothingPending(tracker);
    var k := 0;
    while k < |events|
      invariant 0 <= k <= |events| && fresh(tracker) && fresh(tracker.pending)
      invariant tracker.Valid() && AllSignable(tracker, k)
      invariant |claimed| == tracker.totals.taken && forall i | 0 <= i < |claimed| :: Signable(claimed[i])
    {
      var one := Perform(tracker, events[k], k);
      if one.Some? {
        claimed := claimed + [one.value];
      }
      k := k + 1;
    }
  }

  lemma NothingPending(tracker: SensorSessionTracker)
    requires tracker.Valid() && tracker.Pending() == [] && !tracker.active
    ensures AllSignable(tracker, 0)
  {
  }

  lemma SplitSurviving(p: seq<Summary>, now: u32)
    ensures Surviving(p, now) == p[..0] + Surviving(p[0..], now)
  {
    assert p[0..] == p;
  }

  lemma SurvivingEnd(p: seq<Summary>, now: u32)
    ensures p[..|p|] + Surviving(p[|p|..], now) == p
  {
  }

  /** Examining one window: keep it, or close the gap. */
  lemma SurvivingStep(p: seq<Summary>, i: nat, now: u32)
    requires i < |p|
    ensures p[..i] + Surviving(p[i..], now)
            == if Recent(p[i], now) then p[..i + 1] + Surviving(p[i + 1..], now)
               else Without(p, i)[..i] + Surviving(Without(p, i)[i..], now)
  {
    assert p[i..][0] == p[i] && p[i..][1..] == p[i + 1..];
    assert p[..i + 1] == p[..i] + [p[i]];
    assert Without(p, i)[..i] == p[..i] && Without(p, i)[i..] == p[i + 1..];
  }

  /** Expiry keeps exactly the recent windows. */
  lemma {:induction false} SurvivingIsFilter(p: seq<Summary>, now: u32)
    ensures forall s :: s in Surviving(p, now) <==> s in p && Recent(s, now)
  {
    if p != [] {
      SurvivingIsFilter(p[1..], now);
      assert p == [p[0]] + p[1..];
    }
  }
}
