/** The authenticated text of a sensor summary
    (src/GattProtocol.cpp, `buildSensorSummaryMacInput`), and the separation of
    all kinds of authenticated evidence. */
module SensorEvidence {
  import opened Wrappers
  import opened Words
  import opened Decimals
  import opened CanonicalBytes
  import opened SensorSession
  import A = AccessEvidence
  import R = Receipts

  // ---------- Decimal text ----------

  function DigitChar(d: nat): char
    requires d < 10
  {
    '0' + d as char
  }

  function Decimal(n: nat): (s: string)
    ensures s != ""
  {
    if n < 10 then [DigitChar(n)] else Decimal(n / 10) + [DigitChar(n % 10)]
  }

  lemma DigitCharValue(d: nat)
    requires d < 10
    ensures Digit(DigitChar(d)) && DigitValue(DigitChar(d)) == d
  {
  }

  /** Decimal text reads back as the number, so it determines it. */
  lemma {:induction false} DecimalReads(n: nat)
    ensures Value(Decimal(n)) == n && forall i | 0 <= i < |Decimal(n)| :: Digit(Decimal(n)[i])
  {
    DigitCharValue(n % 10);
    if n < 10 {
      assert Decimal(n)[..0] == "" && Value("") == 0;
    } else {
      DecimalReads(n / 10);
      assert Decimal(n)[..|Decimal(n)| - 1] == Decimal(n / 10);
    }
  }

  lemma DecimalSame(m: nat, n: nat)
    requires Decimal(m) == Decimal(n)
    ensures m == n
  {
    DecimalReads(m);
    DecimalReads(n);
  }

  // ---------- Lines ----------

  predicate OneLine(s: string) { forall i | 0 <= i < |s| :: s[i] != '\n' }

  function Join(lines: seq<string>): string {
    if lines == [] then "" else if |lines| == 1 then lines[0] else lines[0] + "\n" + Join(lines[1..])
  }

  function LineLength(s: string): nat { if s == "" || s[0] == '\n' then 0 else 1 + LineLength(s[1..]) }

  lemma {:induction false} LineEnds(a: string, x: string)
    requires OneLine(a)
    ensures LineLength(a + "\n" + x) == |a|
    decreases |a|
  {
    if a != "" {
      LineEnds(a[1..], x);
      assert (a + "\n" + x)[1..] == a[1..] + "\n" + x;
    } else {
      assert (a + "\n" + x)[0] == '\n';
    }
  }

  lemma FirstLineSame(a: string, b: string, x: string, y: string)
    requires OneLine(a) && OneLine(b) && a + "\n" + x == b + "\n" + y
    ensures a == b && x == y
  {
    LineEnds(a, x);
    LineEnds(b, y);
    var s := a + "\n" + x;
    assert a == s[..|a|] && b == s[..|a|] && x == s[|a| + 1..] && y == s[|a| + 1..];
  }

  lemma {:induction false} LinesSame(a: seq<string>, b: seq<string>)
    requires |a| == |b| && (forall i | 0 <= i < |a| :: OneLine(a[i]) && OneLine(b[i])) && Join(a) == Join(b)
    ensures a == b
    decreases |a|
  {
    if |a| > 1 {
      FirstLineSame(a[0], b[0], Join(a[1..]), Join(b[1..]));
      LinesSame(a[1..], b[1..]);
      assert a == [a[0]] + a[1..] && b == [b[0]] + b[1..];
    }
  }

  // ---------- The summary text ----------

  datatype Record = Record(keyId: string, bootId: string, session: string, bootCount: u64, terminal: u64, summary: Summary)

  predicate LowerAlnum(c: char) { 'a' <= c <= 'z' || Digit(c) }

  predicate LowerHex(c: char) { Digit(c) || 'a' <= c <= 'f' }

  predicate TargetChar(c: char) { 'a' <= c <= 'z' || 'A' <= c <= 'Z' || Digit(c) || c == '_' || c == '-' }

  predicate SessionText(s: string) {
    && |s| == 36 && s[14] == '4' && s[19] in "89ab"
    && forall i | 0 <= i < 36 :: if i in {8, 13, 18, 23} then s[i] == '-' else LowerHex(s[i])
  }

  predicate BootText(s: string) {
    |s| == 32 && (forall i | 0 <= i < 32 :: LowerHex(s[i])) && exists i | 0 <= i < 32 :: s[i] != '0'
  }

  predicate RecordOk(target: string, r: Record) {
    && 0 < |r.keyId| <= 4 && (forall i | 0 <= i < |r.keyId| :: LowerAlnum(r.keyId[i]))
    && BootText(r.bootId) && SessionText(r.session) && r.bootCount != 0 && r.terminal != 0
    && 0 < |target| <= 48 && (forall i | 0 <= i < |target| :: TargetChar(target[i]))
    && Signable(r.summary)
  }

  function Measurement(x: u16): string { if x == NO_MEASUREMENT then "-" else Decimal(x) }

  function Flag(b: bool): string { if b then "1" else "0" }

  function ClearanceName(c: Clearance): string {
    match c
    case Unknown => "UNKNOWN"
    case Clear => "CLEAR"
    case Occupied => "OCCUPIED"
    case Fault => "FAULT"
  }

  const SENSOR_DOMAIN: string := "SGK-SENSOR-SESSION-MAC-V1"

  function HeaderLines(target: string, r: Record): seq<string> {
    [SENSOR_DOMAIN, r.keyId, target, r.bootId, Decimal(r.bootCount), r.session, Decimal(r.terminal)]
  }

  function CounterLines(s: Summary): seq<string> {
    [Decimal(s.started), Decimal(s.ended), Decimal(s.measured.threshold), Decimal(s.counters.samples), Decimal(s.counters.valid),
     Decimal(s.counters.timeouts), Decimal(s.counters.invalid), Decimal(s.counters.inRange), Decimal(s.counters.blocked),
     Decimal(s.counters.clear)]
  }

  function MeasureLines(s: Summary): seq<string> {
    [Measurement(s.measured.minRaw), Measurement(s.measured.maxRaw), Measurement(s.measured.lastRaw),
     Measurement(s.measured.lastMedian), Flag(s.blockedAtStart), Flag(s.blockedAtEnd), ClearanceName(s.clearance)]
  }

  function Lines(target: string, r: Record): seq<string> {
    HeaderLines(target, r) + CounterLines(r.summary) + MeasureLines(r.summary)
  }

  function SummaryText(target: string, r: Record): string { Join(Lines(target, r)) }

  lemma MeasurementSame(x: u16, y: u16)
    requires Measurement(x) == Measurement(y)
    ensures x == y
  {
    DecimalReads(x);
    DecimalReads(y);
  }

  predicate Plain(s: string) { OneLine(s) && Ascii(s) }

  lemma DecimalPlain(n: nat)
    ensures Plain(Decimal(n))
  {
    DecimalReads(n);
    assert forall i | 0 <= i < |Decimal(n)| :: Digit(Decimal(n)[i]);
  }

  predicate AllPlain(lines: seq<string>) { forall i | 0 <= i < |lines| :: Plain(lines[i]) }

  lemma HeaderPlain(target: string, r: Record)
    requires RecordOk(target, r)
    ensures AllPlain(HeaderLines(target, r))
  {
    hide Plain, RecordOk, Decimal;
    DecimalPlain(r.bootCount);
    DecimalPlain(r.terminal);
    TextsPlain(target, r);
  }

  lemma TextsPlain(target: string, r: Record)
    requires RecordOk(target, r)
    ensures Plain(target) && Plain(r.keyId) && Plain(r.bootId) && Plain(r.session) && Plain(SENSOR_DOMAIN)
  {
    hide Signable;
  }

  lemma CountersPlain(s: Summary)
    ensures AllPlain(CounterLines(s))
  {
    hide Plain, Decimal;
    DecimalPlain(s.started);
    DecimalPlain(s.ended);
    DecimalPlain(s.measured.threshold);
    DecimalPlain(s.counters.samples);
    DecimalPlain(s.counters.valid);
    DecimalPlain(s.counters.timeouts);
    DecimalPlain(s.counters.invalid);
    DecimalPlain(s.counters.inRange);
    DecimalPlain(s.counters.blocked);
    DecimalPlain(s.counters.clear);
  }

  lemma MeasuresPlain(s: Summary)
    ensures AllPlain(MeasureLines(s))
  {
    DecimalPlain(s.measured.minRaw);
    DecimalPlain(s.measured.maxRaw);
    DecimalPlain(s.measured.lastRaw);
    DecimalPlain(s.measured.lastMedian);
    assert Plain("-") && Plain("0") && Plain("1") && Plain(ClearanceName(s.clearance));
    hide Plain, Decimal, ClearanceName;
  }

  lemma LinesPlain(target: string, r: Record)
    requires RecordOk(target, r)
    ensures AllPlain(Lines(target, r))
  {
    hide RecordOk, Plain, HeaderLines, CounterLines, MeasureLines;
    HeaderPlain(target, r);
    CountersPlain(r.summary);
    MeasuresPlain(r.summary);
  }

  lemma {:induction false} JoinAscii(lines: seq<string>)
    requires AllPlain(lines)
    ensures Ascii(Join(lines))
    decreases |lines|
  {
    if |lines| > 1 {
      JoinAscii(lines[1..]);
    }
  }

  lemma CountersSame(s: Summary, t: Summary)
    requires CounterLines(s) == CounterLines(t)
    ensures s.started == t.started && s.ended == t.ended && s.measured.threshold == t.measured.threshold && s.counters == t.counters
  {
    hide Decimal;
    var f, g := CounterLines(s), CounterLines(t);
    assert f[0] == g[0] && f[1] == g[1] && f[2] == g[2] && f[3] == g[3] && f[4] == g[4];
    assert f[5] == g[5] && f[6] == g[6] && f[7] == g[7] && f[8] == g[8] && f[9] == g[9];
    DecimalSame(s.started, t.started);
    DecimalSame(s.ended, t.ended);
    DecimalSame(s.measured.threshold, t.measured.threshold);
    DecimalSame(s.counters.samples, t.counters.samples);
    DecimalSame(s.counters.valid, t.counters.valid);
    DecimalSame(s.counters.timeouts, t.counters.timeouts);
    DecimalSame(s.counters.invalid, t.counters.invalid);
    DecimalSame(s.counters.inRange, t.counters.inRange);
    DecimalSame(s.counters.blocked, t.counters.blocked);
    DecimalSame(s.counters.clear, t.counters.clear);
  }

  lemma MeasuresSame(s: Summary, t: Summary)
    requires MeasureLines(s) == MeasureLines(t)
    ensures s.measured.minRaw == t.measured.minRaw && s.measured.maxRaw == t.measured.maxRaw
    ensures s.measured.lastRaw == t.measured.lastRaw && s.measured.lastMedian == t.measured.lastMedian
    ensures s.blockedAtStart == t.blockedAtStart && s.blockedAtEnd == t.blockedAtEnd && s.clearance == t.clearance
  {
    hide Measurement;
    var f, g := MeasureLines(s), MeasureLines(t);
    assert f[0] == g[0] && f[1] == g[1] && f[2] == g[2] && f[3] == g[3] && f[4] == g[4] && f[5] == g[5] && f[6] == g[6];
    MeasurementSame(s.measured.minRaw, t.measured.minRaw);
    MeasurementSame(s.measured.maxRaw, t.measured.maxRaw);
    MeasurementSame(s.measured.lastRaw, t.measured.lastRaw);
    MeasurementSame(s.measured.lastMedian, t.measured.lastMedian);
    assert f[4][0] == g[4][0] && f[5][0] == g[5][0] && f[6][0] == g[6][0] && |f[6]| == |g[6]|;
  }

  lemma HeaderSame(target: string, r: Record, other: string, o: Record)
    requires HeaderLines(target, r) == HeaderLines(other, o)
    ensures target == other && r.keyId == o.keyId && r.bootId == o.bootId && r.session == o.session
    ensures r.bootCount == o.bootCount && r.terminal == o.terminal
  {
    hide Decimal;
    var f, g := HeaderLines(target, r), HeaderLines(other, o);
    assert f[1] == g[1] && f[2] == g[2] && f[3] == g[3] && f[4] == g[4] && f[5] == g[5] && f[6] == g[6];
    DecimalSame(r.bootCount, o.bootCount);
    DecimalSame(r.terminal, o.terminal);
  }

  lemma SplitLines(a: seq<string>, b: seq<string>, x: seq<string>, y: seq<string>)
    requires a + x == b + y && |a| == |b|
    ensures a == b && x == y
  {
    assert a == (a + x)[..|a|] && b == (b + y)[..|b|];
    assert x == (a + x)[|a|..] && y == (b + y)[|b|..];
  }

  /** Equal summary texts mean the same target and the same record. */
  lemma SummaryTextIsUnambiguous(target: string, r: Record, other: string, o: Record)
    requires RecordOk(target, r) && RecordOk(other, o) && SummaryText(target, r) == SummaryText(other, o)
    ensures target == other && r == o
  {
    hide RecordOk, Plain, Join;
    LinesPlain(target, r);
    LinesPlain(other, o);
    PlainIsOneLine(Lines(target, r));
    PlainIsOneLine(Lines(other, o));
    LinesSame(Lines(target, r), Lines(other, o));
    var a, b, c := HeaderLines(target, r), CounterLines(r.summary), MeasureLines(r.summary);
    var x, y, z := HeaderLines(other, o), CounterLines(o.summary), MeasureLines(o.summary);
    SplitLines(a + b, x + y, c, z);
    SplitLines(a, x, b, y);
    hide HeaderLines, CounterLines, MeasureLines;
    HeaderSame(target, r, other, o);
    CountersSame(r.summary, o.summary);
    MeasuresSame(r.summary, o.summary);
  }

  lemma PlainIsOneLine(lines: seq<string>)
    requires AllPlain(lines)
    ensures forall i | 0 <= i < |lines| :: OneLine(lines[i])
  {
  }

  /** Room for the text and its terminating zero. */
  method BuildSensorSummaryMacInput(target: string, r: Record, output: array<byte>) returns (written: Option<nat>)
    modifies output
    ensures written.Some? <==> RecordOk(target, r) && |SummaryText(target, r)| < output.Length
    ensures written.Some? ==> written.value < output.Length && Ascii(SummaryText(target, r))
                              && output[..written.value] == BytesOf(SummaryText(target, r))
  {
    hide RecordOk, Join, Lines;
    if output.Length == 0 || !RecordOk(target, r) {
      return None;
    }
    LinesPlain(target, r);
    JoinAscii(Lines(target, r));
    var text := SummaryText(target, r);
    if |text| >= output.Length {
      return None;
    }
    var bytes := BytesOf(text);
    forall i | 0 <= i < |bytes| {
      output[i] := bytes[i];
    }
    assert output[..|bytes|] == bytes;
    written := Some(|bytes|);
  }

  // ---------- All kinds of evidence ----------

  datatype Evidence =
    | EventEvidence(event: A.Event)
    | StatusEvidence(status: A.Status)
    | ReceiptEvidence(sensor: bool, receipt: R.Receipt)
    | SummaryEvidence(target: string, record: Record)

  /** What the encoders accept. */
  ghost predicate Encodable(e: Evidence) {
    match e
    case EventEvidence(event) => A.Sized(event) && AllWritable(A.EventFields(event))
    case StatusEvidence(status) => A.StatusSized(status) && AllWritable(A.StatusFields(status))
    case ReceiptEvidence(_, receipt) => R.ReceiptOk(receipt) && |receipt.tag| == 16
    case SummaryEvidence(target, record) => RecordOk(target, record) && Ascii(SummaryText(target, record))
  }

  ghost function EvidenceBytes(e: Evidence): Bytes
    requires Encodable(e)
  {
    match e
    case EventEvidence(event) => EncodeAll(A.EventFields(event))
    case StatusEvidence(status) => EncodeAll(A.StatusFields(status))
    case ReceiptEvidence(sensor, receipt) => EncodeAll(R.ReceiptFields(sensor, receipt))
    case SummaryEvidence(target, record) => BytesOf(SummaryText(target, record))
  }

  /** Two characters of the domain that tell all kinds apart. */
  function Mark(e: Evidence): (char, char) {
    match e
    case EventEvidence(_) => ('A', 'E')
    case StatusEvidence(_) => ('A', 'S')
    case ReceiptEvidence(sensor, _) => if sensor then ('S', 'R') else ('A', 'R')
    case SummaryEvidence(_, _) => ('S', 'S')
  }

  lemma FirstField(fs: seq<Field>, domain: string)
    requires fs != [] && Ascii(domain) && fs[0] == Raw(A.Domain(domain)) && |domain| > 11
    ensures |EncodeAll(fs)| > 11 && EncodeAll(fs)[4] == domain[4] as int && EncodeAll(fs)[11] == domain[11] as int
  {
    hide EncodeAll;
    EncodeHead(fs);
    var b := A.Domain(domain);
    assert (b + EncodeAll(fs[1..]))[4] == b[4] && (b + EncodeAll(fs[1..]))[11] == b[11];
  }

  lemma EncodeHead(fs: seq<Field>)
    requires fs != []
    ensures EncodeAll(fs) == Encode(fs[0]) + EncodeAll(fs[1..])
  {
  }

  lemma SummaryStart(target: string, r: Record)
    requires Ascii(SummaryText(target, r))
    ensures var b := BytesOf(SummaryText(target, r));
            |b| > 11 && b[4] == 'S' as int && b[11] == 'S' as int
  {
    hide CounterLines, MeasureLines;
    var lines := Lines(target, r);
    assert lines[0] == SENSOR_DOMAIN && |lines| > 1;
    assert Join(lines) == SENSOR_DOMAIN + "\n" + Join(lines[1..]);
  }

  lemma EventStart(e: A.Event)
    ensures A.EventFields(e) != [] && A.EventFields(e)[0] == Raw(A.Domain(A.EVENT_DOMAIN))
  {
    hide A.IdentityFields, A.MeaningFields, A.DetailFields, A.Domain, BigEndian;
  }

  lemma StatusStart(s: A.Status)
    ensures A.StatusFields(s) != [] && A.StatusFields(s)[0] == Raw(A.Domain(A.STATUS_DOMAIN))
  {
    hide A.TerminalFields, A.RelayFields, A.Domain, BigEndian;
  }

  lemma MarkIsThere(e: Evidence)
    requires Encodable(e)
    ensures |EvidenceBytes(e)| > 11
    ensures EvidenceBytes(e)[4] == Mark(e).0 as int && EvidenceBytes(e)[11] == Mark(e).1 as int
  {
    hide EncodeAll, SummaryText, A.EventFields, A.StatusFields, A.Domain, BytesOf, R.ParseId, BigEndian, RecordOk;
    match e {
      case EventEvidence(event) =>
        EventStart(event);
        FirstField(A.EventFields(event), A.EVENT_DOMAIN);
      case StatusEvidence(status) =>
        StatusStart(status);
        FirstField(A.StatusFields(status), A.STATUS_DOMAIN);
      case ReceiptEvidence(sensor, receipt) =>
        FirstField(R.ReceiptFields(sensor, receipt), if sensor then R.SENSOR_RECEIPT else R.ACCESS_RECEIPT);
      case SummaryEvidence(target, record) => SummaryStart(target, record);
    }
  }

  lemma BytesOfSame(s: string, t: string)
    requires Ascii(s) && Ascii(t) && BytesOf(s) == BytesOf(t)
    ensures s == t
  {
    assert forall i | 0 <= i < |s| :: BytesOf(s)[i] == s[i] as int && BytesOf(t)[i] == t[i] as int;
  }

  /** Whatever the kinds: equal bytes mean the same evidence. */
  lemma EvidenceIsUnambiguous(e: Evidence, o: Evidence)
    requires Encodable(e) && Encodable(o) && EvidenceBytes(e) == EvidenceBytes(o)
    ensures e == o
  {
    hide EncodeAll, SummaryText, A.EventFields, A.StatusFields, R.ReceiptFields, R.ReceiptOk, RecordOk;
    MarkIsThere(e);
    MarkIsThere(o);
    assert Mark(e) == Mark(o);
    match e {
      case EventEvidence(event) => A.EventBytesAreUnambiguous(event, o.event);
      case StatusEvidence(status) => A.StatusBytesAreUnambiguous(status, o.status);
      case ReceiptEvidence(sensor, receipt) => R.ReceiptBytesAreUnambiguous(sensor, receipt, o.sensor, o.receipt);
      case SummaryEvidence(target, record) =>
        BytesOfSame(SummaryText(target, record), SummaryText(o.target, o.record));
        SummaryTextIsUnambiguous(target, record, o.target, o.record);
    }
  }
}
