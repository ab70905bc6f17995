/** The authenticated bytes of each kind of evidence, laid out one value after
    the other (src/GattProtocol.cpp, src/AccessEventReceipt.cpp), and which
    values are accepted, in numbers and characters. */
module EvidenceLayout {
  import opened Wrappers
  import opened Words
  import opened CanonicalBytes
  import opened SensorSession
  import opened SensorEvidence
  import A = AccessEvidence
  import R = Receipts

  // ---------- Values as bytes ----------

  function U16(x: u16): Bytes { [x / 256, x % 256] }

  function U32(x: u32): Bytes { U16(x / 0x1_0000) + U16(x % 0x1_0000) }

  function U64(x: u64): Bytes { U32(x / 0x1_0000_0000) + U32(x % 0x1_0000_0000) }

  /** Two length bytes before a text. */
  function Text(t: Bytes): Bytes
    requires |t| < 0x1_0000
  {
    U16(|t|) + t
  }

  /** A presence byte before an optional value. */
  function Maybe(v: Option<Bytes>): Bytes { if v.None? then [0] else [1] + v.value }

  lemma BigEndianTwo(x: u16)
    ensures BigEndian(x, 2) == U16(x)
  {
    assert BigEndian(x / 256, 1) == BigEndian(x / 256 / 256, 0) + [x / 256 % 256];
    assert BigEndian(x / 256 / 256, 0) == [];
  }

  lemma BigEndianAppend(x: nat, n: nat)
    ensures BigEndian(x, n + 1) == BigEndian(x / 256, n) + [x % 256]
  {
  }

  lemma BigEndianFour(x: u32)
    ensures BigEndian(x, 4) == U32(x)
  {
    BigEndianAppend(x, 3);
    BigEndianAppend(x / 256, 2);
    BigEndianTwo(x / 0x1_0000);
    assert x / 256 / 256 == x / 0x1_0000 && x / 256 % 256 == x % 0x1_0000 / 256 && x % 256 == x % 0x1_0000 % 256;
    hide BigEndian;
  }

  lemma BigEndianEight(x: u64)
    ensures BigEndian(x, 8) == U64(x)
  {
    BigEndianAppend(x, 7);
    BigEndianAppend(x / 256, 6);
    BigEndianAppend(x / 256 / 256, 5);
    BigEndianAppend(x / 256 / 256 / 256, 4);
    BigEndianFour(x / 0x1_0000_0000);
    LowBytes(x);
    hide BigEndian;
  }

  lemma LowBytes(x: u64)
    ensures x / 256 / 256 / 256 / 256 == x / 0x1_0000_0000
    ensures U32(x % 0x1_0000_0000) == [x / 256 / 256 / 256 % 256, x / 256 / 256 % 256, x / 256 % 256, x % 256]
  {
    var y1, y2, y3 := x / 256, x / 256 / 256, x / 256 / 256 / 256;
    var high, low := y3 / 256, (y3 % 256) * 0x100_0000 + (y2 % 256) * 0x1_0000 + (y1 % 256) * 256 + x % 256;
    assert x == high * 0x1_0000_0000 + low && 0 <= low < 0x1_0000_0000;
    Quotient(x, high, low, 0x1_0000_0000);
    Quotient(low, (y3 % 256) * 256 + y2 % 256, (y1 % 256) * 256 + x % 256, 0x1_0000);
  }

  lemma Quotient(x: nat, q: nat, r: nat, d: nat)
    requires d > 0 && x == q * d + r && r < d
    ensures x / d == q && x % d == r
  {
    var k := x / d;
    assert k * d <= x < k * d + d;
    Rows(k, q, d);
    Rows(q, k, d);
  }

  lemma Rows(a: nat, b: nat, d: nat)
    ensures a < b ==> a * d + d <= b * d
  {
    if a < b {
      assert (a + 1) * d <= b * d;
    }
  }

  lemma EncodeNext(f: Field, rest: seq<Field>)
    ensures EncodeAll([f] + rest) == Encode(f) + EncodeAll(rest)
  {
    hide Encode;
    assert ([f] + rest)[1..] == rest;
  }

  lemma {:induction false} EncodeConcat(a: seq<Field>, b: seq<Field>)
    ensures EncodeAll(a + b) == EncodeAll(a) + EncodeAll(b)
  {
    hide Encode;
    if a == [] {
      assert a + b == b;
    } else {
      EncodeConcat(a[1..], b);
      EncodeNext(a[0], a[1..] + b);
      EncodeNext(a[0], a[1..]);
      assert [a[0]] + (a[1..] + b) == a + b && [a[0]] + a[1..] == a;
    }
  }

  lemma EncodeOne(f: Field)
    ensures EncodeAll([f]) == Encode(f)
  {
    assert [f][1..] == [] && EncodeAll([]) == [];
  }

  lemma EncodeTwo(f: Field, g: Field)
    ensures EncodeAll([f, g]) == Encode(f) + Encode(g)
  {
    EncodeOne(f);
    EncodeOne(g);
    EncodeConcat([f], [g]);
    assert [f] + [g] == [f, g];
  }

  lemma EncodeFour(f: Field, g: Field, h: Field, k: Field)
    ensures EncodeAll([f, g, h, k]) == Encode(f) + Encode(g) + Encode(h) + Encode(k)
  {
    EncodeTwo(f, g);
    EncodeTwo(h, k);
    EncodeConcat([f, g], [h, k]);
    assert [f, g] + [h, k] == [f, g, h, k];
  }

  // ---------- Access events ----------

  const EVENT_MARK: Bytes :=
    [83, 71, 75, 45, 65, 67, 67, 69, 83, 83, 45, 69, 86, 69, 78, 84, 45, 77, 65, 67, 45, 86, 49, 0]  // SGK-ACCESS-EVENT-MAC-V1 and a zero

  lemma MarkOfEvents()
    ensures A.Domain(A.EVENT_DOMAIN) == EVENT_MARK
  {
  }

  lemma SourceLayout(s: A.Source)
    requires |s.keyId| < 0x1_0000 && |s.target| < 0x1_0000 && |s.instance| < 0x1_0000
    ensures EncodeAll(A.SourceFields(s)) == EVENT_MARK + Text(s.keyId) + Text(s.target) + s.door + Text(s.instance) + s.boot + U64(s.bootCount)
  {
    MarkOfEvents();
    BigEndianEight(s.bootCount);
    hide A.Domain, BigEndian, EncodeAll;
    var f := A.SourceFields(s);
    EncodeFour(f[0], f[1], f[2], f[3]);
    EncodeTwo(f[4], f[5]);
    EncodeOne(f[6]);
    EncodeConcat([f[4], f[5]], [f[6]]);
    EncodeConcat([f[0], f[1], f[2], f[3]], [f[4], f[5]] + [f[6]]);
    assert f == [f[0], f[1], f[2], f[3]] + ([f[4], f[5]] + [f[6]]);
  }

  lemma IdentityLayout(id: A.Identity)
    ensures EncodeAll(A.IdentityFields(id)) == id.event + id.session + U64(id.sequence) + U32(id.attempt)
  {
    BigEndianEight(id.sequence);
    BigEndianFour(id.attempt);
    hide BigEndian, EncodeAll;
    var f := A.IdentityFields(id);
    EncodeFour(f[0], f[1], f[2], f[3]);
  }

  lemma MeaningLayout(m: A.Meaning)
    requires |m.code| < 0x1_0000 && |m.stage| < 0x1_0000 && |m.outcome| < 0x1_0000 && |m.reason| < 0x1_0000
    ensures EncodeAll(A.MeaningFields(m)) == Text(m.code) + Text(m.stage) + Text(m.outcome) + Text(m.reason)
  {
    hide EncodeAll;
    var f := A.MeaningFields(m);
    EncodeFour(f[0], f[1], f[2], f[3]);
  }

  function Maybe32(x: Option<u32>): Bytes { Maybe(if x.None? then None else Some(U32(x.value))) }

  function Maybe64(x: Option<u64>): Bytes { Maybe(if x.None? then None else Some(U64(x.value))) }

  lemma MaybeIs(x: Option<u32>, y: Option<u64>)
    ensures Encode(Optional(A.Optional32(x))) == Maybe32(x) && Encode(Optional(A.Optional64(y))) == Maybe64(y)
  {
    if x.Some? { BigEndianFour(x.value); }
    if y.Some? { BigEndianEight(y.value); }
    hide BigEndian, U32, U64;
  }

  lemma DetailLayout(e: A.Event)
    requires |e.credential| < 0x1_0000
    ensures EncodeAll(A.DetailFields(e)) == Maybe(e.causation) + U64(e.monotonic) + Text(e.credential) + Maybe32(e.distance)
                                            + Maybe64(e.duration) + Maybe32(e.relayHold)
  {
    hide BigEndian, EncodeAll, A.Optional32, A.Optional64, Maybe32, Maybe64, U64;
    BigEndianEight(e.monotonic);
    MaybeIs(e.distance, e.duration);
    MaybeIs(e.relayHold, None);
    var f := A.DetailFields(e);
    EncodeFour(f[0], f[1], f[2], f[3]);
    EncodeTwo(f[4], f[5]);
    EncodeConcat([f[0], f[1], f[2], f[3]], [f[4], f[5]]);
    assert f == [f[0], f[1], f[2], f[3]] + [f[4], f[5]];
  }

  /** The bytes of an access event, value after value. */
  lemma EventLayout(e: A.Event)
    requires AllWritable(A.EventFields(e))
    ensures var (s, id, m) := (e.source, e.id, e.what);
            && |s.keyId| < 0x1_0000 && |s.target| < 0x1_0000 && |s.instance| < 0x1_0000 && |e.credential| < 0x1_0000
            && |m.code| < 0x1_0000 && |m.stage| < 0x1_0000 && |m.outcome| < 0x1_0000 && |m.reason| < 0x1_0000
            && EncodeAll(A.EventFields(e)) ==
                 (EVENT_MARK + Text(s.keyId) + Text(s.target) + s.door + Text(s.instance) + s.boot + U64(s.bootCount))
                 + (id.event + id.session + U64(id.sequence) + U32(id.attempt))
                 + (Text(m.code) + Text(m.stage) + Text(m.outcome) + Text(m.reason))
                 + (Maybe(e.causation) + U64(e.monotonic) + Text(e.credential) + Maybe32(e.distance) + Maybe64(e.duration)
                    + Maybe32(e.relayHold))
  {
    EventTextsFit(e);
    SourceLayout(e.source);
    IdentityLayout(e.id);
    MeaningLayout(e.what);
    DetailLayout(e);
    hide A.SourceFields, A.IdentityFields, A.MeaningFields, A.DetailFields, EncodeAll, U64, U32, Text, Maybe, Maybe32, Maybe64;
    EncodeConcat(A.SourceFields(e.source) + A.IdentityFields(e.id) + A.MeaningFields(e.what), A.DetailFields(e));
    EncodeConcat(A.SourceFields(e.source) + A.IdentityFields(e.id), A.MeaningFields(e.what));
    EncodeConcat(A.SourceFields(e.source), A.IdentityFields(e.id));
  }

  lemma EventTextsFit(e: A.Event)
    requires AllWritable(A.EventFields(e))
    ensures |e.source.keyId| < 0x1_0000 && |e.source.target| < 0x1_0000 && |e.source.instance| < 0x1_0000 && |e.credential| < 0x1_0000
    ensures |e.what.code| < 0x1_0000 && |e.what.stage| < 0x1_0000 && |e.what.outcome| < 0x1_0000 && |e.what.reason| < 0x1_0000
  {
    A.WritableParts(A.SourceFields(e.source) + A.IdentityFields(e.id) + A.MeaningFields(e.what), A.DetailFields(e));
    A.WritableParts(A.SourceFields(e.source) + A.IdentityFields(e.id), A.MeaningFields(e.what));
    A.WritableParts(A.SourceFields(e.source), A.IdentityFields(e.id));
    var (s, m, d) := (A.SourceFields(e.source), A.MeaningFields(e.what), A.DetailFields(e));
    hide A.Domain, BigEndian;
    assert Writable(s[1]) && Writable(s[2]) && Writable(s[4]) && Writable(d[2]);
    assert Writable(m[0]) && Writable(m[1]) && Writable(m[2]) && Writable(m[3]);
  }

  // ---------- Access status ----------

  const STATUS_MARK: Bytes :=
    [83, 71, 75, 45, 65, 67, 67, 69, 83, 83, 45, 83, 84, 65, 84, 85, 83, 45, 77, 65, 67, 45, 86, 49, 0]  // SGK-ACCESS-STATUS-MAC-V1 and a zero

  lemma MarkOfStatus()
    ensures A.Domain(A.STATUS_DOMAIN) == STATUS_MARK
  {
  }

  lemma HeadLayout(s: A.Status)
    requires |s.keyId| < 0x1_0000 && |s.target| < 0x1_0000 && |s.state| < 0x1_0000
    ensures EncodeAll(A.HeadFields(s)) == STATUS_MARK + Text(s.keyId) + Text(s.target) + s.door + s.boot + U64(s.bootCount)
                                          + U64(s.revision) + Text(s.state)
  {
    MarkOfStatus();
    BigEndianEight(s.bootCount);
    BigEndianEight(s.revision);
    hide A.Domain, BigEndian, EncodeAll, U64;
    var f := A.HeadFields(s);
    EncodeFour(f[0], f[1], f[2], f[3]);
    EncodeFour(f[4], f[5], f[6], f[7]);
    EncodeConcat([f[0], f[1], f[2], f[3]], [f[4], f[5], f[6], f[7]]);
    assert f == [f[0], f[1], f[2], f[3]] + [f[4], f[5], f[6], f[7]];
  }

  lemma TerminalLayout(t: Option<A.Terminal>)
    requires t.Some? ==> |t.value.code| < 0x1_0000 && |t.value.reason| < 0x1_0000 && |t.value.credential| < 0x1_0000
    ensures EncodeAll(A.TerminalFields(t)) ==
              if t.None? then [0, 0, 0, 0, 0, 0, 0, 0]
              else [1] + t.value.session + [1] + U64(t.value.sequence) + Text(t.value.code) + Text(t.value.reason) + Text(t.value.credential)
  {
    hide EncodeAll, BigEndian, U64, Encode;
    var f := A.TerminalFields(t);
    EncodeFour(f[0], f[1], f[2], f[3]);
    EncodeOne(f[4]);
    EncodeConcat([f[0], f[1], f[2], f[3]], [f[4]]);
    assert f == [f[0], f[1], f[2], f[3]] + [f[4]];
    if t.None? {
      NothingEncoded();
    } else {
      BigEndianEight(t.value.sequence);
      ValuesEncoded(t.value.session, t.value.code);
      ValuesEncoded(U64(t.value.sequence), t.value.reason);
      ValuesEncoded([], t.value.credential);
    }
  }

  lemma NothingEncoded()
    ensures Encode(Optional(None)) == [0] && Encode(Long([])) == [0, 0]
  {
  }

  lemma ValuesEncoded(value: Bytes, text: Bytes)
    requires |text| < 0x1_0000
    ensures Encode(Optional(Some(value))) == [1] + value && Encode(Long(text)) == Text(text)
  {
  }

  lemma RelayLayout(s: A.Status)
    ensures EncodeAll(A.RelayFields(s)) == U16(s.phaseMask) + [if s.commandedOn then 1 else 0] + [s.pinLevel]
  {
    BigEndianTwo(s.phaseMask);
    hide BigEndian, EncodeAll, U16;
    var f := A.RelayFields(s);
    EncodeTwo(f[0], f[1]);
    EncodeOne(f[2]);
    EncodeConcat([f[0], f[1]], [f[2]]);
    assert f == [f[0], f[1]] + [f[2]];
  }

  /** The bytes of an access status, value after value. */
  lemma StatusLayout(s: A.Status)
    requires AllWritable(A.StatusFields(s))
    ensures |s.keyId| < 0x1_0000 && |s.target| < 0x1_0000 && |s.state| < 0x1_0000
    ensures s.terminal.Some? ==>
              |s.terminal.value.code| < 0x1_0000 && |s.terminal.value.reason| < 0x1_0000 && |s.terminal.value.credential| < 0x1_0000
    ensures EncodeAll(A.StatusFields(s)) ==
              (STATUS_MARK + Text(s.keyId) + Text(s.target) + s.door + s.boot + U64(s.bootCount) + U64(s.revision) + Text(s.state))
              + (if s.terminal.None? then [0, 0, 0, 0, 0, 0, 0, 0]
                 else
                   var t := s.terminal.value;
                   [1] + t.session + [1] + U64(t.sequence) + Text(t.code) + Text(t.reason) + Text(t.credential))
              + (U16(s.phaseMask) + [if s.commandedOn then 1 else 0] + [s.pinLevel])
  {
    StatusTextsFit(s);
    HeadLayout(s);
    TerminalLayout(s.terminal);
    RelayLayout(s);
    hide A.HeadFields, A.TerminalFields, A.RelayFields, EncodeAll, U64, U16, Text;
    EncodeConcat(A.HeadFields(s) + A.TerminalFields(s.terminal), A.RelayFields(s));
    EncodeConcat(A.HeadFields(s), A.TerminalFields(s.terminal));
  }

  lemma StatusTextsFit(s: A.Status)
    requires AllWritable(A.StatusFields(s))
    ensures |s.keyId| < 0x1_0000 && |s.target| < 0x1_0000 && |s.state| < 0x1_0000
    ensures s.terminal.Some? ==>
              |s.terminal.value.code| < 0x1_0000 && |s.terminal.value.reason| < 0x1_0000 && |s.terminal.value.credential| < 0x1_0000
  {
    A.WritableParts(A.HeadFields(s) + A.TerminalFields(s.terminal), A.RelayFields(s));
    A.WritableParts(A.HeadFields(s), A.TerminalFields(s.terminal));
    var (h, t) := (A.HeadFields(s), A.TerminalFields(s.terminal));
    hide A.Domain, BigEndian;
    assert Writable(h[1]) && Writable(h[2]) && Writable(h[7]) && Writable(t[2]) && Writable(t[3]) && Writable(t[4]);
  }

  // ---------- Receipts ----------

  const ACCESS_RECEIPT_MARK: Bytes := [83, 71, 75, 45, 65, 67, 67, 69, 83, 83, 45, 82, 69, 67, 69, 73, 80, 84, 45, 86, 49, 0]  // SGK-ACCESS-RECEIPT-V1 and a zero

  const SENSOR_RECEIPT_MARK: Bytes := [83, 71, 75, 45, 83, 69, 78, 83, 79, 82, 45, 82, 69, 67, 69, 73, 80, 84, 45, 86, 49, 0]  // SGK-SENSOR-RECEIPT-V1 and a zero

  lemma MarkOfReceipts()
    ensures A.Domain(R.ACCESS_RECEIPT) == ACCESS_RECEIPT_MARK && A.Domain(R.SENSOR_RECEIPT) == SENSOR_RECEIPT_MARK
  {
  }

  /** The bytes of a receipt, value after value; its identities in binary. */
  lemma ReceiptLayout(sensor: bool, r: R.Receipt)
    requires R.ReceiptOk(r)
    ensures EncodeAll(R.ReceiptFields(sensor, r)) ==
              (if sensor then SENSOR_RECEIPT_MARK else ACCESS_RECEIPT_MARK) + ([|r.keyId|] + r.keyId) + ([|r.target|] + r.target)
              + R.ParseId(r.eventId, true).value + R.ParseId(r.bootId, false).value + U64(r.bootCount) + U64(r.sequence) + r.tag
  {
    MarkOfReceipts();
    BigEndianEight(r.bootCount);
    BigEndianEight(r.sequence);
    hide A.Domain, BigEndian, EncodeAll, U64, R.ParseId;
    var f := R.ReceiptFields(sensor, r);
    EncodeFour(f[0], f[1], f[2], f[3]);
    EncodeFour(f[4], f[5], f[6], f[7]);
    EncodeConcat([f[0], f[1], f[2], f[3]], [f[4], f[5], f[6], f[7]]);
    assert f == [f[0], f[1], f[2], f[3]] + [f[4], f[5], f[6], f[7]];
  }

  // ---------- Sensor summaries ----------

  lemma JoinNext(line: string, rest: seq<string>)
    requires rest != []
    ensures Join([line] + rest) == line + "\n" + Join(rest)
  {
    assert ([line] + rest)[1..] == rest;
  }

  lemma {:induction false} JoinConcat(a: seq<string>, b: seq<string>)
    requires a != [] && b != []
    ensures Join(a + b) == Join(a) + "\n" + Join(b)
  {
    if |a| == 1 {
      assert a == [a[0]];
      JoinNext(a[0], b);
    } else {
      JoinConcat(a[1..], b);
      assert a + b == [a[0]] + (a[1..] + b) && a == [a[0]] + a[1..];
      JoinNext(a[0], a[1..] + b);
      JoinNext(a[0], a[1..]);
    }
  }

  lemma JoinTwo(a: string, b: string)
    ensures Join([a, b]) == a + "\n" + b
  {
    assert [a, b] == [a] + [b];
    JoinNext(a, [b]);
  }

  lemma JoinFour(a: string, b: string, c: string, d: string)
    ensures Join([a, b, c, d]) == a + "\n" + b + "\n" + c + "\n" + d
  {
    JoinTwo(a, b);
    JoinTwo(c, d);
    JoinConcat([a, b], [c, d]);
    assert [a, b] + [c, d] == [a, b, c, d];
  }

  /** A measurement in decimal, or a dash for none. */
  function Shown(x: u16): string { if x == 0xFFFF then "-" else Decimal(x) }

  lemma HeaderText(target: string, r: Record)
    ensures Join(HeaderLines(target, r)) ==
              "SGK-SENSOR-SESSION-MAC-V1" + "\n" + r.keyId + "\n" + target + "\n" + r.bootId + "\n" + Decimal(r.bootCount) + "\n" + r.session
              + "\n" + Decimal(r.terminal)
  {
    hide Join, Decimal;
    var l := HeaderLines(target, r);
    JoinFour(l[0], l[1], l[2], l[3]);
    JoinTwo(l[4], l[5]);
    JoinLast(l[6]);
    JoinConcat([l[4], l[5]], [l[6]]);
    JoinConcat([l[0], l[1], l[2], l[3]], [l[4], l[5]] + [l[6]]);
    assert l == [l[0], l[1], l[2], l[3]] + ([l[4], l[5]] + [l[6]]);
  }

  lemma JoinLast(a: string)
    ensures Join([a]) == a
  {
  }

  lemma CounterText(s: Summary)
    ensures Join(CounterLines(s)) ==
              Decimal(s.started) + "\n" + Decimal(s.ended) + "\n" + Decimal(s.measured.threshold) + "\n" + Decimal(s.counters.samples) + "\n"
              + (Decimal(s.counters.valid) + "\n" + Decimal(s.counters.timeouts) + "\n" + Decimal(s.counters.invalid) + "\n"
                 + Decimal(s.counters.inRange)) + "\n" + (Decimal(s.counters.blocked) + "\n" + Decimal(s.counters.clear))
  {
    hide Join, Decimal;
    var l := CounterLines(s);
    JoinFour(l[0], l[1], l[2], l[3]);
    JoinFour(l[4], l[5], l[6], l[7]);
    JoinTwo(l[8], l[9]);
    JoinConcat([l[0], l[1], l[2], l[3]], [l[4], l[5], l[6], l[7]]);
    JoinConcat([l[0], l[1], l[2], l[3]] + [l[4], l[5], l[6], l[7]], [l[8], l[9]]);
    assert l == [l[0], l[1], l[2], l[3]] + [l[4], l[5], l[6], l[7]] + [l[8], l[9]];
  }

  lemma MeasureText(s: Summary)
    ensures Join(MeasureLines(s)) ==
              Shown(s.measured.minRaw) + "\n" + Shown(s.measured.maxRaw) + "\n" + Shown(s.measured.lastRaw) + "\n" + Shown(s.measured.lastMedian)
              + "\n" + ((if s.blockedAtStart then "1" else "0") + "\n" + (if s.blockedAtEnd then "1" else "0")) + "\n"
              + (match s.clearance case Unknown => "UNKNOWN" case Clear => "CLEAR" case Occupied => "OCCUPIED" case Fault => "FAULT")
  {
    hide Join, Decimal;
    var l := MeasureLines(s);
    JoinFour(l[0], l[1], l[2], l[3]);
    JoinTwo(l[4], l[5]);
    JoinLast(l[6]);
    JoinConcat([l[0], l[1], l[2], l[3]], [l[4], l[5]]);
    JoinConcat([l[0], l[1], l[2], l[3]] + [l[4], l[5]], [l[6]]);
    assert l == [l[0], l[1], l[2], l[3]] + [l[4], l[5]] + [l[6]];
  }

  /** The text of a sensor summary, line after line. */
  lemma SummaryLayout(target: string, r: Record)
    ensures var s := r.summary;
            SummaryText(target, r) ==
              ("SGK-SENSOR-SESSION-MAC-V1" + "\n" + r.keyId + "\n" + target + "\n" + r.bootId + "\n" + Decimal(r.bootCount) + "\n" + r.session
               + "\n" + Decimal(r.terminal)) + "\n"
              + (Decimal(s.started) + "\n" + Decimal(s.ended) + "\n" + Decimal(s.measured.threshold) + "\n" + Decimal(s.counters.samples) + "\n"
                 + (Decimal(s.counters.valid) + "\n" + Decimal(s.counters.timeouts) + "\n" + Decimal(s.counters.invalid) + "\n"
                    + Decimal(s.counters.inRange)) + "\n" + (Decimal(s.counters.blocked) + "\n" + Decimal(s.counters.clear))) + "\n"
              + (Shown(s.measured.minRaw) + "\n" + Shown(s.measured.maxRaw) + "\n" + Shown(s.measured.lastRaw) + "\n"
                 + Shown(s.measured.lastMedian)
                 + "\n" + ((if s.blockedAtStart then "1" else "0") + "\n" + (if s.blockedAtEnd then "1" else "0")) + "\n"
                 + (match s.clearance case Unknown => "UNKNOWN" case Clear => "CLEAR" case Occupied => "OCCUPIED" case Fault => "FAULT"))
  {
    HeaderText(target, r);
    CounterText(r.summary);
    MeasureText(r.summary);
    NotEmpty(target, r);
    hide Join, Decimal, HeaderLines, CounterLines, MeasureLines, Shown;
    JoinConcat(HeaderLines(target, r), CounterLines(r.summary));
    JoinConcat(HeaderLines(target, r) + CounterLines(r.summary), MeasureLines(r.summary));
  }

  lemma NotEmpty(target: string, r: Record)
    ensures HeaderLines(target, r) != [] && CounterLines(r.summary) != [] && MeasureLines(r.summary) != []
  {
  }

  // ---------- What is accepted ----------

  /** Digits and lower-case letters up to the given one. */
  predicate Lower(t: Bytes, last: byte) { forall i | 0 <= i < |t| :: 48 <= t[i] <= 57 || 97 <= t[i] <= last }

  /** `c_`, a key of one to four characters, `_`, and 24 hexadecimal digits. */
  ghost predicate CredentialText(t: Bytes) {
    exists key, hex :: t == [99, 95] + key + [95] + hex && 1 <= |key| <= 4 && Lower(key, 122) && |hex| == 24 && Lower(hex, 102)
  }

  lemma CredentialReads(t: Bytes)
    requires A.CredentialTextOk(t)
    ensures CredentialText(t)
  {
    hide CredentialText;
    var key, hex := t[2..|t| - 25], t[|t| - 24..];
    CutAt(t, 2, |t| - 25, |t| - 24);
    CredentialFrom(t, key, hex);
  }

  lemma CutAt(t: Bytes, i: nat, j: nat, k: nat)
    requires i <= j <= k <= |t|
    ensures t == t[..i] + t[i..j] + t[j..k] + t[k..]
  {
  }

  lemma CredentialFrom(t: Bytes, key: Bytes, hex: Bytes)
    requires t == [99, 95] + key + [95] + hex && 1 <= |key| <= 4 && Lower(key, 122) && |hex| == 24 && Lower(hex, 102)
    ensures CredentialText(t)
  {
  }

  lemma CredentialPrints(t: Bytes, key: Bytes, hex: Bytes)
    requires t == [99, 95] + key + [95] + hex && 1 <= |key| <= 4 && Lower(key, 122) && |hex| == 24 && Lower(hex, 102)
    ensures A.CredentialTextOk(t)
  {
    assert forall i | 2 <= i < |t| - 25 :: t[i] == key[i - 2];
    assert forall i | |t| - 24 <= i < |t| :: t[i] == hex[i - (|t| - 24)];
  }

  lemma CredentialAccepted(t: Bytes)
    ensures A.CredentialTextOk(t) <==> CredentialText(t)
  {
    hide A.CredentialTextOk, Lower;
    if A.CredentialTextOk(t) {
      CredentialReads(t);
    }
    if key, hex :| t == [99, 95] + key + [95] + hex && 1 <= |key| <= 4 && Lower(key, 122) && |hex| == 24 && Lower(hex, 102) {
      CredentialPrints(t, key, hex);
    }
  }

  /** A random UUID: version four, variant one, not zero. */
  predicate RandomUuid(b: Bytes) { |b| == 16 && (exists i | 0 <= i < 16 :: b[i] != 0) && 64 <= b[6] < 80 && 128 <= b[8] < 192 }

  /** Which events are accepted. */
  lemma EventAccepted(e: A.Event)
    requires A.Sized(e)
    ensures A.EventOk(e) <==>
              && 1 <= |e.source.keyId| <= 4 && Lower(e.source.keyId, 122)
              && (exists i | 0 <= i < 16 :: e.source.door[i] != 0) && (exists i | 0 <= i < 16 :: e.source.boot[i] != 0)
              && e.source.bootCount > 0 && e.id.attempt > 0 && RandomUuid(e.id.event) && RandomUuid(e.id.session)
              && (e.causation == None || RandomUuid(e.causation.value))
              && (e.distance == None || e.distance.value <= 10000)
              && (e.duration == None || e.duration.value <= 86400000)
              && (e.relayHold == None || e.relayHold.value <= 600000)
              && (e.credential == [] || CredentialText(e.credential))
  {
    CredentialAccepted(e.credential);
    hide A.CredentialTextOk, CredentialText;
  }

  /** Which statuses are accepted. */
  lemma StatusAccepted(s: A.Status)
    requires A.StatusSized(s)
    ensures A.StatusOk(s) <==>
              && 1 <= |s.keyId| <= 4 && Lower(s.keyId, 122)
              && (exists i | 0 <= i < 16 :: s.door[i] != 0) && (exists i | 0 <= i < 16 :: s.boot[i] != 0)
              && s.bootCount > 0 && s.revision > 0 && (s.pinLevel == 0 || s.pinLevel == 1)
              && (if s.terminal == None then s.phaseMask == 0
                  else
                    var t := s.terminal.value;
                    && s.phaseMask < 64 && RandomUuid(t.session) && |t.code| > 0 && |t.reason| > 0
                    && (t.credential == [] || CredentialText(t.credential)))
  {
    if s.terminal.Some? {
      CredentialAccepted(s.terminal.value.credential);
    }
    hide A.CredentialTextOk, CredentialText;
  }

  predicate OneOf(c: char, upper: bool, mark: bool) {
    '0' <= c <= '9' || 'a' <= c <= 'z' || (upper && 'A' <= c <= 'Z') || (mark && (c == '_' || c == '-'))
  }

  predicate HexChar(c: char) { '0' <= c <= '9' || 'a' <= c <= 'f' }

  /** None, or from 200 mm to 4 m. */
  predicate Plausible(x: u16) { x == 0xFFFF || (200 <= x && x <= 4000) }

  /** Which sensor summaries are accepted. */
  lemma SummaryAccepted(target: string, r: Record)
    ensures var (c, m) := (r.summary.counters, r.summary.measured);
            RecordOk(target, r) <==>
              && 1 <= |r.keyId| <= 4 && (forall i | 0 <= i < |r.keyId| :: OneOf(r.keyId[i], false, false))
              && 1 <= |target| <= 48 && (forall i | 0 <= i < |target| :: OneOf(target[i], true, true))
              && |r.bootId| == 32 && (forall i | 0 <= i < 32 :: HexChar(r.bootId[i])) && (exists i | 0 <= i < 32 :: r.bootId[i] != '0')
              && |r.session| == 36 && r.session[14] == '4' && (r.session[19] == '8' || r.session[19] == '9' || r.session[19] == 'a' || r.session[19] == 'b')
              && (forall i | 0 <= i < 36 :: if i == 8 || i == 13 || i == 18 || i == 23 then r.session[i] == '-' else HexChar(r.session[i]))
              && r.bootCount > 0 && r.terminal > 0 && 200 <= m.threshold <= 4000
              && c.samples == c.valid + c.timeouts + c.invalid && c.inRange <= c.valid && c.clear <= c.valid && c.blocked <= c.samples
              && Plausible(m.minRaw) && Plausible(m.maxRaw) && Plausible(m.lastRaw) && Plausible(m.lastMedian)
  {
  }

  // ---------- Identities as text ----------

  const HEX: string := "0123456789abcdef"

  function Octet(b: byte): Bytes { [HEX[b / 16] as int, HEX[b % 16] as int] }

  /** Two lower-case hexadecimal digits for each byte. */
  function Plain(b: Bytes): Bytes { if b == [] then [] else Plain(b[..|b| - 1]) + Octet(b[|b| - 1]) }

  lemma OctetIs(b: byte)
    ensures [R.HexDigit(b / 16), R.HexDigit(b % 16)] == Octet(b)
  {
  }

  /** Octets `k` to `m` without a dash between them. */
  lemma {:induction false} SegmentLayout(id: Bytes, k: nat, m: nat, uuid: bool)
    requires k < m <= |id| && forall i | k < i < m :: !R.DashBefore(i, uuid)
    ensures R.Rendered(id[..m], uuid) == R.Rendered(id[..k], uuid) + (if R.DashBefore(k, uuid) then [45] else []) + Plain(id[k..m])
    decreases m
  {
    hide R.Rendered, R.HexDigit, R.DashBefore, Plain, Octet;
    var last := id[m - 1];
    assert id[..m] == id[..m - 1] + [last];
    R.RenderedAppend(id[..m - 1], last, uuid);
    OctetIs(last);
    PlainAppend(id[k..m - 1], last);
    assert id[k..m] == id[k..m - 1] + [last];
    if k == m - 1 {
      NothingPlain();
      assert id[k..m - 1] == [];
    } else {
      SegmentLayout(id, k, m - 1, uuid);
      assert !R.DashBefore(m - 1, uuid);
    }
  }

  lemma NothingPlain()
    ensures Plain([]) == []
  {
  }

  lemma PlainAppend(b: Bytes, last: byte)
    ensures Plain(b + [last]) == Plain(b) + Octet(last)
  {
    assert (b + [last])[..|b|] == b;
  }

  /** Four, two, two, two and six octets. */
  function UuidText(id: Bytes): Bytes
    requires |id| == 16
  {
    Plain(id[..4]) + [45] + Plain(id[4..6]) + [45] + Plain(id[6..8]) + [45] + Plain(id[8..10]) + [45] + Plain(id[10..])
  }

  lemma UuidLayout(id: Bytes)
    requires |id| == 16
    ensures R.Rendered(id, true) == UuidText(id)
  {
    hide Plain, R.Rendered, R.DashBefore;
    DashesAre();
    NothingRendered(true);
    SegmentLayout(id, 0, 4, true);
    SegmentLayout(id, 4, 6, true);
    SegmentLayout(id, 6, 8, true);
    SegmentLayout(id, 8, 10, true);
    SegmentLayout(id, 10, 16, true);
    assert id[..16] == id && id[..0] == [] && id[0..4] == id[..4] && id[10..16] == id[10..];
  }

  lemma NothingRendered(uuid: bool)
    ensures R.Rendered([], uuid) == []
  {
  }

  lemma DashesAre()
    ensures forall i :: R.DashBefore(i, true) <==> i == 4 || i == 6 || i == 8 || i == 10
    ensures forall i :: !R.DashBefore(i, false)
  {
  }

  lemma PlainLayout(id: Bytes)
    requires |id| == 16
    ensures R.Rendered(id, false) == Plain(id)
  {
    hide Plain, R.Rendered, R.DashBefore;
    DashesAre();
    NothingRendered(false);
    SegmentLayout(id, 0, 16, false);
    assert id[..16] == id && id[..0] == [] && id[0..16] == id;
  }

  /** A text is taken for an identity exactly if it is 32 hexadecimal digits of
      one that is not zero, or for a UUID those of a random one with dashes. */
  lemma IdAccepted(text: Bytes, uuid: bool, id: Bytes)
    ensures R.ParseId(text, uuid) == Some(id) <==>
              && |id| == 16 && (exists i | 0 <= i < 16 :: id[i] != 0) && (uuid ==> RandomUuid(id))
              && text == if uuid then UuidText(id) else Plain(id)
  {
    hide R.ParseId, R.Rendered, Plain, UuidText, R.IdOk, RandomUuid;
    R.ParseIdIsCanonical(text, uuid, id);
    IdMeans(id, uuid);
    if |id| == 16 {
      UuidLayout(id);
      PlainLayout(id);
    }
  }

  lemma IdMeans(id: Bytes, uuid: bool)
    ensures R.IdOk(id, uuid) <==> |id| == 16 && (exists i | 0 <= i < 16 :: id[i] != 0) && (uuid ==> RandomUuid(id))
  {
  }

  predicate TargetCharacter(b: byte) { 48 <= b <= 57 || 65 <= b <= 90 || 97 <= b <= 122 || b == 45 || b == 95 }

  /** Which receipts are accepted. */
  lemma ReceiptAccepted(r: R.Receipt)
    ensures R.ReceiptOk(r) <==>
              && r.bootCount > 0 && r.sequence > 0 && 1 <= |r.keyId| <= 4 && Lower(r.keyId, 122)
              && 1 <= |r.target| <= 64 && (forall i | 0 <= i < |r.target| :: TargetCharacter(r.target[i]))
              && R.ParseId(r.eventId, true).Some? && R.ParseId(r.bootId, false).Some?
  {
    hide R.ParseId;
  }
}
