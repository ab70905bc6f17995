/** The authenticated inputs of access events and access status
    (src/GattProtocol.cpp, `buildAccessEventMacInput` and
    `buildAccessStatusMacInput`). A null text is an empty one; the value of an
    absent optional is left out. */
module AccessEvidence {
  import opened Wrappers
  import opened Words
  import opened CanonicalBytes

  const EVENT_DOMAIN: string := "SGK-ACCESS-EVENT-MAC-V1"
  const STATUS_DOMAIN: string := "SGK-ACCESS-STATUS-MAC-V1"

  // ---------- Text and identity checks ----------

  predicate LowerAlnum(b: byte) { 97 <= b <= 122 || 48 <= b <= 57 }

  predicate LowerHex(b: byte) { 48 <= b <= 57 || 97 <= b <= 102 }

  /** `validAccessEvidenceKeyId`. */
  predicate KeyIdOk(k: Bytes) { 0 < |k| <= 4 && forall i | 0 <= i < |k| :: LowerAlnum(k[i]) }

  /** `validCredentialRefText`: c_<key id>_<24 lower-case hex digits>. */
  predicate CredentialTextOk(t: Bytes) {
    && 28 <= |t| <= 31 && t[0] == 99 && t[1] == 95 && t[|t| - 25] == 95
    && (forall i | 2 <= i < |t| - 25 :: LowerAlnum(t[i]))
    && (forall i | |t| - 24 <= i < |t| :: LowerHex(t[i]))
  }

  predicate NonZero(b: Bytes) { exists i | 0 <= i < |b| :: b[i] != 0 }

  predicate Uuid4(b: Bytes) { |b| == 16 && NonZero(b) && b[6] / 16 == 4 && b[8] / 64 == 2 }

  // ---------- Access events ----------

  datatype Source = Source(keyId: Bytes, target: Bytes, door: Bytes, instance: Bytes, boot: Bytes, bootCount: u64)

  datatype Identity = Identity(event: Bytes, session: Bytes, sequence: u64, attempt: u32)

  datatype Meaning = Meaning(code: Bytes, stage: Bytes, outcome: Bytes, reason: Bytes)

  datatype Event = Event(
    source: Source, id: Identity, what: Meaning, causation: Option<Bytes>, monotonic: u64, credential: Bytes,
    distance: Option<u32>, duration: Option<u64>, relayHold: Option<u32>)

  /** Fixed-size arrays have their size. */
  ghost predicate Sized(e: Event) {
    && |e.source.door| == 16 && |e.source.boot| == 16 && |e.id.event| == 16 && |e.id.session| == 16
    && (e.causation.Some? ==> |e.causation.value| == 16)
  }

  predicate EventOk(e: Event) {
    && KeyIdOk(e.source.keyId) && NonZero(e.source.door) && NonZero(e.source.boot) && e.source.bootCount != 0
    && Uuid4(e.id.event) && Uuid4(e.id.session) && e.id.attempt != 0
    && (e.causation.Some? ==> Uuid4(e.causation.value))
    && (e.distance.Some? ==> e.distance.value <= 10000)
    && (e.duration.Some? ==> e.duration.value <= 86400000)
    && (e.relayHold.Some? ==> e.relayHold.value <= 600000)
    && (e.credential != [] ==> CredentialTextOk(e.credential))
  }

  function Optional32(x: Option<u32>): Option<Bytes> { if x.None? then None else Some(BigEndian(x.value, 4)) }

  function Optional64(x: Option<u64>): Option<Bytes> { if x.None? then None else Some(BigEndian(x.value, 8)) }

  function Domain(name: string): Bytes
    requires Ascii(name)
  {
    BytesOf(name) + [0]
  }

  function SourceFields(s: Source): seq<Field> {
    [Raw(Domain(EVENT_DOMAIN)), Named(s.keyId), Named(s.target), Raw(s.door), Named(s.instance), Raw(s.boot),
     Raw(BigEndian(s.bootCount, 8))]
  }

  function IdentityFields(id: Identity): seq<Field> {
    [Raw(id.event), Raw(id.session), Raw(BigEndian(id.sequence, 8)), Raw(BigEndian(id.attempt, 4))]
  }

  function MeaningFields(m: Meaning): seq<Field> { [Named(m.code), Named(m.stage), Named(m.outcome), Named(m.reason)] }

  function DetailFields(e: Event): seq<Field> {
    [Optional(e.causation), Raw(BigEndian(e.monotonic, 8)), Long(e.credential), Optional(Optional32(e.distance)),
     Optional(Optional64(e.duration)), Optional(Optional32(e.relayHold))]
  }

  function EventFields(e: Event): seq<Field> {
    SourceFields(e.source) + IdentityFields(e.id) + MeaningFields(e.what) + DetailFields(e)
  }

  const SOURCE_SHAPES: seq<Shape> := [RawOf(24), NamedText, NamedText, RawOf(16), NamedText, RawOf(16), RawOf(8)]
  const IDENTITY_SHAPES: seq<Shape> := [RawOf(16), RawOf(16), RawOf(8), RawOf(4)]
  const MEANING_SHAPES: seq<Shape> := [NamedText, NamedText, NamedText, NamedText]
  const DETAIL_SHAPES: seq<Shape> := [OptionalOf(16), RawOf(8), LongText, OptionalOf(4), OptionalOf(8), OptionalOf(4)]

  function EventShapes(): seq<Shape> { SOURCE_SHAPES + IDENTITY_SHAPES + MEANING_SHAPES + DETAIL_SHAPES }

  lemma ShapedAppend(fs: seq<Field>, s: seq<Shape>, gs: seq<Field>, t: seq<Shape>)
    requires Shaped(fs, s) && Shaped(gs, t)
    ensures Shaped(fs + gs, s + t)
  {
  }

  lemma WritableParts(fs: seq<Field>, gs: seq<Field>)
    ensures AllWritable(fs + gs) <==> AllWritable(fs) && AllWritable(gs)
  {
    assert forall i | 0 <= i < |fs| :: (fs + gs)[i] == fs[i];
    assert forall i | 0 <= i < |gs| :: (fs + gs)[|fs| + i] == gs[i];
  }

  lemma EventShaped(e: Event)
    requires Sized(e) && AllWritable(EventFields(e))
    ensures Shaped(EventFields(e), EventShapes())
  {
    hide Writable;
    var a, b, c, d := SourceFields(e.source), IdentityFields(e.id), MeaningFields(e.what), DetailFields(e);
    WritableParts(a + b + c, d);
    WritableParts(a + b, c);
    WritableParts(a, b);
    hide AllWritable, SourceFields, IdentityFields, MeaningFields, DetailFields, Shaped;
    SourceShaped(e.source);
    IdentityShaped(e.id);
    MeaningShaped(e.what);
    DetailShaped(e);
    ShapedAppend(a, SOURCE_SHAPES, b, IDENTITY_SHAPES);
    ShapedAppend(a + b, SOURCE_SHAPES + IDENTITY_SHAPES, c, MEANING_SHAPES);
    ShapedAppend(a + b + c, SOURCE_SHAPES + IDENTITY_SHAPES + MEANING_SHAPES, d, DETAIL_SHAPES);
  }

  lemma SourceShaped(s: Source)
    requires |s.door| == 16 && |s.boot| == 16 && AllWritable(SourceFields(s))
    ensures Shaped(SourceFields(s), SOURCE_SHAPES)
  {
    var f := SourceFields(s);
    assert Writable(f[1]) && Writable(f[2]) && Writable(f[4]);
  }

  lemma IdentityShaped(id: Identity)
    requires |id.event| == 16 && |id.session| == 16
    ensures Shaped(IdentityFields(id), IDENTITY_SHAPES)
  {
  }

  lemma MeaningShaped(m: Meaning)
    requires AllWritable(MeaningFields(m))
    ensures Shaped(MeaningFields(m), MEANING_SHAPES)
  {
    var f := MeaningFields(m);
    assert Writable(f[0]) && Writable(f[1]) && Writable(f[2]) && Writable(f[3]);
  }

  lemma DetailShaped(e: Event)
    requires (e.causation.Some? ==> |e.causation.value| == 16) && AllWritable(DetailFields(e))
    ensures Shaped(DetailFields(e), DETAIL_SHAPES)
  {
    assert Writable(DetailFields(e)[2]);
  }

  // ---------- Equal bytes, equal fields ----------

  lemma Powers()
    ensures Pow256(2) == 0x1_0000 && Pow256(4) == 0x1_0000_0000 && Pow256(8) == 0x1_0000_0000_0000_0000
  {
    assert Pow256(0) == 1 && Pow256(1) == 256 && Pow256(2) == 65536 && Pow256(3) == 16777216;
    assert Pow256(4) == 0x1_0000_0000 && Pow256(5) == 0x100_0000_0000 && Pow256(6) == 0x1_0000_0000_0000;
    assert Pow256(7) == 0x100_0000_0000_0000;
  }

  lemma Same64(x: u64, y: u64)
    requires BigEndian(x, 8) == BigEndian(y, 8)
    ensures x == y
  {
    Powers();
    BigEndianInjective(x, y, 8);
  }

  lemma Same32(x: u32, y: u32)
    requires BigEndian(x, 4) == BigEndian(y, 4)
    ensures x == y
  {
    Powers();
    BigEndianInjective(x, y, 4);
  }

  lemma SameOptional32(x: Option<u32>, y: Option<u32>)
    requires Optional32(x) == Optional32(y)
    ensures x == y
  {
    if x.Some? {
      Same32(x.value, y.value);
    }
  }

  lemma SameOptional64(x: Option<u64>, y: Option<u64>)
    requires Optional64(x) == Optional64(y)
    ensures x == y
  {
    if x.Some? {
      Same64(x.value, y.value);
    }
  }

  lemma SplitFields(a: seq<Field>, b: seq<Field>, x: seq<Field>, y: seq<Field>)
    requires a + x == b + y && |a| == |b|
    ensures a == b && x == y
  {
    assert a == (a + x)[..|a|] && b == (b + y)[..|b|];
    assert x == (a + x)[|a|..] && y == (b + y)[|b|..];
  }

  lemma SourceSame(s: Source, t: Source)
    requires SourceFields(s) == SourceFields(t)
    ensures s == t
  {
    var f, g := SourceFields(s), SourceFields(t);
    assert f[1] == g[1] && f[2] == g[2] && f[3] == g[3] && f[4] == g[4] && f[5] == g[5] && f[6] == g[6];
    Same64(s.bootCount, t.bootCount);
  }

  lemma IdentitySame(s: Identity, t: Identity)
    requires IdentityFields(s) == IdentityFields(t)
    ensures s == t
  {
    var f, g := IdentityFields(s), IdentityFields(t);
    assert f[0] == g[0] && f[1] == g[1] && f[2] == g[2] && f[3] == g[3];
    Same64(s.sequence, t.sequence);
    Same32(s.attempt, t.attempt);
  }

  lemma MeaningSame(s: Meaning, t: Meaning)
    requires MeaningFields(s) == MeaningFields(t)
    ensures s == t
  {
    var f, g := MeaningFields(s), MeaningFields(t);
    assert f[0] == g[0] && f[1] == g[1] && f[2] == g[2] && f[3] == g[3];
  }

  lemma DetailSame(e: Event, o: Event)
    requires DetailFields(e) == DetailFields(o)
    ensures e.causation == o.causation && e.monotonic == o.monotonic && e.credential == o.credential
    ensures e.distance == o.distance && e.duration == o.duration && e.relayHold == o.relayHold
  {
    var f, g := DetailFields(e), DetailFields(o);
    assert f[0] == g[0] && f[1] == g[1] && f[2] == g[2] && f[3] == g[3] && f[4] == g[4] && f[5] == g[5];
    Same64(e.monotonic, o.monotonic);
    SameOptional32(e.distance, o.distance);
    SameOptional64(e.duration, o.duration);
    SameOptional32(e.relayHold, o.relayHold);
  }

  /** Two events that were both encoded to the same bytes are the same. */
  lemma EventBytesAreUnambiguous(e: Event, o: Event)
    requires Sized(e) && Sized(o) && AllWritable(EventFields(e)) && AllWritable(EventFields(o))
    requires EncodeAll(EventFields(e)) == EncodeAll(EventFields(o))
    ensures e == o
  {
    EventShaped(e);
    EventShaped(o);
    EncodingIsUnambiguous(EventFields(e), EventFields(o), EventShapes());
    var a, b, c, d := SourceFields(e.source), IdentityFields(e.id), MeaningFields(e.what), DetailFields(e);
    var w, x, y, z := SourceFields(o.source), IdentityFields(o.id), MeaningFields(o.what), DetailFields(o);
    SplitFields(a + b + c, w + x + y, d, z);
    SplitFields(a + b, w + x, c, y);
    SplitFields(a, w, b, x);
    hide SourceFields, IdentityFields, MeaningFields, DetailFields, EventShapes;
    SourceSame(e.source, o.source);
    IdentitySame(e.id, o.id);
    MeaningSame(e.what, o.what);
    DetailSame(e, o);
  }

  // ---------- Building an event input ----------

  method AppendSource(builder: CanonicalBinaryBuilder, s: Source)
    requires builder.Valid()
    modifies builder, builder.output
    ensures builder.Valid() && builder.fields == old(builder.fields) + SourceFields(s)
  {
    hide CanonicalBinaryBuilder.Valid;
    builder.Append(Domain(EVENT_DOMAIN));
    builder.AppendLpAscii(s.keyId, false);
    builder.AppendLpAscii(s.target, false);
    builder.Append(s.door);
    builder.AppendLpAscii(s.instance, false);
    builder.Append(s.boot);
    builder.AppendU64(s.bootCount);
  }

  method AppendIdentity(builder: CanonicalBinaryBuilder, id: Identity)
    requires builder.Valid()
    modifies builder, builder.output
    ensures builder.Valid() && builder.fields == old(builder.fields) + IdentityFields(id)
  {
    hide CanonicalBinaryBuilder.Valid;
    builder.Append(id.event);
    builder.Append(id.session);
    builder.AppendU64(id.sequence);
    builder.AppendU32(id.attempt);
  }

  method AppendMeaning(builder: CanonicalBinaryBuilder, m: Meaning)
    requires builder.Valid()
    modifies builder, builder.output
    ensures builder.Valid() && builder.fields == old(builder.fields) + MeaningFields(m)
  {
    hide CanonicalBinaryBuilder.Valid;
    builder.AppendLpAscii(m.code, false);
    builder.AppendLpAscii(m.stage, false);
    builder.AppendLpAscii(m.outcome, false);
    builder.AppendLpAscii(m.reason, false);
  }

  method AppendDetail(builder: CanonicalBinaryBuilder, e: Event)
    requires builder.Valid()
    modifies builder, builder.output
    ensures builder.Valid() && builder.fields == old(builder.fields) + DetailFields(e)
  {
    hide CanonicalBinaryBuilder.Valid;
    builder.AppendOptional(e.causation);
    builder.AppendU64(e.monotonic);
    builder.AppendLpAscii(e.credential, true);
    builder.AppendOptional(Optional32(e.distance));
    builder.AppendOptional(Optional64(e.duration));
    builder.AppendOptional(Optional32(e.relayHold));
  }

  /** What a finished builder holds. */
  lemma BuilderHolds(builder: CanonicalBinaryBuilder)
    requires builder.Valid()
    ensures builder.valid <==> AllWritable(builder.fields) && |EncodeAll(builder.fields)| <= builder.output.Length
    ensures builder.valid ==> builder.output[..builder.size] == EncodeAll(builder.fields)
  {
    AddingAllFits(builder.output.Length, builder.fields);
  }

  method BuildAccessEventMacInput(e: Event, output: array<byte>) returns (written: Option<nat>)
    requires Sized(e)
    modifies output
    ensures written.Some? <==> EventOk(e) && AllWritable(EventFields(e)) && |EncodeAll(EventFields(e))| <= output.Length
    ensures written.Some? ==> written.value <= output.Length && output[..written.value] == EncodeAll(EventFields(e))
  {
    hide EventOk, AllWritable, EncodeAll, SourceFields, IdentityFields, MeaningFields, DetailFields, CanonicalBinaryBuilder.Valid;
    EventNotEmpty(e);
    if output.Length == 0 {
      return None;
    }
    output[0] := 0;
    if !EventOk(e) {
      return None;
    }
    var builder := new CanonicalBinaryBuilder(output);
    AppendSource(builder, e.source);
    AppendIdentity(builder, e.id);
    AppendMeaning(builder, e.what);
    AppendDetail(builder, e);
    assert builder.fields == EventFields(e);
    BuilderHolds(builder);
    BuilderSize(builder);
    written := if builder.valid then Some(builder.size) else None;
  }

  lemma BuilderSize(builder: CanonicalBinaryBuilder)
    requires builder.Valid()
    ensures builder.size <= builder.output.Length
  {
  }

  lemma EventNotEmpty(e: Event)
    ensures |EncodeAll(EventFields(e))| > 0
  {
    var f := EventFields(e);
    assert f[0] == Raw(Domain(EVENT_DOMAIN)) && |Encode(f[0])| == 24;
    hide EventFields;
  }

  // ---------- Access status ----------

  datatype Terminal = Terminal(session: Bytes, sequence: u64, code: Bytes, reason: Bytes, credential: Bytes)

  datatype Status = Status(
    keyId: Bytes, target: Bytes, door: Bytes, boot: Bytes, bootCount: u64, revision: u64, state: Bytes,
    terminal: Option<Terminal>, phaseMask: u16, commandedOn: bool, pinLevel: byte)

  ghost predicate StatusSized(s: Status) {
    |s.door| == 16 && |s.boot| == 16 && (s.terminal.Some? ==> |s.terminal.value.session| == 16)
  }

  predicate StatusOk(s: Status) {
    && KeyIdOk(s.keyId) && NonZero(s.door) && NonZero(s.boot) && s.bootCount != 0 && s.revision != 0
    && s.pinLevel <= 1 && s.phaseMask <= 0x003f
    && (s.terminal.Some? ==>
          var t := s.terminal.value;
          Uuid4(t.session) && t.code != [] && t.reason != [] && (t.credential != [] ==> CredentialTextOk(t.credential)))
    && (s.terminal.None? ==> s.phaseMask == 0)
  }

  function HeadFields(s: Status): seq<Field> {
    [Raw(Domain(STATUS_DOMAIN)), Named(s.keyId), Named(s.target), Raw(s.door), Raw(s.boot), Raw(BigEndian(s.bootCount, 8)),
     Raw(BigEndian(s.revision, 8)), Named(s.state)]
  }

  function TerminalFields(t: Option<Terminal>): seq<Field> {
    if t.None? then [Optional(None), Optional(None), Long([]), Long([]), Long([])]
    else
      [Optional(Some(t.value.session)), Optional(Some(BigEndian(t.value.sequence, 8))),
       Long(t.value.code), Long(t.value.reason), Long(t.value.credential)]
  }

  function RelayFields(s: Status): seq<Field> {
    [Raw(BigEndian(s.phaseMask, 2)), Raw([if s.commandedOn then 1 else 0]), Raw([s.pinLevel])]
  }

  function StatusFields(s: Status): seq<Field> { HeadFields(s) + TerminalFields(s.terminal) + RelayFields(s) }

  const HEAD_SHAPES: seq<Shape> := [RawOf(25), NamedText, NamedText, RawOf(16), RawOf(16), RawOf(8), RawOf(8), NamedText]
  const TERMINAL_SHAPES: seq<Shape> := [OptionalOf(16), OptionalOf(8), LongText, LongText, LongText]
  const RELAY_SHAPES: seq<Shape> := [RawOf(2), RawOf(1), RawOf(1)]

  function StatusShapes(): seq<Shape> { HEAD_SHAPES + TERMINAL_SHAPES + RELAY_SHAPES }

  lemma HeadShaped(s: Status)
    requires |s.door| == 16 && |s.boot| == 16 && AllWritable(HeadFields(s))
    ensures Shaped(HeadFields(s), HEAD_SHAPES)
  {
    var f := HeadFields(s);
    assert Writable(f[1]) && Writable(f[2]) && Writable(f[7]);
  }

  lemma TerminalShaped(t: Option<Terminal>)
    requires (t.Some? ==> |t.value.session| == 16) && AllWritable(TerminalFields(t))
    ensures Shaped(TerminalFields(t), TERMINAL_SHAPES)
  {
    var f := TerminalFields(t);
    assert Writable(f[2]) && Writable(f[3]) && Writable(f[4]);
  }

  lemma StatusShaped(s: Status)
    requires StatusSized(s) && AllWritable(StatusFields(s))
    ensures Shaped(StatusFields(s), StatusShapes())
  {
    WritableParts(HeadFields(s) + TerminalFields(s.terminal), RelayFields(s));
    WritableParts(HeadFields(s), TerminalFields(s.terminal));
    HeadShaped(s);
    TerminalShaped(s.terminal);
    assert Shaped(RelayFields(s), RELAY_SHAPES);
    hide AllWritable, HeadFields, TerminalFields, RelayFields, Shaped;
    ShapedAppend(HeadFields(s), HEAD_SHAPES, TerminalFields(s.terminal), TERMINAL_SHAPES);
    ShapedAppend(HeadFields(s) + TerminalFields(s.terminal), HEAD_SHAPES + TERMINAL_SHAPES, RelayFields(s), RELAY_SHAPES);
  }

  lemma HeadSame(s: Status, o: Status)
    requires HeadFields(s) == HeadFields(o)
    ensures s.keyId == o.keyId && s.target == o.target && s.door == o.door && s.boot == o.boot
    ensures s.bootCount == o.bootCount && s.revision == o.revision && s.state == o.state
  {
    var f, g := HeadFields(s), HeadFields(o);
    assert f[1] == g[1] && f[2] == g[2] && f[3] == g[3] && f[4] == g[4] && f[5] == g[5] && f[6] == g[6] && f[7] == g[7];
    Same64(s.bootCount, o.bootCount);
    Same64(s.revision, o.revision);
  }

  lemma TerminalSame(s: Option<Terminal>, o: Option<Terminal>)
    requires TerminalFields(s) == TerminalFields(o)
    ensures s == o
  {
    var f, g := TerminalFields(s), TerminalFields(o);
    assert f[0] == g[0] && f[1] == g[1] && f[2] == g[2] && f[3] == g[3] && f[4] == g[4];
    if s.Some? {
      Same64(s.value.sequence, o.value.sequence);
    }
  }

  lemma RelaySame(s: Status, o: Status)
    requires RelayFields(s) == RelayFields(o)
    ensures s.phaseMask == o.phaseMask && s.commandedOn == o.commandedOn && s.pinLevel == o.pinLevel
  {
    var f, g := RelayFields(s), RelayFields(o);
    assert f[0] == g[0] && f[1].b[0] == g[1].b[0] && f[2].b[0] == g[2].b[0];
    Powers();
    BigEndianInjective(s.phaseMask, o.phaseMask, 2);
  }

  /** Two statuses that were both encoded to the same bytes are the same. */
  lemma StatusBytesAreUnambiguous(s: Status, o: Status)
    requires StatusSized(s) && StatusSized(o) && AllWritable(StatusFields(s)) && AllWritable(StatusFields(o))
    requires EncodeAll(StatusFields(s)) == EncodeAll(StatusFields(o))
    ensures s == o
  {
    StatusShaped(s);
    StatusShaped(o);
    EncodingIsUnambiguous(StatusFields(s), StatusFields(o), StatusShapes());
    SplitFields(HeadFields(s) + TerminalFields(s.terminal), HeadFields(o) + TerminalFields(o.terminal), RelayFields(s), RelayFields(o));
    SplitFields(HeadFields(s), HeadFields(o), TerminalFields(s.terminal), TerminalFields(o.terminal));
    hide HeadFields, TerminalFields, RelayFields, StatusShapes;
    HeadSame(s, o);
    TerminalSame(s.terminal, o.terminal);
    RelaySame(s, o);
  }

  method AppendHead(builder: CanonicalBinaryBuilder, s: Status)
    requires builder.Valid()
    modifies builder, builder.output
    ensures builder.Valid() && builder.fields == old(builder.fields) + HeadFields(s)
  {
    hide CanonicalBinaryBuilder.Valid;
    builder.Append(Domain(STATUS_DOMAIN));
    builder.AppendLpAscii(s.keyId, false);
    builder.AppendLpAscii(s.target, false);
    builder.Append(s.door);
    builder.Append(s.boot);
    builder.AppendU64(s.bootCount);
    builder.AppendU64(s.revision);
    builder.AppendLpAscii(s.state, false);
  }

  method AppendTerminal(builder: CanonicalBinaryBuilder, t: Option<Terminal>)
    requires builder.Valid()
    modifies builder, builder.output
    ensures builder.Valid() && builder.fields == old(builder.fields) + TerminalFields(t)
  {
    hide CanonicalBinaryBuilder.Valid;
    builder.AppendOptional(if t.Some? then Some(t.value.session) else None);
    builder.AppendOptional(if t.Some? then Some(BigEndian(t.value.sequence, 8)) else None);
    builder.AppendLpAscii(if t.Some? then t.value.code else [], true);
    builder.AppendLpAscii(if t.Some? then t.value.reason else [], true);
    builder.AppendLpAscii(if t.Some? then t.value.credential else [], true);
  }

  method BuildAccessStatusMacInput(s: Status, output: array<byte>) returns (written: Option<nat>)
    requires StatusSized(s)
    modifies output
    ensures written.Some? <==> StatusOk(s) && AllWritable(StatusFields(s)) && |EncodeAll(StatusFields(s))| <= output.Length
    ensures written.Some? ==> written.value <= output.Length && output[..written.value] == EncodeAll(StatusFields(s))
  {
    hide StatusOk, AllWritable, EncodeAll, HeadFields, TerminalFields, CanonicalBinaryBuilder.Valid;
    StatusNotEmpty(s);
    if output.Length == 0 {
      return None;
    }
    output[0] := 0;
    if !StatusOk(s) {
      return None;
    }
    var builder := new CanonicalBinaryBuilder(output);
    AppendHead(builder, s);
    AppendTerminal(builder, s.terminal);
    builder.AppendU16(s.phaseMask);
    builder.AppendU8(if s.commandedOn then 1 else 0);
    builder.AppendU8(s.pinLevel);
    assert builder.fields == StatusFields(s);
    BuilderHolds(builder);
    BuilderSize(builder);
    written := if builder.valid then Some(builder.size) else None;
  }

  lemma StatusNotEmpty(s: Status)
    ensures |EncodeAll(StatusFields(s))| > 0
  {
    var f := StatusFields(s);
    assert f[0] == Raw(Domain(STATUS_DOMAIN)) && |Encode(f[0])| == 25;
    hide StatusFields;
  }
}
