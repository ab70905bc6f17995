/** Canonical receipts of access events and sensor sessions
    (src/AccessEventReceipt.cpp). */
module Receipts {
  import opened Wrappers
  import opened Words
  import opened CanonicalBytes
  import opened AccessEvidence

  const ACCESS_RECEIPT: string := "SGK-ACCESS-RECEIPT-V1"
  const SENSOR_RECEIPT: string := "SGK-SENSOR-RECEIPT-V1"
  const KEY_CAPACITY: nat := 5
  const TARGET_CAPACITY: nat := 65
  const DASH: byte := 45

  // ---------- Identities as text ----------

  function HexDigit(n: nat): byte
    requires n < 16
  {
    if n < 10 then 48 + n else 87 + n
  }

  function Nibble(c: byte): Option<nat> {
    if 48 <= c <= 57 then Some(c - 48) else if 97 <= c <= 102 then Some(c - 87) else None
  }

  /** A dash stands before these octets of a UUID. */
  predicate DashBefore(octet: nat, uuid: bool) { uuid && octet in {4, 6, 8, 10} }

  /** Lower-case hexadecimal text of an identity. */
  function Rendered(id: Bytes, uuid: bool): Bytes {
    if id == [] then []
    else
      var front, last := id[..|id| - 1], id[|id| - 1];
      Rendered(front, uuid) + (if DashBefore(|front|, uuid) then [DASH] else []) + [HexDigit(last / 16), HexDigit(last % 16)]
  }

  /** Reads the octets after `out` from `index` on. */
  function Parsing(text: Bytes, index: nat, out: Bytes, uuid: bool): Option<Bytes>
    requires |out| <= 16
    decreases 16 - |out|
  {
    if |out| == 16 then if index == |text| then Some(out) else None
    else
      var at := if DashBefore(|out|, uuid) then index + 1 else index;
      if at + 1 >= |text| || (DashBefore(|out|, uuid) && text[index] != DASH) then None
      else if Nibble(text[at]).None? || Nibble(text[at + 1]).None? then None
      else Parsing(text, at + 2, out + [Nibble(text[at]).value * 16 + Nibble(text[at + 1]).value], uuid)
  }

  predicate IdOk(id: Bytes, uuid: bool) { |id| == 16 && NonZero(id) && (uuid ==> id[6] / 16 == 4 && id[8] / 64 == 2) }

  function ParseId(text: Bytes, uuid: bool): Option<Bytes> {
    var id := Parsing(text, 0, [], uuid);
    if id.Some? && IdOk(id.value, uuid) then id else None
  }

  lemma NibbleInverts(c: byte, n: nat)
    requires n < 16
    ensures Nibble(HexDigit(n)) == Some(n)
    ensures Nibble(c) == Some(n) ==> c == HexDigit(n)
  {
  }

  lemma RenderedAppend(out: Bytes, b: byte, uuid: bool)
    ensures Rendered(out + [b], uuid)
            == Rendered(out, uuid) + (if DashBefore(|out|, uuid) then [DASH] else []) + [HexDigit(b / 16), HexDigit(b % 16)]
  {
    assert (out + [b])[..|out|] == out;
  }

  /** Two hexadecimal digits and the octet they spell. */
  lemma PairIsOctet(hi: byte, lo: byte)
    requires Nibble(hi).Some? && Nibble(lo).Some?
    ensures var b := Nibble(hi).value * 16 + Nibble(lo).value;
            b < 256 && b / 16 == Nibble(hi).value && b % 16 == Nibble(lo).value && [hi, lo] == [HexDigit(b / 16), HexDigit(b % 16)]
  {
    NibbleInverts(hi, Nibble(hi).value);
    NibbleInverts(lo, Nibble(lo).value);
  }

  function Dashes(octet: nat, uuid: bool): Bytes { if DashBefore(octet, uuid) then [DASH] else [] }

  /** One parsed octet extends the text read so far. */
  lemma OctetRead(text: Bytes, index: nat, out: Bytes, uuid: bool)
    requires |out| < 16 && index <= |text| && text[..index] == Rendered(out, uuid) && Parsing(text, index, out, uuid).Some?
    ensures var at := index + |Dashes(|out|, uuid)|;
            && at + 2 <= |text| && Nibble(text[at]).Some? && Nibble(text[at + 1]).Some?
            && var b := Nibble(text[at]).value * 16 + Nibble(text[at + 1]).value;
            && b < 256 && text[..at + 2] == Rendered(out + [b], uuid)
            && Parsing(text, index, out, uuid) == Parsing(text, at + 2, out + [b], uuid)
  {
    hide Rendered, Nibble, HexDigit;
    var at := index + |Dashes(|out|, uuid)|;
    PairIsOctet(text[at], text[at + 1]);
    RenderedAppend(out, Nibble(text[at]).value * 16 + Nibble(text[at + 1]).value, uuid);
    assert text[..at + 2] == text[..index] + Dashes(|out|, uuid) + [text[at], text[at + 1]];
  }

  lemma AllOctetsRead(text: Bytes, index: nat, out: Bytes, uuid: bool)
    requires |out| == 16 && index <= |text| && Parsing(text, index, out, uuid).Some?
    ensures Parsing(text, index, out, uuid) == Some(out) && text[..index] == text
  {
  }

  /** Parsed text is the canonical text of what was parsed. */
  lemma {:induction false} ParsedIsRendered(text: Bytes, index: nat, out: Bytes, uuid: bool)
    requires |out| <= 16 && index <= |text| && text[..index] == Rendered(out, uuid) && Parsing(text, index, out, uuid).Some?
    ensures text == Rendered(Parsing(text, index, out, uuid).value, uuid) && |Parsing(text, index, out, uuid).value| == 16
    decreases 16 - |out|
  {
    hide Rendered, Nibble, Parsing, DashBefore;
    if |out| == 16 {
      AllOctetsRead(text, index, out, uuid);
    } else {
      OctetRead(text, index, out, uuid);
      var at := index + |Dashes(|out|, uuid)|;
      ParsedIsRendered(text, at + 2, out + [Nibble(text[at]).value * 16 + Nibble(text[at + 1]).value], uuid);
    }
  }

  lemma {:induction false} RenderedPrefix(id: Bytes, k: nat, uuid: bool)
    requires k <= |id|
    ensures |Rendered(id[..k], uuid)| <= |Rendered(id, uuid)|
    ensures Rendered(id, uuid)[..|Rendered(id[..k], uuid)|] == Rendered(id[..k], uuid)
    decreases |id|
  {
    if k == |id| {
      assert id[..k] == id;
    } else {
      var front := id[..|id| - 1];
      RenderedPrefix(front, k, uuid);
      assert front[..k] == id[..k];
    }
  }

  /** Parsing canonical text goes through its octets one by one. */
  lemma OctetParsed(text: Bytes, index: nat, out: Bytes, b: byte, uuid: bool)
    requires |out| < 16 && index + |Dashes(|out|, uuid)| + 2 <= |text|
    requires text[index..index + |Dashes(|out|, uuid)| + 2] == Dashes(|out|, uuid) + [HexDigit(b / 16), HexDigit(b % 16)]
    ensures Parsing(text, index, out, uuid) == Parsing(text, index + |Dashes(|out|, uuid)| + 2, out + [b], uuid)
  {
    hide Nibble, HexDigit;
    var d := |Dashes(|out|, uuid)|;
    var part := text[index..index + d + 2];
    assert part[d] == text[index + d] && part[d + 1] == text[index + d + 1] && (d == 1 ==> part[0] == text[index]);
    NibbleInverts(0, b / 16);
    NibbleInverts(0, b % 16);
  }

  /** The canonical text of an identity parses to it. */
  lemma {:induction false} RenderedParses(id: Bytes, k: nat, uuid: bool)
    requires |id| == 16 && k <= 16
    ensures Parsing(Rendered(id, uuid), |Rendered(id[..k], uuid)|, id[..k], uuid) == Some(id)
    decreases 16 - k
  {
    if k == 16 {
      assert id[..k] == id;
    } else {
      hide Rendered, HexDigit, Parsing;
      var text, index, d := Rendered(id, uuid), |Rendered(id[..k], uuid)|, |Dashes(k, uuid)|;
      assert id[..k + 1] == id[..k] + [id[k]];
      RenderedAppend(id[..k], id[k], uuid);
      RenderedPrefix(id, k + 1, uuid);
      assert text[index..index + d + 2] == text[..index + d + 2][index..];
      OctetParsed(text, index, id[..k], id[k], uuid);
      RenderedParses(id, k + 1, uuid);
    }
  }

  /** Exactly the canonical texts of acceptable identities are parsed. */
  lemma ParseIdIsCanonical(text: Bytes, uuid: bool, id: Bytes)
    ensures ParseId(text, uuid) == Some(id) <==> IdOk(id, uuid) && text == Rendered(id, uuid)
  {
    if Parsing(text, 0, [], uuid).Some? {
      ParsedIsRendered(text, 0, [], uuid);
    }
    if |id| == 16 && text == Rendered(id, uuid) {
      assert id[..0] == [];
      RenderedParses(id, 0, uuid);
    }
  }

  /** `parseId`, octet by octet. */
  method ReadId(text: Bytes, uuid: bool) returns (id: Option<Bytes>)
    ensures id == ParseId(text, uuid)
  {
    var index, output := 0, new byte[16](i => 0);
    var octet := 0;
    assert output[..0] == [];
    while octet < 16
      invariant 0 <= octet <= 16 && index >= 0
      invariant Parsing(text, 0, [], uuid) == Parsing(text, index, output[..octet], uuid)
    {
      ghost var before := output[..octet];
      if DashBefore(octet, uuid) {
        if index >= |text| || text[index] != DASH {
          return None;
        }
        index := index + 1;
      }
      if index + 1 >= |text| {
        return None;
      }
      var high, low := Nibble(text[index]), Nibble(text[index + 1]);
      if high.None? || low.None? {
        return None;
      }
      output[octet] := high.value * 16 + low.value;
      octet := octet + 1;
      index := index + 2;
      assert output[..octet] == before + [high.value * 16 + low.value];
    }
    assert output[..octet] == output[..];
    id := if index == |text| && IdOk(output[..], uuid) then Some(output[..]) else None;
  }

  // ---------- The receipt ----------

  /** Texts are what stands before the first zero of their array. */
  datatype Receipt = Receipt(keyId: Bytes, target: Bytes, eventId: Bytes, bootId: Bytes, bootCount: u64, sequence: u64, tag: Bytes)

  predicate TargetByte(b: byte) { 97 <= b <= 122 || 65 <= b <= 90 || 48 <= b <= 57 || b == 95 || b == 45 }

  predicate ReceiptOk(r: Receipt) {
    && r.bootCount != 0 && r.sequence != 0
    && 0 < |r.keyId| < KEY_CAPACITY && 0 < |r.target| < TARGET_CAPACITY
    && (forall i | 0 <= i < |r.keyId| :: LowerAlnum(r.keyId[i]))
    && (forall i | 0 <= i < |r.target| :: TargetByte(r.target[i]))
    && ParseId(r.eventId, true).Some? && ParseId(r.bootId, false).Some?
  }

  function ReceiptFields(sensor: bool, r: Receipt): seq<Field>
    requires ReceiptOk(r)
  {
    [Raw(Domain(if sensor then SENSOR_RECEIPT else ACCESS_RECEIPT)), Short(r.keyId), Short(r.target),
     Raw(ParseId(r.eventId, true).value), Raw(ParseId(r.bootId, false).value),
     Raw(BigEndian(r.bootCount, 8)), Raw(BigEndian(r.sequence, 8)), Raw(r.tag)]
  }

  const RECEIPT_SHAPES: seq<Shape> := [RawOf(22), ShortText, ShortText, RawOf(16), RawOf(16), RawOf(8), RawOf(8), RawOf(16)]

  lemma ReceiptShaped(sensor: bool, r: Receipt)
    requires ReceiptOk(r) && |r.tag| == 16
    ensures Shaped(ReceiptFields(sensor, r), RECEIPT_SHAPES)
  {
    hide Parsing, BigEndian;
  }

  /** Equal receipt bytes mean the same kind and the same receipt, texts
      included. */
  lemma ReceiptBytesAreUnambiguous(sensor: bool, r: Receipt, other: bool, o: Receipt)
    requires ReceiptOk(r) && ReceiptOk(o) && |r.tag| == |o.tag| == 16
    requires EncodeAll(ReceiptFields(sensor, r)) == EncodeAll(ReceiptFields(other, o))
    ensures sensor == other && r == o
  {
    hide EncodeAll, ParseId, BigEndian;
    ReceiptShaped(sensor, r);
    ReceiptShaped(other, o);
    EncodingIsUnambiguous(ReceiptFields(sensor, r), ReceiptFields(other, o), RECEIPT_SHAPES);
    var f, g := ReceiptFields(sensor, r), ReceiptFields(other, o);
    assert f[0] == g[0] && f[1] == g[1] && f[2] == g[2] && f[3] == g[3] && f[4] == g[4] && f[5] == g[5] && f[6] == g[6] && f[7] == g[7];
    assert f[0].b[4] == g[0].b[4];
    Same64(r.bootCount, o.bootCount);
    Same64(r.sequence, o.sequence);
    ParseIdIsCanonical(r.eventId, true, ParseId(r.eventId, true).value);
    ParseIdIsCanonical(o.eventId, true, ParseId(o.eventId, true).value);
    ParseIdIsCanonical(r.bootId, false, ParseId(r.bootId, false).value);
    ParseIdIsCanonical(o.bootId, false, ParseId(o.bootId, false).value);
  }

  // ---------- Writing a receipt ----------

  function ReceiptLength(r: Receipt): nat { 22 + 2 + |r.keyId| + |r.target| + 64 }

  lemma DomainLength()
    ensures |Domain(ACCESS_RECEIPT)| == 22 && |Domain(SENSOR_RECEIPT)| == 22
  {
  }

  method Append(output: array<byte>, cursor: nat, data: Bytes) returns (next: nat)
    requires cursor + |data| <= output.Length
    modifies output
    ensures next == cursor + |data| && output[..next] == old(output[..cursor]) + data
  {
    forall i | 0 <= i < |data| {
      output[cursor + i] := data[i];
    }
    next := cursor + |data|;
    ghost var before := old(output[..cursor]);
    assert output[..next] == before + data;
  }

  /** Appends one field to the encoding of those in `done`. */
  method AppendField(output: array<byte>, cursor: nat, f: Field, ghost done: seq<Field>) returns (next: nat)
    requires (f.Raw? || (f.Short? && |f.text| < 256)) && cursor + |Encode(f)| <= output.Length
    requires output[..cursor] == EncodeAll(done)
    modifies output
    ensures next == cursor + |Encode(f)| && output[..next] == EncodeAll(done + [f])
  {
    EncodeAllAppend(done, f);
    hide EncodeAll;
    if f.Raw? {
      next := Append(output, cursor, f.b);
    } else {
      next := Append(output, cursor, [|f.text|]);
      next := Append(output, next, f.text);
    }
  }

  /** Texts first, in their length-prefixed fields. */
  method AppendTexts(r: Receipt, output: array<byte>) returns (cursor: nat)
    requires ReceiptOk(r) && ReceiptLength(r) <= output.Length
    modifies output
    ensures cursor == 24 + |r.keyId| + |r.target| && output[..cursor] == EncodeAll(ReceiptFields(false, r)[..3])
  {
    DomainLength();
    hide EncodeAll, ParseId, BigEndian, Domain;
    EncodeNone();
    assert output[..0] == [];
    var f: seq<Field> := [Raw(Domain(ACCESS_RECEIPT)), Short(r.keyId), Short(r.target)];
    cursor := AppendField(output, 0, f[0], []);
    assert [] + [f[0]] == [f[0]] && [f[0]] + [f[1]] == [f[0], f[1]] && [f[0], f[1]] + [f[2]] == f;
    cursor := AppendField(output, cursor, f[1], [f[0]]);
    cursor := AppendField(output, cursor, f[2], [f[0], f[1]]);
    assert ReceiptFields(false, r)[..3] == f;
  }

  lemma EncodeNone()
    ensures EncodeAll([]) == []
  {
  }

  /** `canonicalAccessEventReceipt`. */
  method CanonicalAccessEventReceipt(r: Receipt, output: array<byte>) returns (length: Option<nat>)
    requires |r.tag| == 16
    modifies output
    ensures length.Some? <==> ReceiptOk(r) && ReceiptLength(r) <= output.Length
    ensures length.Some? ==> length.value == ReceiptLength(r) && output[..length.value] == EncodeAll(ReceiptFields(false, r))
  {
    hide EncodeAll, ParseId, BigEndian, Domain;
    var eventId := ReadId(r.eventId, true);
    var bootId := ReadId(r.bootId, false);
    if !ReceiptOk(r) || output.Length < ReceiptLength(r) {
      return None;
    }
    ParsedLength(r.eventId, true);
    ParsedLength(r.bootId, false);
    ghost var all := ReceiptFields(false, r);
    var cursor := AppendTexts(r, output);
    hide ReceiptOk;
    cursor := AppendField(output, cursor, Raw(eventId.value), all[..3]);
    assert all[..3] + [all[3]] == all[..4];
    cursor := AppendField(output, cursor, Raw(bootId.value), all[..4]);
    assert all[..4] + [all[4]] == all[..5];
    cursor := AppendField(output, cursor, Raw(BigEndian(r.bootCount, 8)), all[..5]);
    assert all[..5] + [all[5]] == all[..6];
    cursor := AppendField(output, cursor, Raw(BigEndian(r.sequence, 8)), all[..6]);
    assert all[..6] + [all[6]] == all[..7];
    cursor := AppendField(output, cursor, Raw(r.tag), all[..7]);
    assert all[..7] + [all[7]] == all;
    length := Some(cursor);
  }

  lemma ParsedLength(text: Bytes, uuid: bool)
    requires ParseId(text, uuid).Some?
    ensures |ParseId(text, uuid).value| == 16
  {
  }

  /** `canonicalSensorSessionReceipt`: the same bytes under the other domain. */
  method CanonicalSensorSessionReceipt(r: Receipt, output: array<byte>) returns (length: Option<nat>)
    requires |r.tag| == 16
    modifies output
    ensures length.Some? <==> ReceiptOk(r) && ReceiptLength(r) <= output.Length
    ensures length.Some? ==> length.value == ReceiptLength(r) && output[..length.value] == EncodeAll(ReceiptFields(true, r))
  {
    hide EncodeAll, ParseId, BigEndian, Domain, ReceiptOk, ReceiptFields;
    length := CanonicalAccessEventReceipt(r, output);
    if length.Some? {
      ghost var plain := output[..length.value];
      DomainLength();
      var domain := Domain(SENSOR_RECEIPT);
      forall i | 0 <= i < 22 {
        output[i] := domain[i];
      }
      assert output[..length.value] == domain + plain[22..];
      SwappedDomain(r, plain);
    }
  }

  lemma SwappedDomain(r: Receipt, plain: Bytes)
    requires ReceiptOk(r) && plain == EncodeAll(ReceiptFields(false, r))
    ensures |plain| >= 22 && Domain(SENSOR_RECEIPT) + plain[22..] == EncodeAll(ReceiptFields(true, r))
  {
    hide ParseId, BigEndian, Domain;
    DomainLength();
    var f, g := ReceiptFields(false, r), ReceiptFields(true, r);
    assert f[1..] == g[1..];
    assert plain == Domain(ACCESS_RECEIPT) + EncodeAll(f[1..]);
    assert plain[22..] == EncodeAll(f[1..]);
  }
}
