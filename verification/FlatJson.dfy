/** The recogniser of flat JSON objects with exactly the given fields
    (include/FlatJsonObjectPolicy.h) and the grammar of what it accepts. */
module FlatJson {
  import opened Wrappers
  import opened Words

  type Bytes = seq<byte>

  const QUOTE: byte := 34
  const COMMA: byte := 44
  const SLASH: byte := 47
  const COLON: byte := 58
  const OPEN_BRACKET: byte := 91
  const BACKSLASH: byte := 92
  const LOWER_U: byte := 117
  const OPEN_BRACE: byte := 123
  const CLOSE_BRACE: byte := 125
  const KEY_CAPACITY: nat := 32
  const MAX_FIELDS: nat := 31

  predicate Space(b: byte) { b == 32 || b == 9 || b == 13 || b == 10 }

  predicate Hex(b: byte) { 48 <= b <= 57 || 97 <= b <= 102 || 65 <= b <= 70 }

  /** Escapes of one character: quote, backslash, slash, b, f, n, r, t. */
  predicate SimpleEscape(b: byte) { b in {QUOTE, BACKSLASH, SLASH, 98, 102, 110, 114, 116} }

  predicate KeyByte(b: byte) { 0x20 <= b <= 0x7e && b != QUOTE && b != BACKSLASH }

  predicate ScalarByte(b: byte) {
    b != COMMA && b != CLOSE_BRACE && b != QUOTE && b != COLON && b != OPEN_BRACE && b != OPEN_BRACKET
    && (b >= 0x20 || Space(b))
  }

  // ---------- The grammar ----------

  datatype Unit = Plain(b: byte) | Escape(e: byte) | Unicode(h: Bytes)

  datatype Value = Text(units: seq<Unit>) | Scalar(body: Bytes)

  /** One member with the white space around its parts. */
  datatype Member = Member(pre: Bytes, key: Bytes, mid: Bytes, gap: Bytes, value: Value, post: Bytes)

  predicate Blank(b: Bytes) { forall i | 0 <= i < |b| :: Space(b[i]) }

  predicate UnitOk(u: Unit) {
    match u
    case Plain(b) => b >= 0x20 && b != QUOTE && b != BACKSLASH
    case Escape(e) => SimpleEscape(e)
    case Unicode(h) => |h| == 4 && forall i | 0 <= i < 4 :: Hex(h[i])
  }

  predicate ScalarOk(b: Bytes) { (forall i | 0 <= i < |b| :: ScalarByte(b[i])) && exists i | 0 <= i < |b| :: !Space(b[i]) }

  predicate ValueOk(v: Value) {
    match v
    case Text(units) => forall i | 0 <= i < |units| :: UnitOk(units[i])
    case Scalar(body) => ScalarOk(body) && !Space(body[0])
  }

  predicate KeyOk(k: Bytes) { |k| < KEY_CAPACITY && forall i | 0 <= i < |k| :: KeyByte(k[i]) }

  predicate MemberOk(m: Member) {
    Blank(m.pre) && KeyOk(m.key) && Blank(m.mid) && Blank(m.gap) && ValueOk(m.value) && Blank(m.post)
  }

  function PrintUnit(u: Unit): Bytes {
    match u
    case Plain(b) => [b]
    case Escape(e) => [BACKSLASH, e]
    case Unicode(h) => [BACKSLASH, LOWER_U] + h
  }

  function PrintUnits(units: seq<Unit>): Bytes {
    if units == [] then [] else PrintUnit(units[0]) + PrintUnits(units[1..])
  }

  function PrintValue(v: Value): Bytes {
    match v
    case Text(units) => [QUOTE] + PrintUnits(units) + [QUOTE]
    case Scalar(body) => body
  }

  function PrintMember(m: Member): Bytes {
    m.pre + [QUOTE] + m.key + [QUOTE] + m.mid + [COLON] + m.gap + PrintValue(m.value) + m.post
  }

  function PrintMembers(ms: seq<Member>): Bytes {
    if ms == [] then []
    else if |ms| == 1 then PrintMember(ms[0])
    else PrintMember(ms[0]) + [COMMA] + PrintMembers(ms[1..])
  }

  function PrintObject(lead: Bytes, ms: seq<Member>, tail: Bytes): Bytes {
    lead + [OPEN_BRACE] + PrintMembers(ms) + [CLOSE_BRACE] + tail
  }

  /** Each field occurs exactly once, in any order. */
  ghost predicate ExactFields(ms: seq<Member>, fields: seq<Bytes>) {
    && |ms| == |fields|
    && (forall i, j | 0 <= i < j < |ms| :: ms[i].key != ms[j].key)
    && (forall i | 0 <= i < |ms| :: ms[i].key in fields)
  }

  ghost predicate IsFlatObject(input: Bytes, fields: seq<Bytes>) {
    exists lead, ms, tail :: Spelled(input, lead, ms, tail) && ExactFields(ms, fields)
  }

  ghost predicate Spelled(input: Bytes, lead: Bytes, ms: seq<Member>, tail: Bytes) {
    && Blank(lead) && Blank(tail) && ms != [] && (forall i | 0 <= i < |ms| :: MemberOk(ms[i]))
    && input == PrintObject(lead, ms, tail)
  }

  // ---------- The grammar in characters ----------

  /** The classes of bytes. */
  lemma Alphabet(b: byte)
    ensures Space(b) <==> b as char in {' ', '\t', '\r', '\n'}
    ensures Hex(b) <==> '0' <= b as char <= '9' || 'a' <= b as char <= 'f' || 'A' <= b as char <= 'F'
    ensures SimpleEscape(b) <==> b as char in {'"', '\\', '/', 'b', 'f', 'n', 'r', 't'}
    ensures KeyByte(b) <==> ' ' <= b as char <= '~' && b as char != '"' && b as char != '\\'
    ensures ScalarByte(b) <==> b as char !in {',', '}', '"', ':', '{', '['} && (b as char >= ' ' || b as char in {'\t', '\r', '\n'})
  {
  }

  /** The parts of a string: a character from space on, an escape, or four
      hexadecimal digits. */
  lemma UnitsWritten(u: Unit)
    ensures PrintUnit(u) == match u
                            case Plain(b) => [b]
                            case Escape(e) => ['\\' as int, e]
                            case Unicode(h) => ['\\' as int, 'u' as int] + h
    ensures UnitOk(u) <==> match u
                           case Plain(b) => b as char >= ' ' && b as char != '"' && b as char != '\\'
                           case Escape(e) => SimpleEscape(e)
                           case Unicode(h) => |h| == 4 && Hex(h[0]) && Hex(h[1]) && Hex(h[2]) && Hex(h[3])
  {
    hide SimpleEscape;
    assert u.Unicode? && |u.h| == 4 ==> (UnitOk(u) <==> Hex(u.h[0]) && Hex(u.h[1]) && Hex(u.h[2]) && Hex(u.h[3])) by {
      hide Hex;
    }
  }

  /** A member: a name of at most 31 characters, a colon and a value, a string
      or a run of characters with one that is no white space first, with white
      space anywhere between. */
  lemma MemberWritten(m: Member)
    ensures PrintMember(m) == m.pre + ['"' as int] + m.key + ['"' as int] + m.mid + [':' as int] + m.gap
                              + (match m.value
                                 case Text(units) => ['"' as int] + PrintUnits(units) + ['"' as int]
                                 case Scalar(body) => body) + m.post
    ensures MemberOk(m) <==>
              && (forall b | b in m.pre :: Space(b)) && (forall b | b in m.mid :: Space(b)) && (forall b | b in m.gap :: Space(b))
              && (forall b | b in m.post :: Space(b)) && |m.key| <= 31 && (forall b | b in m.key :: KeyByte(b))
              && match m.value
                 case Text(units) => forall u | u in units :: UnitOk(u)
                 case Scalar(body) => body != [] && !Space(body[0]) && forall b | b in body :: ScalarByte(b)
  {
    hide Space, KeyByte, ScalarByte, UnitOk;
    assert m.value.Scalar? ==> (ValueOk(m.value) <==> m.value.body != [] && !Space(m.value.body[0]) && forall b | b in m.value.body :: ScalarByte(b));
    assert m.value.Text? ==> (ValueOk(m.value) <==> forall u | u in m.value.units :: UnitOk(u));
  }

  /** A flat object: its members between braces, a comma between any two. */
  lemma ObjectWritten(lead: Bytes, first: Member, rest: seq<Member>, tail: Bytes)
    ensures PrintObject(lead, [first] + rest, tail) == lead + ['{' as int] + PrintMembers([first] + rest) + ['}' as int] + tail
    ensures PrintMembers([first] + rest) == PrintMember(first) + if rest == [] then [] else [',' as int] + PrintMembers(rest)
  {
    assert ([first] + rest)[1..] == rest;
  }

  // ---------- The recogniser as functions on the rest of the input ----------

  function Skip(t: Bytes): (r: Bytes)
    ensures |r| <= |t| && (r != [] ==> !Space(r[0]))
  {
    if t != [] && Space(t[0]) then Skip(t[1..]) else t
  }

  datatype Taken = Refused | Taken(key: Bytes, rest: Bytes)

  function KeyBody(t: Bytes, key: Bytes): (r: Taken)
    ensures r.Taken? ==> |r.rest| < |t|
  {
    if t == [] then Refused
    else if t[0] == QUOTE then Taken(key, t[1..])
    else if !KeyByte(t[0]) || |key| + 1 >= KEY_CAPACITY then Refused
    else KeyBody(t[1..], key + [t[0]])
  }

  function Key(t: Bytes): (r: Taken)
    ensures r.Taken? ==> |r.rest| < |t|
  {
    if t == [] || t[0] != QUOTE then Refused else KeyBody(t[1..], [])
  }

  function TextBody(t: Bytes): (r: Option<Bytes>)
    ensures r.Some? ==> |r.value| < |t|
  {
    if t == [] then None
    else if t[0] == QUOTE then Some(t[1..])
    else if t[0] < 0x20 then None
    else if t[0] != BACKSLASH then TextBody(t[1..])
    else if |t| < 2 then None
    else if t[1] == LOWER_U then
      if |t| >= 6 && Hex(t[2]) && Hex(t[3]) && Hex(t[4]) && Hex(t[5]) then TextBody(t[6..]) else None
    else if SimpleEscape(t[1]) then TextBody(t[2..])
    else None
  }

  function ScalarBody(t: Bytes, solid: bool): (r: Option<Bytes>)
    ensures r.Some? ==> |r.value| <= |t|
  {
    if t == [] || t[0] == COMMA || t[0] == CLOSE_BRACE then if solid then Some(t) else None
    else if !ScalarByte(t[0]) then None
    else ScalarBody(t[1..], solid || !Space(t[0]))
  }

  function ValueRest(t: Bytes): (r: Option<Bytes>)
    ensures r.Some? ==> |r.value| <= |t|
  {
    if t == [] || t[0] == OPEN_BRACE || t[0] == OPEN_BRACKET then None
    else if t[0] == QUOTE then TextBody(t[1..])
    else ScalarBody(t, false)
  }

  /** One member up to the comma or brace after it. */
  function MemberRest(t: Bytes): (r: Taken)
    ensures r.Taken? ==> |r.rest| < |t|
  {
    var k := Key(Skip(t));
    if k.Refused? then Refused
    else
      var colon := Skip(k.rest);
      if colon == [] || colon[0] != COLON then Refused
      else
        var after := ValueRest(Skip(colon[1..]));
        if after.None? then Refused else Taken(k.key, Skip(after.value))
  }

  /** The first field of that name. */
  function FieldIndex(key: Bytes, fields: seq<Bytes>): (r: Option<nat>)
    ensures r.Some? ==> r.value < |fields| && fields[r.value] == key && forall i | 0 <= i < r.value :: fields[i] != key
    ensures r.None? ==> forall i | 0 <= i < |fields| :: fields[i] != key
  {
    FieldIndexFrom(key, fields, 0)
  }

  function FieldIndexFrom(key: Bytes, fields: seq<Bytes>, from: nat): (r: Option<nat>)
    requires from <= |fields|
    ensures r.Some? ==> from <= r.value < |fields| && fields[r.value] == key && forall i | from <= i < r.value :: fields[i] != key
    ensures r.None? ==> forall i | from <= i < |fields| :: fields[i] != key
    decreases |fields| - from
  {
    if from == |fields| then None
    else if fields[from] == key then Some(from)
    else FieldIndexFrom(key, fields, from + 1)
  }

  predicate All(seen: set<nat>, n: nat) { forall i | 0 <= i < n :: i in seen }

  /** The members from here to the end of the input, with the fields seen. */
  predicate Members(t: Bytes, fields: seq<Bytes>, seen: set<nat>)
    decreases |t|
  {
    var m := MemberRest(t);
    if m.Refused? || FieldIndex(m.key, fields).None? || m.rest == [] then false
    else
      var field := FieldIndex(m.key, fields).value;
      if field in seen then false
      else if m.rest[0] == COMMA then Members(m.rest[1..], fields, seen + {field})
      else m.rest[0] == CLOSE_BRACE && Skip(m.rest[1..]) == [] && All(seen + {field}, |fields|)
  }

  predicate Accepts(input: Bytes, fields: seq<Bytes>) {
    var t := Skip(input);
    0 < |fields| <= MAX_FIELDS && t != [] && t[0] == OPEN_BRACE && Members(t[1..], fields, {})
  }

  // ---------- Every printed part is taken whole ----------

  lemma {:induction false} SkipBlank(w: Bytes, t: Bytes)
    requires Blank(w) && (t != [] ==> !Space(t[0]))
    ensures Skip(w + t) == t
  {
    if w == [] {
      assert w + t == t;
    } else {
      assert (w + t)[1..] == w[1..] + t;
      SkipBlank(w[1..], t);
    }
  }

  lemma {:induction false} KeyBodyTakes(k: Bytes, acc: Bytes, t: Bytes)
    requires KeyOk(acc + k)
    ensures KeyBody(k + [QUOTE] + t, acc) == Taken(acc + k, t)
    decreases |k|
  {
    if k == [] {
      assert k + [QUOTE] + t == [QUOTE] + t && acc + k == acc;
    } else {
      assert (k + [QUOTE] + t)[1..] == k[1..] + [QUOTE] + t;
      assert acc + [k[0]] + k[1..] == acc + k && (acc + k)[|acc|] == k[0];
      KeyBodyTakes(k[1..], acc + [k[0]], t);
    }
  }

  lemma {:induction false} TextBodyTakes(units: seq<Unit>, t: Bytes)
    requires forall i | 0 <= i < |units| :: UnitOk(units[i])
    ensures TextBody(PrintUnits(units) + [QUOTE] + t) == Some(t)
  {
    var rest := if units == [] then t else PrintUnits(units[1..]) + [QUOTE] + t;
    if units == [] {
      assert PrintUnits(units) + [QUOTE] + t == [QUOTE] + t;
    } else {
      TextBodyTakes(units[1..], t);
      assert PrintUnits(units) + [QUOTE] + t == PrintUnit(units[0]) + rest;
      UnitTaken(units[0], rest);
    }
  }

  lemma UnitTaken(u: Unit, t: Bytes)
    requires UnitOk(u)
    ensures TextBody(PrintUnit(u) + t) == TextBody(t)
  {
    var all := PrintUnit(u) + t;
    match u {
      case Plain(b) => assert all[1..] == t;
      case Escape(e) => assert all[2..] == t;
      case Unicode(h) => assert all[6..] == t && all[2..6] == h;
    }
  }

  lemma {:induction false} ScalarBodyTakes(body: Bytes, solid: bool, t: Bytes)
    requires forall i | 0 <= i < |body| :: ScalarByte(body[i])
    requires t != [] && (t[0] == COMMA || t[0] == CLOSE_BRACE)
    requires solid || exists i | 0 <= i < |body| :: !Space(body[i])
    ensures ScalarBody(body + t, solid) == Some(t)
    decreases |body|
  {
    if body == [] {
      assert body + t == t;
    } else {
      assert (body + t)[1..] == body[1..] + t;
      var now := solid || !Space(body[0]);
      if !now {
        var i :| 0 <= i < |body| && !Space(body[i]);
        assert body[1..][i - 1] == body[i];
      }
      ScalarBodyTakes(body[1..], now, t);
    }
  }

  predicate Terminator(t: Bytes) { t != [] && (t[0] == COMMA || t[0] == CLOSE_BRACE) }

  lemma TextTakes(units: seq<Unit>, post: Bytes, t: Bytes)
    requires (forall i | 0 <= i < |units| :: UnitOk(units[i])) && Blank(post) && Terminator(t)
    ensures var all := PrintValue(Text(units)) + post + t;
            all != [] && !Space(all[0]) && ValueRest(all).Some? && Skip(ValueRest(all).value) == t
  {
    hide TextBody, PrintUnits, Skip, ScalarBody, Blank;
    var all := PrintValue(Text(units)) + post + t;
    TextBodyTakes(units, post + t);
    SkipBlank(post, t);
    assert all[1..] == PrintUnits(units) + [QUOTE] + (post + t);
  }

  lemma ScalarTakes(body: Bytes, post: Bytes, t: Bytes)
    requires ValueOk(Scalar(body)) && Blank(post) && Terminator(t)
    ensures var all := PrintValue(Scalar(body)) + post + t;
            all != [] && !Space(all[0]) && ValueRest(all).Some? && Skip(ValueRest(all).value) == t
  {
    hide Skip, ScalarBody, TextBody;
    var all := PrintValue(Scalar(body)) + post + t;
    assert all == (body + post) + t;
    var i :| 0 <= i < |body| && !Space(body[i]);
    assert (body + post)[i] == body[i];
    assert all[0] == body[0] && ScalarByte(body[0]);
    ScalarBodyTakes(body + post, false, t);
    SkipBlank([], t);
    assert [] + t == t;
  }

  lemma ValueTakes(v: Value, post: Bytes, t: Bytes)
    requires ValueOk(v) && Blank(post) && Terminator(t)
    ensures var all := PrintValue(v) + post + t;
            all != [] && !Space(all[0]) && ValueRest(all).Some? && Skip(ValueRest(all).value) == t
  {
    hide Skip, ValueRest, Blank, PrintValue;
    match v {
      case Text(units) => TextTakes(units, post, t);
      case Scalar(body) => ScalarTakes(body, post, t);
    }
  }

  lemma KeyTakes(k: Bytes, t: Bytes)
    requires KeyOk(k)
    ensures Key([QUOTE] + k + [QUOTE] + t) == Taken(k, t)
  {
    hide KeyBody, KeyOk;
    var quoted := [QUOTE] + k + [QUOTE] + t;
    assert [] + k == k && quoted[1..] == k + [QUOTE] + t;
    KeyBodyTakes(k, [], t);
  }

  lemma MemberTakes(m: Member, t: Bytes)
    requires MemberOk(m) && Terminator(t)
    ensures MemberRest(PrintMember(m) + t) == Taken(m.key, t)
  {
    hide Skip, Key, PrintValue, ValueRest, ValueOk, Blank, KeyOk;
    var value := PrintValue(m.value) + m.post + t;
    var colon := [COLON] + m.gap + value;
    var quoted := [QUOTE] + m.key + [QUOTE] + (m.mid + colon);
    ValueTakes(m.value, m.post, t);
    SkipBlank(m.gap, value);
    SkipBlank(m.mid, colon);
    KeyTakes(m.key, m.mid + colon);
    SkipBlank(m.pre, quoted);
    assert colon[1..] == m.gap + value;
    MemberText(m, m.pre + quoted, quoted, m.mid + colon, colon, value, t);
    hide PrintMember;
  }

  // ---------- Everything taken is a printed part ----------

  lemma BlankCons(b: byte, w: Bytes)
    requires Space(b) && Blank(w)
    ensures Blank([b] + w)
  {
  }

  lemma {:induction false} SkipIsBlank(t: Bytes) returns (w: Bytes)
    ensures Blank(w) && t == w + Skip(t)
  {
    if t != [] && Space(t[0]) {
      var rest := SkipIsBlank(t[1..]);
      w := [t[0]] + rest;
      BlankCons(t[0], rest);
      hide Blank;
      assert t == [t[0]] + t[1..] == [t[0]] + (rest + Skip(t[1..])) == w + Skip(t[1..]);
    } else {
      w := [];
      assert [] + t == t;
    }
  }

  lemma {:induction false} KeyBodyIsKey(t: Bytes, acc: Bytes) returns (k: Bytes)
    requires KeyOk(acc) && KeyBody(t, acc).Taken?
    ensures KeyBody(t, acc).key == acc + k && KeyOk(acc + k) && t == k + [QUOTE] + KeyBody(t, acc).rest
    decreases |t|
  {
    if t[0] == QUOTE {
      k := [];
      assert acc + k == acc && t == [QUOTE] + t[1..];
    } else {
      var next := acc + [t[0]];
      k := KeyBodyIsKey(t[1..], next);
      k := [t[0]] + k;
      assert next + k[1..] == acc + k;
      assert t == [t[0]] + t[1..];
    }
  }

  /** The first unit of an unfinished text. */
  function FirstUnit(t: Bytes): Unit
    requires TextBody(t).Some? && t[0] != QUOTE
  {
    if t[0] != BACKSLASH then Plain(t[0]) else if t[1] == LOWER_U then Unicode(t[2..6]) else Escape(t[1])
  }

  lemma FirstUnitIsUnit(t: Bytes)
    requires TextBody(t).Some? && t[0] != QUOTE
    ensures UnitOk(FirstUnit(t)) && 0 < |PrintUnit(FirstUnit(t))| <= |t|
    ensures t == PrintUnit(FirstUnit(t)) + t[|PrintUnit(FirstUnit(t))|..]
    ensures TextBody(t[|PrintUnit(FirstUnit(t))|..]) == TextBody(t)
  {
    hide Hex, SimpleEscape;
    if t[0] != BACKSLASH {
      assert t == [t[0]] + t[1..];
    } else if t[1] == LOWER_U {
      UnicodeFirst(t);
    } else {
      assert t == [t[0], t[1]] + t[2..];
    }
  }

  lemma UnicodeFirst(t: Bytes)
    requires |t| >= 6 && t[0] == BACKSLASH && t[1] == LOWER_U && Hex(t[2]) && Hex(t[3]) && Hex(t[4]) && Hex(t[5])
    ensures UnitOk(Unicode(t[2..6])) && |PrintUnit(Unicode(t[2..6]))| == 6 && t == PrintUnit(Unicode(t[2..6])) + t[6..]
  {
    hide Hex, TextBody;
    assert t == [t[0], t[1]] + t[2..6] + t[6..];
  }

  lemma PrintUnitsCons(u: Unit, rest: seq<Unit>)
    ensures PrintUnits([u] + rest) == PrintUnit(u) + PrintUnits(rest)
  {
    assert ([u] + rest)[1..] == rest;
  }

  lemma UnitThenText(t: Bytes, u: Unit, tail: Bytes, rest: seq<Unit>, end: Bytes) returns (units: seq<Unit>)
    requires UnitOk(u) && (forall i | 0 <= i < |rest| :: UnitOk(rest[i]))
    requires t == PrintUnit(u) + tail && tail == PrintUnits(rest) + [QUOTE] + end
    ensures (forall i | 0 <= i < |units| :: UnitOk(units[i])) && t == PrintUnits(units) + [QUOTE] + end
  {
    hide UnitOk, PrintUnit;
    units := [u] + rest;
    PrintUnitsCons(u, rest);
    hide PrintUnits;
  }

  lemma {:induction false} TextBodyIsText(t: Bytes) returns (units: seq<Unit>)
    requires TextBody(t).Some?
    ensures (forall i | 0 <= i < |units| :: UnitOk(units[i])) && t == PrintUnits(units) + [QUOTE] + TextBody(t).value
    decreases |t|
  {
    if t[0] == QUOTE {
      units := [];
      assert t == [QUOTE] + t[1..];
    } else {
      hide FirstUnit, PrintUnit, UnitOk, PrintUnits, TextBody;
      FirstUnitIsUnit(t);
      var tail := t[|PrintUnit(FirstUnit(t))|..];
      var rest := TextBodyIsText(tail);
      units := UnitThenText(t, FirstUnit(t), tail, rest, TextBody(t).value);
    }
  }

  lemma {:induction false} ScalarBodyIsScalar(t: Bytes, solid: bool) returns (body: Bytes)
    requires ScalarBody(t, solid).Some?
    ensures t == body + ScalarBody(t, solid).value && forall i | 0 <= i < |body| :: ScalarByte(body[i])
    ensures solid || exists i | 0 <= i < |body| :: !Space(body[i])
    ensures ScalarBody(t, solid).value == [] || Terminator(ScalarBody(t, solid).value)
    decreases |t|
  {
    if t == [] || t[0] == COMMA || t[0] == CLOSE_BRACE {
      body := [];
    } else {
      var now := solid || !Space(t[0]);
      var rest := ScalarBodyIsScalar(t[1..], now);
      body := [t[0]] + rest;
      assert body[0] == t[0];
      if !now {
        var i :| 0 <= i < |rest| && !Space(rest[i]);
        assert body[i + 1] == rest[i];
      }
    }
  }

  lemma TextIsValue(t: Bytes) returns (v: Value)
    requires t != [] && t[0] == QUOTE && ValueRest(t).Some?
    ensures ValueOk(v) && t == PrintValue(v) + ValueRest(t).value
  {
    hide TextBody, PrintUnits, ScalarBody;
    var units := TextBodyIsText(t[1..]);
    v := Text(units);
    assert t == [QUOTE] + t[1..];
  }

  lemma ScalarIsValue(t: Bytes) returns (v: Value)
    requires t != [] && t[0] != QUOTE && !Space(t[0]) && ValueRest(t).Some?
    ensures ValueOk(v) && t == PrintValue(v) + ValueRest(t).value
  {
    hide TextBody, ScalarBody, ScalarByte;
    var body := ScalarBodyIsScalar(t, false);
    v := Scalar(body);
    var i :| 0 <= i < |body| && !Space(body[i]);
    assert body[0] == t[0];
  }

  lemma ValueIsValue(t: Bytes) returns (v: Value, post: Bytes)
    requires t != [] && !Space(t[0]) && ValueRest(t).Some?
    ensures ValueOk(v) && Blank(post) && t == PrintValue(v) + post + Skip(ValueRest(t).value)
  {
    hide ValueRest, ValueOk, PrintValue, Skip, Blank;
    post := SkipIsBlank(ValueRest(t).value);
    if t[0] == QUOTE {
      v := TextIsValue(t);
    } else {
      v := ScalarIsValue(t);
    }
  }

  lemma KeyIsKey(t: Bytes)
    requires Key(t).Taken?
    ensures KeyOk(Key(t).key) && t == [QUOTE] + Key(t).key + [QUOTE] + Key(t).rest
  {
    var key := KeyBodyIsKey(t[1..], []);
    hide KeyBody, KeyOk;
    assert [] + key == key && t == [QUOTE] + t[1..];
  }

  lemma ColonIsColon(t: Bytes, gap: Bytes, value: Bytes)
    requires t != [] && t[0] == COLON && t[1..] == gap + value
    ensures t == [COLON] + gap + value
  {
    assert t == [t[0]] + t[1..];
  }

  lemma MemberIsMember(t: Bytes) returns (m: Member)
    requires MemberRest(t).Taken?
    ensures MemberOk(m) && m.key == MemberRest(t).key && t == PrintMember(m) + MemberRest(t).rest
  {
    hide Skip, Key, PrintValue, ValueRest, ValueOk, Blank, KeyOk;
    var pre := SkipIsBlank(t);
    var k := Key(Skip(t));
    KeyIsKey(Skip(t));
    var colon := Skip(k.rest);
    var mid := SkipIsBlank(k.rest);
    var gap := SkipIsBlank(colon[1..]);
    SkipStops(colon[1..]);
    var v, post := ValueIsValue(Skip(colon[1..]));
    ColonIsColon(colon, gap, Skip(colon[1..]));
    m := Member(pre, k.key, mid, gap, v, post);
    MemberText(m, t, Skip(t), k.rest, colon, Skip(colon[1..]), MemberRest(t).rest);
  }

  lemma SkipStops(t: Bytes)
    ensures Skip(t) == [] || !Space(Skip(t)[0])
    ensures ValueRest(Skip(t)).Some? ==> Skip(t) != []
  {
  }

  lemma MemberText(m: Member, t: Bytes, quoted: Bytes, afterKey: Bytes, colon: Bytes, value: Bytes, rest: Bytes)
    requires t == m.pre + quoted && quoted == [QUOTE] + m.key + [QUOTE] + afterKey && afterKey == m.mid + colon
    requires colon == [COLON] + m.gap + value && value == PrintValue(m.value) + m.post + rest
    ensures t == PrintMember(m) + rest
  {
    hide PrintValue;
  }

  // ---------- Whole objects ----------

  /** The keys name fields not yet seen, each once, and complete them. */
  ghost predicate Fits(ms: seq<Member>, fields: seq<Bytes>, seen: set<nat>) {
    if ms == [] then All(seen, |fields|)
    else
      var field := FieldIndex(ms[0].key, fields);
      field.Some? && field.value !in seen && Fits(ms[1..], fields, seen + {field.value})
  }

  lemma {:induction false} MembersTake(ms: seq<Member>, tail: Bytes, fields: seq<Bytes>, seen: set<nat>)
    requires ms != [] && (forall i | 0 <= i < |ms| :: MemberOk(ms[i])) && Blank(tail) && Fits(ms, fields, seen)
    ensures Members(PrintMembers(ms) + [CLOSE_BRACE] + tail, fields, seen)
    decreases |ms|
  {
    hide MemberOk, PrintMember, MemberRest, Blank, FieldIndex, All;
    var end := [CLOSE_BRACE] + tail;
    var t := PrintMembers(ms) + [CLOSE_BRACE] + tail;
    if |ms| == 1 {
      assert t == PrintMember(ms[0]) + end;
      MemberTakes(ms[0], end);
      SkipBlank(tail, []);
      assert end[1..] == tail + [];
      assert Fits(ms[1..], fields, seen + {FieldIndex(ms[0].key, fields).value});
    } else {
      var more := [COMMA] + (PrintMembers(ms[1..]) + [CLOSE_BRACE] + tail);
      assert t == PrintMember(ms[0]) + more;
      MemberTakes(ms[0], more);
      assert more[1..] == PrintMembers(ms[1..]) + [CLOSE_BRACE] + tail;
      MembersTake(ms[1..], tail, fields, seen + {FieldIndex(ms[0].key, fields).value});
    }
  }

  lemma {:induction false} MembersAreMembers(t: Bytes, fields: seq<Bytes>, seen: set<nat>) returns (ms: seq<Member>, tail: Bytes)
    requires Members(t, fields, seen)
    ensures ms != [] && (forall i | 0 <= i < |ms| :: MemberOk(ms[i])) && Blank(tail) && Fits(ms, fields, seen)
    ensures t == PrintMembers(ms) + [CLOSE_BRACE] + tail
    decreases |t|
  {
    hide MemberOk, PrintMember, MemberRest, Blank, FieldIndex, All;
    var m := MemberIsMember(t);
    var rest := MemberRest(t).rest;
    var field := FieldIndex(m.key, fields).value;
    if rest[0] == COMMA {
      var more, end := MembersAreMembers(rest[1..], fields, seen + {field});
      ms, tail := [m] + more, end;
      assert ms[1..] == more;
      assert rest == [COMMA] + rest[1..];
    } else {
      tail := SkipIsBlank(rest[1..]);
      ms := [m];
      assert rest == [CLOSE_BRACE] + rest[1..];
      assert tail + [] == tail;
      assert ms[1..] == [];
    }
  }

  lemma {:induction false} BoundedSet(seen: set<nat>, n: nat)
    requires forall x | x in seen :: x < n
    ensures |seen| <= n && (|seen| == n <==> All(seen, n))
  {
    if n > 0 {
      var less := seen - {n - 1};
      BoundedSet(less, n - 1);
      if n - 1 in seen {
        assert |seen| == |less| + 1;
        assert All(less, n - 1) <==> All(seen, n);
      } else {
        assert seen == less;
      }
    }
  }

  lemma {:induction false} FitsIsExact(ms: seq<Member>, fields: seq<Bytes>, seen: set<nat>)
    requires Fits(ms, fields, seen) && forall x | x in seen :: x < |fields|
    ensures |ms| + |seen| == |fields|
    ensures forall i | 0 <= i < |ms| ::
              FieldIndex(ms[i].key, fields).Some? && FieldIndex(ms[i].key, fields).value !in seen && ms[i].key in fields
    ensures forall i, j | 0 <= i < j < |ms| :: ms[i].key != ms[j].key
    decreases |ms|
  {
    if ms == [] {
      BoundedSet(seen, |fields|);
    } else {
      var field := FieldIndex(ms[0].key, fields).value;
      FitsIsExact(ms[1..], fields, seen + {field});
      forall i | 0 <= i < |ms|
        ensures FieldIndex(ms[i].key, fields).Some? && FieldIndex(ms[i].key, fields).value !in seen && ms[i].key in fields
      {
        if i > 0 {
          assert ms[i] == ms[1..][i - 1];
        }
      }
      forall i, j | 0 <= i < j < |ms| ensures ms[i].key != ms[j].key {
        assert ms[j] == ms[1..][j - 1];
        if i > 0 {
          assert ms[i] == ms[1..][i - 1];
        }
      }
    }
  }

  lemma {:induction false} ExactFits(ms: seq<Member>, fields: seq<Bytes>, seen: set<nat>)
    requires |ms| + |seen| == |fields| && forall x | x in seen :: x < |fields|
    requires forall i | 0 <= i < |ms| :: ms[i].key in fields && FieldIndex(ms[i].key, fields).Some? && FieldIndex(ms[i].key, fields).value !in seen
    requires forall i, j | 0 <= i < j < |ms| :: ms[i].key != ms[j].key
    ensures Fits(ms, fields, seen)
    decreases |ms|
  {
    if ms == [] {
      BoundedSet(seen, |fields|);
    } else {
      var field := FieldIndex(ms[0].key, fields).value;
      forall i | 0 <= i < |ms[1..]|
        ensures ms[1..][i].key in fields && FieldIndex(ms[1..][i].key, fields).Some?
                && FieldIndex(ms[1..][i].key, fields).value !in seen + {field}
      {
        assert ms[1..][i] == ms[i + 1] && ms[0].key != ms[i + 1].key;
      }
      assert |seen + {field}| == |seen| + 1;
      ExactFits(ms[1..], fields, seen + {field});
    }
  }

  lemma InFields(ms: seq<Member>, fields: seq<Bytes>)
    requires forall i | 0 <= i < |ms| :: ms[i].key in fields
    ensures forall i | 0 <= i < |ms| :: FieldIndex(ms[i].key, fields).Some?
  {
  }

  lemma ObjectText(input: Bytes, lead: Bytes, t: Bytes, ms: seq<Member>, tail: Bytes)
    requires input == lead + t && t != [] && t[0] == OPEN_BRACE && t[1..] == PrintMembers(ms) + [CLOSE_BRACE] + tail
    ensures input == PrintObject(lead, ms, tail)
  {
    hide PrintMembers;
    assert t == [t[0]] + t[1..];
  }

  lemma FlatObjectSpelled(input: Bytes, fields: seq<Bytes>)
    requires Accepts(input, fields)
    ensures IsFlatObject(input, fields)
  {
    hide Skip, MemberOk, Blank, Members, PrintMembers, Fits, FieldIndex, PrintObject;
    var lead := SkipIsBlank(input);
    var t := Skip(input);
    var ms, tail := MembersAreMembers(t[1..], fields, {});
    FitsIsExact(ms, fields, {});
    ObjectText(input, lead, t, ms, tail);
    assert Spelled(input, lead, ms, tail);
    assert ExactFields(ms, fields);
  }

  /** The recogniser accepts exactly the texts of the grammar in which every
      field occurs once, in any order. */
  lemma AcceptsIffFlatObject(input: Bytes, fields: seq<Bytes>)
    requires 0 < |fields| <= MAX_FIELDS
    ensures Accepts(input, fields) <==> IsFlatObject(input, fields)
  {
    hide Accepts, Spelled, Fits, FieldIndex;
    if Accepts(input, fields) {
      FlatObjectSpelled(input, fields);
    }
    if IsFlatObject(input, fields) {
      var lead, ms, tail :| Spelled(input, lead, ms, tail) && ExactFields(ms, fields);
      InFields(ms, fields);
      ExactFits(ms, fields, {});
      FlatObjectAccepted(input, fields, lead, ms, tail);
    }
  }

  lemma FlatObjectAccepted(input: Bytes, fields: seq<Bytes>, lead: Bytes, ms: seq<Member>, tail: Bytes)
    requires 0 < |fields| <= MAX_FIELDS && Spelled(input, lead, ms, tail) && Fits(ms, fields, {})
    ensures Accepts(input, fields)
  {
    hide Skip, MemberOk, Blank, Members, PrintMembers, Fits;
    MembersTake(ms, tail, fields, {});
    var t := [OPEN_BRACE] + (PrintMembers(ms) + [CLOSE_BRACE] + tail);
    SkipBlank(lead, t);
    assert input == lead + t;
    assert t[1..] == PrintMembers(ms) + [CLOSE_BRACE] + tail;
  }

  // ---------- JSON numbers ----------

  predicate Digits(d: Bytes) { d != [] && forall i | 0 <= i < |d| :: 48 <= d[i] <= 57 }

  datatype Exponent = Exponent(mark: byte, sign: Bytes, digits: Bytes)

  datatype Number = Number(negative: bool, whole: Bytes, fraction: Option<Bytes>, exponent: Option<Exponent>)

  /** Section 6 of RFC 8259. */
  predicate NumberOk(n: Number) {
    && Digits(n.whole) && (n.whole[0] == 48 ==> |n.whole| == 1)
    && (n.fraction.Some? ==> Digits(n.fraction.value))
    && (n.exponent.Some? ==>
          var e := n.exponent.value;
          (e.mark == 69 || e.mark == 101) && (e.sign == [] || e.sign == [43] || e.sign == [45]) && Digits(e.digits))
  }

  function PrintNumber(n: Number): Bytes {
    (if n.negative then [45] else []) + n.whole
    + (if n.fraction.Some? then [46] + n.fraction.value else [])
    + (if n.exponent.Some? then [n.exponent.value.mark] + n.exponent.value.sign + n.exponent.value.digits else [])
  }

  predicate NumberByte(b: byte) { 48 <= b <= 57 || b == 43 || b == 45 || b == 46 || b == 69 || b == 101 }

  lemma NumbersAreValues(n: Bytes)
    requires n != [] && forall i | 0 <= i < |n| :: NumberByte(n[i])
    ensures ValueOk(Scalar(n))
  {
    assert NumberByte(n[0]) && !Space(n[0]);
    assert forall i | 0 <= i < |n| :: NumberByte(n[i]) && ScalarByte(n[i]);
  }

  predicate NumberBytes(b: Bytes) { forall i | 0 <= i < |b| :: NumberByte(b[i]) }

  lemma NumberBytesAppend(a: Bytes, b: Bytes)
    requires NumberBytes(a) && NumberBytes(b)
    ensures NumberBytes(a + b)
  {
  }

  lemma PrintedNumberBytes(n: Number)
    requires NumberOk(n)
    ensures PrintNumber(n) != [] && NumberBytes(PrintNumber(n))
  {
    var sign: Bytes := if n.negative then [45] else [];
    var fraction: Bytes := if n.fraction.Some? then [46] + n.fraction.value else [];
    var exponent: Bytes := if n.exponent.Some? then [n.exponent.value.mark] + n.exponent.value.sign + n.exponent.value.digits else [];
    assert NumberBytes(fraction) && NumberBytes(exponent) && NumberBytes(sign) && NumberBytes(n.whole);
    hide NumberBytes;
    NumberBytesAppend(sign, n.whole);
    NumberBytesAppend(sign + n.whole, fraction);
    NumberBytesAppend(sign + n.whole + fraction, exponent);
  }

  /** A JSON string, or a JSON number. */
  ghost predicate JsonValue(v: Value) {
    match v
    case Text(units) => forall i | 0 <= i < |units| :: UnitOk(units[i])
    case Scalar(body) => exists n :: NumberOk(n) && body == PrintNumber(n)
  }

  /** A flat object as JSON spells it, each field once, in any order and with any
      white space. */
  ghost predicate JsonObject(fields: seq<Bytes>, lead: Bytes, ms: seq<Member>, tail: Bytes) {
    && Blank(lead) && Blank(tail) && ExactFields(ms, fields)
    && forall i | 0 <= i < |ms| ::
         && Blank(ms[i].pre) && KeyOk(ms[i].key) && Blank(ms[i].mid) && Blank(ms[i].gap) && Blank(ms[i].post)
         && JsonValue(ms[i].value)
  }

  lemma JsonValueOk(v: Value)
    requires JsonValue(v)
    ensures ValueOk(v)
  {
    if v.Scalar? {
      var n :| NumberOk(n) && v.body == PrintNumber(n);
      PrintedNumberBytes(n);
      NumbersAreValues(v.body);
    }
  }

  /** Every flat JSON object of strings and numbers under the names is accepted. */
  lemma JsonObjectsAccepted(fields: seq<Bytes>, lead: Bytes, ms: seq<Member>, tail: Bytes)
    requires 0 < |fields| <= MAX_FIELDS && JsonObject(fields, lead, ms, tail)
    ensures Accepts(PrintObject(lead, ms, tail), fields)
  {
    forall i | 0 <= i < |ms| ensures MemberOk(ms[i]) {
      JsonValueOk(ms[i].value);
    }
    hide Accepts, JsonValue, MemberOk, PrintObject, Blank;
    assert Spelled(PrintObject(lead, ms, tail), lead, ms, tail);
    AcceptsIffFlatObject(PrintObject(lead, ms, tail), fields);
  }

  /** The literal true. */
  const TRUE: Bytes := [116, 114, 117, 101]

  /** The converse fails: an object whose only value is the literal true, which
      is no number, is accepted as well. */
  lemma NotOnlyNumbersAccepted()
    ensures forall n | NumberOk(n) :: PrintNumber(n) != TRUE
    ensures Accepts(PrintObject([], [Member([], [97], [], [], Scalar(TRUE), [])], []), [[97]])
  {
    forall n | NumberOk(n) ensures PrintNumber(n) != TRUE {
      PrintedNumberBytes(n);
      assert !NumberByte(TRUE[0]);
    }
    var m := Member([], [97], [], [], Scalar(TRUE), []);
    assert ScalarOk(TRUE) by {
      assert !Space(TRUE[0]);
    }
    assert MemberOk(m) && [m][0] == m;
    hide Accepts, MemberOk, PrintObject;
    assert Spelled(PrintObject([], [m], []), [], [m], []);
    assert ExactFields([m], [[97]]);
    AcceptsIffFlatObject(PrintObject([], [m], []), [[97]]);
  }

  // ---------- The recogniser over a cursor ----------

  lemma Suffix(input: Bytes, i: nat, k: nat)
    requires i + k <= |input|
    ensures input[i..][k..] == input[i + k..]
  {
  }

  method SkipSpace(input: Bytes, start: nat) returns (cursor: nat)
    requires start <= |input|
    ensures start <= cursor <= |input| && input[cursor..] == Skip(input[start..])
  {
    cursor := start;
    while cursor < |input| && Space(input[cursor])
      invariant start <= cursor <= |input| && Skip(input[start..]) == Skip(input[cursor..])
    {
      Suffix(input, cursor, 1);
      cursor := cursor + 1;
    }
  }

  /** `consumeString` with a key buffer; the terminating zero is not kept. */
  method ConsumeKey(input: Bytes, start: nat, key: array<byte>) returns (ok: bool, cursor: nat, length: nat)
    requires start <= |input| && key.Length == KEY_CAPACITY
    modifies key
    ensures ok <==> Key(input[start..]).Taken?
    ensures ok ==> start <= cursor <= |input| && length < KEY_CAPACITY && Key(input[start..]) == Taken(key[..length], input[cursor..])
  {
    cursor, length := start, 0;
    if cursor >= |input| || input[cursor] != QUOTE {
      return false, cursor, length;
    }
    Suffix(input, start, 1);
    cursor := cursor + 1;
    assert key[..0] == [];
    while cursor < |input|
      invariant start < cursor <= |input| && length < KEY_CAPACITY
      invariant Key(input[start..]) == KeyBody(input[cursor..], key[..length])
    {
      var value := input[cursor];
      Suffix(input, cursor, 1);
      cursor := cursor + 1;
      if value == QUOTE {
        return true, cursor, length;
      }
      if value < 0x20 || value == BACKSLASH || length + 1 >= key.Length || value > 0x7e {
        return false, cursor, length;
      }
      ghost var before := key[..length];
      key[length] := value;
      length := length + 1;
      assert key[..length] == before + [value];
    }
    ok := false;
  }

  /** What follows a backslash. */
  method ConsumeEscape(input: Bytes, start: nat) returns (known: bool, next: nat)
    requires 0 < start <= |input| && input[start - 1] == BACKSLASH
    ensures known ==> start < next <= |input| && TextBody(input[start - 1..]) == TextBody(input[next..])
    ensures !known ==> TextBody(input[start - 1..]).None?
  {
    next := start;
    if start >= |input| {
      return false, next;
    }
    if input[start] == LOWER_U {
      var digits := FourHex(input, start + 1);
      if digits {
        Suffix(input, start - 1, 6);
      }
      return digits, start + 5;
    }
    Suffix(input, start - 1, 2);
    known, next := SimpleEscape(input[start]), start + 1;
  }

  /** `consumeString` without a key buffer. */
  method ConsumeText(input: Bytes, start: nat) returns (ok: bool, cursor: nat)
    requires start < |input| && input[start] == QUOTE
    ensures ok <==> TextBody(input[start + 1..]).Some?
    ensures ok ==> start <= cursor <= |input| && TextBody(input[start + 1..]) == Some(input[cursor..])
  {
    cursor := start + 1;
    while cursor < |input|
      invariant start < cursor <= |input| && TextBody(input[start + 1..]) == TextBody(input[cursor..])
    {
      var value := input[cursor];
      ghost var t := input[cursor..];
      Suffix(input, cursor, 1);
      cursor := cursor + 1;
      if value == QUOTE {
        return true, cursor;
      }
      if value < 0x20 {
        return false, cursor;
      }
      if value == BACKSLASH {
        var known, next := ConsumeEscape(input, cursor);
        if !known {
          return false, cursor;
        }
        cursor := next;
      }
    }
    ok := false;
  }

  method FourHex(input: Bytes, start: nat) returns (ok: bool)
    ensures ok <==> start + 4 <= |input| && forall i | start <= i < start + 4 :: Hex(input[i])
  {
    var index := 0;
    while index < 4
      invariant 0 <= index <= 4 && start + index <= Max(start, |input|)
      invariant index > 0 ==> start + index <= |input|
      invariant forall i | start <= i < start + index :: Hex(input[i])
    {
      if start + index >= |input| || !Hex(input[start + index]) {
        return false;
      }
      index := index + 1;
    }
    ok := true;
  }

  method ConsumeScalar(input: Bytes, start: nat) returns (ok: bool, cursor: nat)
    requires start <= |input|
    ensures ok <==> ScalarBody(input[start..], false).Some?
    ensures ok ==> start <= cursor <= |input| && ScalarBody(input[start..], false) == Some(input[cursor..])
  {
    cursor := start;
    var solid := false;
    while cursor < |input| && input[cursor] != COMMA && input[cursor] != CLOSE_BRACE
      invariant start <= cursor <= |input| && ScalarBody(input[start..], false) == ScalarBody(input[cursor..], solid)
    {
      var value := input[cursor];
      Suffix(input, cursor, 1);
      cursor := cursor + 1;
      if value == QUOTE || value == COLON || value == OPEN_BRACE || value == OPEN_BRACKET || (value < 0x20 && !Space(value)) {
        return false, cursor;
      }
      solid := solid || !Space(value);
    }
    ok := solid;
  }

  /** One member up to the comma or brace after it. */
  method ConsumeMember(input: Bytes, start: nat, key: array<byte>) returns (ok: bool, cursor: nat, length: nat)
    requires start <= |input| && key.Length == KEY_CAPACITY
    modifies key
    ensures ok <==> MemberRest(input[start..]).Taken?
    ensures ok ==> start < cursor <= |input| && length < KEY_CAPACITY && MemberRest(input[start..]) == Taken(key[..length], input[cursor..])
  {
    hide Skip, Key, TextBody, ScalarBody;
    var at := SkipSpace(input, start);
    ok, cursor, length := ConsumeKey(input, at, key);
    if !ok {
      return;
    }
    cursor := SkipSpace(input, cursor);
    if cursor >= |input| || input[cursor] != COLON {
      return false, cursor, length;
    }
    Suffix(input, cursor, 1);
    cursor := SkipSpace(input, cursor + 1);
    if cursor >= |input| || input[cursor] == OPEN_BRACE || input[cursor] == OPEN_BRACKET {
      return false, cursor, length;
    }
    if input[cursor] == QUOTE {
      Suffix(input, cursor, 1);
      ok, cursor := ConsumeText(input, cursor);
    } else {
      ok, cursor := ConsumeScalar(input, cursor);
    }
    if ok {
      cursor := SkipSpace(input, cursor);
    }
  }

  lemma MembersUnfold(t: Bytes, fields: seq<Bytes>, seen: set<nat>)
    ensures var m := MemberRest(t);
            Members(t, fields, seen) <==>
              && m.Taken? && FieldIndex(m.key, fields).Some? && m.rest != []
              && var field := FieldIndex(m.key, fields).value;
              && field !in seen
              && if m.rest[0] == COMMA then Members(m.rest[1..], fields, seen + {field})
                 else m.rest[0] == CLOSE_BRACE && Skip(m.rest[1..]) == [] && All(seen + {field}, |fields|)
  {
  }

  lemma SeenGrows(seen: set<nat>, field: nat, n: nat)
    requires field < n && field !in seen && forall x | x in seen :: x < n
    ensures |seen + {field}| == |seen| + 1 && forall x | x in seen + {field} :: x < n
    ensures |seen + {field}| == n <==> All(seen + {field}, n)
  {
    BoundedSet(seen + {field}, n);
  }

  /** The members from `start` on, with the fields seen and their number. */
  method ScanMembers(input: Bytes, start: nat, fields: seq<Bytes>) returns (ok: bool)
    requires start <= |input|
    ensures ok <==> Members(input[start..], fields, {})
  {
    hide Skip, MemberRest, All, Members, FieldIndex;
    var cursor := start;
    var seen: set<nat>, members := {}, 0;
    var key := new byte[KEY_CAPACITY](i => 0);
    while true
      invariant cursor <= |input| && members == |seen| && forall x | x in seen :: x < |fields|
      invariant Members(input[start..], fields, {}) == Members(input[cursor..], fields, seen)
      decreases |input| - cursor
    {
      MembersUnfold(input[cursor..], fields, seen);
      var taken, next, length := ConsumeMember(input, cursor, key);
      if !taken {
        return false;
      }
      var field := FieldIndex(key[..length], fields);
      if field.None? || field.value in seen || next >= |input| {
        return false;
      }
      SeenGrows(seen, field.value, |fields|);
      seen, members := seen + {field.value}, members + 1;
      Suffix(input, next, 1);
      if input[next] != COMMA {
        if input[next] != CLOSE_BRACE {
          return false;
        }
        cursor := SkipSpace(input, next + 1);
        return cursor == |input| && members == |fields|;
      }
      cursor := next + 1;
    }
  }

  method HasExactUniqueFlatJsonFields(input: Bytes, fields: seq<Bytes>) returns (ok: bool)
    ensures ok <==> 1 <= |fields| <= 31 && IsFlatObject(input, fields)
  {
    hide Skip, IsFlatObject, Members;
    if |fields| == 0 || |fields| > MAX_FIELDS {
      return false;
    }
    AcceptsIffFlatObject(input, fields);
    var cursor := SkipSpace(input, 0);
    assert input[0..] == input;
    if cursor >= |input| || input[cursor] != OPEN_BRACE {
      return false;
    }
    Suffix(input, cursor, 1);
    ok := ScanMembers(input, cursor + 1, fields);
  }
}
