/** Length-prefixed canonical encodings and the builder that writes them
    (src/GattProtocol.cpp, `CanonicalBinaryBuilder`). */
module CanonicalBytes {
  import opened Wrappers
  import opened Words

  type Bytes = seq<byte>

  /** One encoded field: raw bytes, a length before text that must not be
      empty or may be, or a presence byte before optional bytes. */
  datatype Field = Raw(b: Bytes) | Short(text: Bytes) | Named(text: Bytes) | Long(text: Bytes) | Optional(value: Option<Bytes>)

  datatype Shape = RawOf(size: nat) | ShortText | NamedText | LongText | OptionalOf(size: nat)

  predicate HasShape(f: Field, s: Shape) {
    match f
    case Raw(b) => s == RawOf(|b|)
    case Short(text) => s == ShortText && |text| < 256
    case Named(text) => s == NamedText && |text| < 0x1_0000
    case Long(text) => s == LongText && |text| < 0x1_0000
    case Optional(v) => s.OptionalOf? && (v.Some? ==> |v.value| == s.size)
  }

  function Encode(f: Field): Bytes {
    match f
    case Raw(b) => b
    case Short(text) => if |text| < 256 then [|text|] + text else []
    case Named(text) => if |text| < 0x1_0000 then Bytes16(|text|) + text else []
    case Long(text) => if |text| < 0x1_0000 then Bytes16(|text|) + text else []
    case Optional(v) => if v.None? then [0] else [1] + v.value
  }

  function EncodeAll(fs: seq<Field>): Bytes {
    if fs == [] then [] else Encode(fs[0]) + EncodeAll(fs[1..])
  }

  predicate Shaped(fs: seq<Field>, shapes: seq<Shape>) {
    |fs| == |shapes| && forall i | 0 <= i < |fs| :: HasShape(fs[i], shapes[i])
  }

  // ---------- Unambiguity ----------

  lemma SplitEqual(a: Bytes, b: Bytes, x: Bytes, y: Bytes)
    requires a + x == b + y && |a| == |b|
    ensures a == b && x == y
  {
    assert a == (a + x)[..|a|] && b == (b + y)[..|b|];
    assert x == (a + x)[|a|..] && y == (b + y)[|b|..];
  }

  /** Whatever follows, a field of known shape is read back exactly. */
  lemma FieldIsPrefixFree(f: Field, g: Field, s: Shape, x: Bytes, y: Bytes)
    requires HasShape(f, s) && HasShape(g, s) && Encode(f) + x == Encode(g) + y
    ensures f == g && x == y
  {
    var all := Encode(f) + x;
    assert !s.RawOf? ==> all[0] == Encode(f)[0] && all[0] == Encode(g)[0];
    assert s.LongText? || s.NamedText? ==> all[1] == Encode(f)[1] && all[1] == Encode(g)[1];
    SplitEqual(Encode(f), Encode(g), x, y);
    match s {
      case RawOf(_) =>
      case ShortText => assert f.text == Encode(f)[1..] && g.text == Encode(g)[1..];
      case NamedText => assert f.text == Encode(f)[2..] && g.text == Encode(g)[2..];
      case LongText => assert f.text == Encode(f)[2..] && g.text == Encode(g)[2..];
      case OptionalOf(_) =>
        if f.value.Some? {
          assert f.value.value == Encode(f)[1..] && g.value.value == Encode(g)[1..];
        }
    }
  }

  lemma {:induction false} EncodingIsUnambiguous(fs: seq<Field>, gs: seq<Field>, shapes: seq<Shape>)
    requires Shaped(fs, shapes) && Shaped(gs, shapes) && EncodeAll(fs) == EncodeAll(gs)
    ensures fs == gs
    decreases |fs|
  {
    if fs != [] {
      FieldIsPrefixFree(fs[0], gs[0], shapes[0], EncodeAll(fs[1..]), EncodeAll(gs[1..]));
      EncodingIsUnambiguous(fs[1..], gs[1..], shapes[1..]);
      assert fs == [fs[0]] + fs[1..] && gs == [gs[0]] + gs[1..];
    }
  }

  lemma {:induction false} EncodeAllAppend(fs: seq<Field>, f: Field)
    ensures EncodeAll(fs + [f]) == EncodeAll(fs) + Encode(f)
  {
    if fs == [] {
      assert fs + [f] == [f] && [f][1..] == [];
      assert EncodeAll([f]) == Encode(f) + EncodeAll([]);
    } else {
      EncodeAllAppend(fs[1..], f);
      assert (fs + [f])[1..] == fs[1..] + [f];
    }
  }

  // ---------- ASCII ----------

  predicate Ascii(s: string) { forall i | 0 <= i < |s| :: s[i] < 128 as char }

  function BytesOf(s: string): (b: Bytes)
    requires Ascii(s)
    ensures |b| == |s| && forall i | 0 <= i < |s| :: b[i] == s[i] as int
  {
    seq(|s|, i requires 0 <= i < |s| => s[i] as int)
  }

  // ---------- The builder ----------

  /** The text a field may carry when written by the builder. */
  predicate Writable(f: Field) {
    && (f.Long? || f.Named? ==> |f.text| < 0x1_0000 && forall i | 0 <= i < |f.text| :: f.text[i] <= 0x7f)
    && (f.Named? ==> f.text != [])
  }

  /** What appending does: everything fits or nothing counts any more. */
  function Adding(before: Option<Bytes>, capacity: nat, f: Field): Option<Bytes> {
    if before.Some? && Writable(f) && |before.value| + |Encode(f)| <= capacity then Some(before.value + Encode(f)) else None
  }

  function AddingAll(capacity: nat, fs: seq<Field>): Option<Bytes> {
    if fs == [] then Some([]) else Adding(AddingAll(capacity, fs[..|fs| - 1]), capacity, fs[|fs| - 1])
  }

  predicate AllWritable(fs: seq<Field>) { forall i | 0 <= i < |fs| :: Writable(fs[i]) }

  lemma AllWritableAppend(fs: seq<Field>, f: Field)
    ensures AllWritable(fs + [f]) <==> AllWritable(fs) && Writable(f)
  {
    hide Writable;
    var all := fs + [f];
    assert all[|fs|] == f && forall i | 0 <= i < |fs| :: all[i] == fs[i];
  }

  lemma {:induction false} AddingAllFits(capacity: nat, fs: seq<Field>)
    ensures AddingAll(capacity, fs) == if AllWritable(fs) && |EncodeAll(fs)| <= capacity then Some(EncodeAll(fs)) else None
  {
    if fs != [] {
      hide Encode, EncodeAll, Writable, AllWritable;
      var front, last := fs[..|fs| - 1], fs[|fs| - 1];
      AddingAllFits(capacity, front);
      EncodeAllAppend(front, last);
      assert fs == front + [last];
      AllWritableAppend(front, last);
    }
  }

  class CanonicalBinaryBuilder {
    const output: array<byte>
    var size: nat
    var valid: bool
    /** What has been appended so far. */
    ghost var fields: seq<Field>

    ghost predicate Valid()
      reads this, output
    {
      size <= output.Length && State() == AddingAll(output.Length, fields)
    }

    ghost function State(): Option<Bytes>
      requires size <= output.Length
      reads this, output
    {
      if valid then Some(output[..size]) else None
    }

    constructor (output: array<byte>)
      ensures Valid() && fields == [] && this.output == output
    {
      this.output, size, valid, fields := output, 0, true, [];
      new;
      assert output[..0] == [];
    }

    /** Raw bytes; the caller accounts for the field they belong to. */
    method Put(value: Bytes)
      requires size <= output.Length
      modifies `size, `valid, output
      ensures size <= output.Length
      ensures State() == if old(State()).Some? && old(size) + |value| <= output.Length then Some(old(State()).value + value) else None
    {
      if !valid || |value| > output.Length - size {
        valid := false;
        return;
      }
      forall i | 0 <= i < |value| {
        output[size + i] := value[i];
      }
      ghost var before := old(output[..size]);
      size := size + |value|;
      assert output[..size] == before + value;
    }

    ghost method Account(f: Field)
      requires size <= output.Length && State() == Adding(AddingAll(output.Length, fields), output.Length, f)
      modifies `fields
      ensures Valid() && fields == old(fields) + [f]
    {
      assert (fields + [f])[..|fields|] == fields;
      fields := fields + [f];
    }

    method Append(value: Bytes)
      requires Valid()
      modifies this, output
      ensures Valid() && fields == old(fields) + [Raw(value)]
    {
      hide AddingAll;
      Put(value);
      Account(Raw(value));
    }

    method AppendU8(value: byte)
      requires Valid()
      modifies this, output
      ensures Valid() && fields == old(fields) + [Raw([value])]
    {
      Append([value]);
    }

    method AppendU16(value: u16)
      requires Valid()
      modifies this, output
      ensures Valid() && fields == old(fields) + [Raw(BigEndian(value, 2))]
    {
      Append(BigEndian(value, 2));
    }

    method AppendU32(value: u32)
      requires Valid()
      modifies this, output
      ensures Valid() && fields == old(fields) + [Raw(BigEndian(value, 4))]
    {
      Append(BigEndian(value, 4));
    }

    method AppendU64(value: u64)
      requires Valid()
      modifies this, output
      ensures Valid() && fields == old(fields) + [Raw(BigEndian(value, 8))]
    {
      Append(BigEndian(value, 8));
    }

    method AppendLpAscii(text: Bytes, allowEmpty: bool)
      requires Valid()
      modifies this, output
      ensures Valid() && fields == old(fields) + [if allowEmpty then Long(text) else Named(text)]
    {
      hide AddingAll, Bytes16;
      if valid {
        var index := 0;
        while index < |text| && text[index] <= 0x7f
          invariant 0 <= index <= |text| && forall i | 0 <= i < index :: text[i] <= 0x7f
        {
          index := index + 1;
        }
        if (!allowEmpty && text == []) || |text| > 0xffff || index < |text| {
          valid := false;
        } else {
          ghost var before := State();
          Put(Bytes16(|text|));
          Put(text);
          assert before.value + Bytes16(|text|) + text == before.value + Encode(Long(text));
        }
      }
      Account(if allowEmpty then Long(text) else Named(text));
    }

    method AppendOptional(value: Option<Bytes>)
      requires Valid()
      modifies this, output
      ensures Valid() && fields == old(fields) + [Optional(value)]
    {
      hide AddingAll;
      ghost var before := State();
      Put([if value.Some? then 1 else 0]);
      if value.Some? {
        Put(value.value);
        assert before.Some? ==> before.value + [1] + value.value == before.value + Encode(Optional(value));
      }
      Account(Optional(value));
    }
  }
}
