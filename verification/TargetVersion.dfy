/** Ordering of automatic Target versions (scripts/ota_contract_gate.py):
    which texts name a version core, and which are monotonic main builds. */
module TargetVersion {
  import opened Wrappers
  import opened Decimals

  /** One decimal number and the text after it. */
  function Number(s: string): Option<(nat, string)> {
    var n := Digits(s);
    if n == 0 then None else Some((Value(s[..n]), s[n..]))
  }

  datatype Core = Core(major: nat, minor: nat, patch: nat)

  predicate Less(a: Core, b: Core) {
    a.major < b.major
    || (a.major == b.major && (a.minor < b.minor || (a.minor == b.minor && a.patch < b.patch)))
  }

  /** `^([0-9]+)\.([0-9]+)\.([0-9]+)(?:[-+]|$)` */
  function CoreOf(version: string): Option<Core> {
    var major := Number(version);
    if major.None? || major.value.1 == "" || major.value.1[0] != '.' then None
    else
      var minor := Number(major.value.1[1..]);
      if minor.None? || minor.value.1 == "" || minor.value.1[0] != '.' then None
      else
        var patch := Number(minor.value.1[1..]);
        if patch.None? then None
        else
          var rest := patch.value.1;
          if rest == "" || rest == "\n" || rest[0] == '-' || rest[0] == '+'
          then Some(Core(major.value.0, minor.value.0, patch.value.0)) else None
  }

  predicate Hex(s: string) { forall c | c in s :: Digit(c) || 'a' <= c <= 'f' }

  /** `^2\.1\.([1-9][0-9]*)\+main\.g([0-9a-f]{7,40})$`: the digits of the sequence. */
  function AutoDigits(version: string): Option<string> {
    if |version| < 4 || version[..4] != "2.1." then None
    else
      var n := Digits(version[4..]);
      var rest := version[4 + n..];
      if n == 0 || version[4] == '0' || |rest| < 7 || rest[..7] != "+main.g" then None
      else if 7 <= |rest| - 7 <= 40 && Hex(rest[7..]) then Some(version[4..4 + n]) else None
  }

  lemma HexIs(s: string)
    ensures Hex(s) <==> forall i | 0 <= i < |s| :: '0' <= s[i] <= '9' || 'a' <= s[i] <= 'f'
  {
    assert forall i | 0 <= i < |s| :: s[i] in s;
  }

  /** A monotonic main build orders by its sequence under core 2.1. */
  lemma AutoHasCore(version: string)
    requires AutoDigits(version).Some?
    ensures var d := AutoDigits(version).value;
            && CoreOf(version) == Some(Core(2, 1, Value(d)))
  {
    var n := Digits(version[4..]);
    assert version[..4] == ['2', '.', '1', '.'];
    DigitsSplit(version, 1);
    assert version[..1] == ['2'];
    var s := version[1..][1..];
    assert s == version[2..];
    DigitsSplit(s, 1);
    assert s[..1] == ['1'];
    var t := s[1..][1..];
    assert t == version[4..];
    assert t[..n] == version[4..4 + n];
    assert t[n..] == version[4 + n..];
    assert Value("2") == 2 by { assert "2"[..0] == ""; }
    assert Value("1") == 1 by { assert "1"[..0] == ""; }
  }

  // ---------- The same in numbers ----------

  predicate Numeral(x: string) { x != "" && forall i | 0 <= i < |x| :: '0' <= x[i] <= '9' }

  /** Three numbers with dots between, then nothing, a sign, or a final newline. */
  ghost predicate Spelled(version: string, x: string, y: string, z: string, rest: string) {
    && version == x + "." + y + "." + z + rest && Numeral(x) && Numeral(y) && Numeral(z)
    && (rest == "" || rest == "\n" || rest[0] == '-' || rest[0] == '+')
  }

  /** The version core in numbers. */
  ghost predicate Versioned(version: string, a: nat, b: nat, c: nat) {
    exists x, y, z, rest :: Spelled(version, x, y, z, rest) && Value(x) == a && Value(y) == b && Value(z) == c
  }

  /** An automatic main version: its sequence, then the commit in hexadecimal. */
  ghost predicate Automatic(version: string, n: nat) {
    exists d, h :: Main(version, d, h) && Value(d) == n
  }

  ghost predicate Main(version: string, d: string, h: string) {
    && version == "2.1." + d + "+main.g" + h && Numeral(d) && d[0] != '0'
    && 7 <= |h| <= 40 && forall i | 0 <= i < |h| :: '0' <= h[i] <= '9' || 'a' <= h[i] <= 'f'
  }

  predicate Higher(a: nat, b: nat, c: nat, x: nat, y: nat, z: nat) { a < x || (a == x && (b < y || (b == y && c < z))) }

  lemma LessIs(p: Core, q: Core)
    ensures Less(p, q) <==> Higher(p.major, p.minor, p.patch, q.major, q.minor, q.patch)
  {
  }

  /** A number at the head of a text that goes on with something else. */
  lemma NumberReads(x: string, rest: string)
    requires Numeral(x) && (rest == "" || !Digit(rest[0]))
    ensures Number(x + rest) == Some((Value(x), rest))
  {
    var s := x + rest;
    if rest == "" {
      assert s == x;
      AllAreDigits(x);
    } else {
      DigitsSplit(s, |x|);
    }
    assert s[..|x|] == x && s[|x|..] == rest;
  }

  lemma {:induction false} AllAreDigits(x: string)
    requires forall i | 0 <= i < |x| :: Digit(x[i])
    ensures Digits(x) == |x|
  {
    if x != "" {
      AllAreDigits(x[1..]);
    }
  }

  lemma NumberIs(s: string) returns (x: string)
    requires Number(s).Some?
    ensures s == x + Number(s).value.1 && Numeral(x) && Value(x) == Number(s).value.0
  {
    x := s[..Digits(s)];
  }

  lemma CoreReads(version: string, x: string, y: string, z: string, rest: string)
    requires Spelled(version, x, y, z, rest)
    ensures CoreOf(version) == Some(Core(Value(x), Value(y), Value(z)))
  {
    hide Number, Value;
    assert version == x + ("." + (y + ("." + (z + rest))));
    NumberReads(x, "." + (y + ("." + (z + rest))));
    assert ("." + (y + ("." + (z + rest))))[1..] == y + ("." + (z + rest));
    NumberReads(y, "." + (z + rest));
    assert ("." + (z + rest))[1..] == z + rest;
    NumberReads(z, rest);
  }

  lemma CoreParts(version: string) returns (x: string, y: string, z: string, rest: string)
    requires CoreOf(version).Some?
    ensures Spelled(version, x, y, z, rest) && CoreOf(version).value == Core(Value(x), Value(y), Value(z))
  {
    hide Value, Number;
    x := NumberIs(version);
    var after := Number(version).value.1;
    y := NumberIs(after[1..]);
    var later := Number(after[1..]).value.1;
    z := NumberIs(later[1..]);
    rest := Number(later[1..]).value.1;
    Glued(version, x, after, y, later, z, rest);
  }

  lemma Glued(version: string, x: string, after: string, y: string, later: string, z: string, rest: string)
    requires version == x + after && after != "" && after[0] == '.' && after[1..] == y + later
    requires later != "" && later[0] == '.' && later[1..] == z + rest
    ensures version == x + "." + y + "." + z + rest
  {
    assert after == "." + after[1..] && later == "." + later[1..];
  }

  lemma CoreIs(version: string, a: nat, b: nat, c: nat)
    ensures CoreOf(version) == Some(Core(a, b, c)) <==> Versioned(version, a, b, c)
  {
    hide Value, CoreOf, Spelled;
    if x, y, z, rest :| Spelled(version, x, y, z, rest) && Value(x) == a && Value(y) == b && Value(z) == c {
      CoreReads(version, x, y, z, rest);
    }
    if CoreOf(version) == Some(Core(a, b, c)) {
      var x, y, z, rest := CoreParts(version);
    }
  }

  lemma AutomaticReads(version: string, d: string, h: string)
    requires Main(version, d, h)
    ensures AutoDigits(version) == Some(d)
  {
    assert version[4..] == d + ("+main.g" + h);
    DigitsSplit(version[4..], |d|);
    var rest := version[4 + |d|..];
    assert rest == "+main.g" + h;
    assert rest[..7] == "+main.g" && rest[7..] == h;
    assert version[4..4 + |d|] == d;
  }

  lemma AutomaticParts(version: string) returns (d: string, h: string)
    requires AutoDigits(version).Some?
    ensures Main(version, d, h) && AutoDigits(version) == Some(d)
  {
    var k := Digits(version[4..]);
    var rest := version[4 + k..];
    d, h := version[4..4 + k], rest[7..];
    assert version == version[..4] + d + (rest[..7] + h);
    forall i | 0 <= i < k ensures Digit(d[i]) {
      assert d[i] == version[4..][i];
    }
    assert forall i | 0 <= i < |h| :: h[i] in h;
  }

  lemma AutomaticIs(version: string, n: nat)
    ensures AutoDigits(version).Some? && Value(AutoDigits(version).value) == n <==> Automatic(version, n)
  {
    hide Value, AutoDigits, Main;
    if d, h :| Main(version, d, h) && Value(d) == n {
      AutomaticReads(version, d, h);
    }
    if AutoDigits(version).Some? && Value(AutoDigits(version).value) == n {
      var d, h := AutomaticParts(version);
    }
  }
}
