/** JSON string literals as `JSON.stringify` writes them (section 7 of RFC 8259,
    lone surrogates escaped), and a reader that gets the text back. */
module JsonString {
  import opened Options
  import opened JsText
  import opened Sequences

  datatype Read = Read(text: Text, rest: Text)

  const QUOTE: CodeUnit := 34
  const BACKSLASH: CodeUnit := 92

  predicate High(u: CodeUnit) { 0xD800 <= u <= 0xDBFF }

  predicate Low(u: CodeUnit) { 0xDC00 <= u <= 0xDFFF }

  function HexDigit(n: int): CodeUnit
    requires 0 <= n < 16
  {
    if n < 10 then 48 + n else 87 + n
  }

  function Unicode(u: CodeUnit): Text {
    [BACKSLASH, 117, HexDigit(u / 4096), HexDigit(u / 256 % 16), HexDigit(u / 16 % 16), HexDigit(u % 16)]
  }

  /** The letter of a two-character escape. */
  function Short(u: CodeUnit): Option<CodeUnit> {
    match u
    case 34 => Some(34)
    case 92 => Some(92)
    case 8 => Some(98)
    case 12 => Some(102)
    case 10 => Some(110)
    case 13 => Some(114)
    case 9 => Some(116)
    case _ => None
  }

  function EscapeUnit(u: CodeUnit): Text {
    if Short(u).Some? then [BACKSLASH, Short(u).value]
    else if u < 32 || High(u) || Low(u) then Unicode(u)
    else [u]
  }

  function Escape(s: Text): Text {
    if s == [] then []
    else if |s| >= 2 && High(s[0]) && Low(s[1]) then [s[0], s[1]] + Escape(s[2..])
    else EscapeUnit(s[0]) + Escape(s[1..])
  }

  /** `JSON.stringify` of a string. */
  function Quote(s: Text): Text { [QUOTE] + Escape(s) + [QUOTE] }

  // ---------- reading back ----------

  function HexValue(u: CodeUnit): int {
    if 48 <= u <= 57 then u - 48 else if 97 <= u <= 102 then u - 87 else -1
  }

  function Long(u: CodeUnit): Option<CodeUnit> {
    match u
    case 34 => Some(34)
    case 92 => Some(92)
    case 98 => Some(8)
    case 102 => Some(12)
    case 110 => Some(10)
    case 114 => Some(13)
    case 116 => Some(9)
    case _ => None
  }

  function HexUnit(t: Text): Option<CodeUnit>
    requires |t| == 4
  {
    if HexValue(t[0]) < 0 || HexValue(t[1]) < 0 || HexValue(t[2]) < 0 || HexValue(t[3]) < 0 then None
    else Some(HexValue(t[0]) * 4096 + HexValue(t[1]) * 256 + HexValue(t[2]) * 16 + HexValue(t[3]))
  }

  function Push(u: CodeUnit, r: Option<Read>): Option<Read> {
    if r.None? then None else Some(Read([u] + r.value.text, r.value.rest))
  }

  /** The characters up to the closing quote, and what follows it. */
  function ReadUntilQuote(t: Text): Option<Read>
    decreases |t|
  {
    if t == [] then None
    else if t[0] == QUOTE then Some(Read([], t[1..]))
    else if t[0] != BACKSLASH then Push(t[0], ReadUntilQuote(t[1..]))
    else if |t| < 2 then None
    else if t[1] == 117 then
      if |t| < 6 || HexUnit(t[2..6]).None? then None
      else Push(HexUnit(t[2..6]).value, ReadUntilQuote(t[6..]))
    else if Long(t[1]).None? then None
    else Push(Long(t[1]).value, ReadUntilQuote(t[2..]))
  }

  lemma HexDigitValue(n: int)
    requires 0 <= n < 16
    ensures HexValue(HexDigit(n)) == n
  {
  }

  lemma HexDigits(u: int)
    requires 0 <= u < 0x10000
    ensures 0 <= u / 4096 < 16
    ensures u == u / 4096 * 4096 + u / 256 % 16 * 256 + u / 16 % 16 * 16 + u % 16
  {
    var a, b := u / 16, u / 256;
    assert u == a * 16 + u % 16;
    assert a == b * 16 + a % 16;
    assert b == u / 4096 * 16 + b % 16;
  }

  lemma HexRoundTrip(u: CodeUnit)
    ensures HexUnit(Unicode(u)[2..6]) == Some(u)
  {
    HexDigits(u);
    HexDigitValue(u / 4096);
    HexDigitValue(u / 256 % 16);
    HexDigitValue(u / 16 % 16);
    HexDigitValue(u % 16);
    hide HexDigit, HexValue;
    assert Unicode(u)[2..6] == [HexDigit(u / 4096), HexDigit(u / 256 % 16), HexDigit(u / 16 % 16), HexDigit(u % 16)];
  }

  /** One escaped unit is read back as that unit. */
  lemma ReadEscapedUnit(u: CodeUnit, rest: Text)
    ensures ReadUntilQuote(EscapeUnit(u) + rest) == Push(u, ReadUntilQuote(rest))
  {
    var t := EscapeUnit(u) + rest;
    if Short(u).Some? {
      assert t[2..] == rest;
    } else if u < 32 || High(u) || Low(u) {
      HexRoundTrip(u);
      assert t[2..6] == Unicode(u)[2..6] && t[6..] == rest;
    } else {
      assert t[1..] == rest;
    }
  }

  lemma ReadPlainUnit(u: CodeUnit, rest: Text)
    requires u != QUOTE && u != BACKSLASH
    ensures ReadUntilQuote([u] + rest) == Push(u, ReadUntilQuote(rest))
  {
    assert ([u] + rest)[1..] == rest;
  }

  lemma ReadClosing(rest: Text)
    ensures ReadUntilQuote([QUOTE] + rest) == Some(Read([], rest))
  {
    assert ([QUOTE] + rest)[1..] == rest;
  }

  /** A quoted string is read back, with exactly the text that followed it. */
  lemma {:induction false} ReadQuoted(s: Text, rest: Text)
    ensures ReadUntilQuote(Escape(s) + ([QUOTE] + rest)) == Some(Read(s, rest))
    decreases |s|
  {
    hide EscapeUnit, ReadUntilQuote;
    var close := [QUOTE] + rest;
    if s == [] {
      assert Escape(s) + close == close;
      ReadClosing(rest);
    } else if |s| >= 2 && High(s[0]) && Low(s[1]) {
      var tail := Escape(s[2..]) + close;
      ReadQuoted(s[2..], rest);
      Associate([s[0], s[1]], Escape(s[2..]), close);
      assert [s[0], s[1]] + tail == [s[0]] + ([s[1]] + tail);
      ReadPlainUnit(s[0], [s[1]] + tail);
      ReadPlainUnit(s[1], tail);
      assert s == [s[0]] + ([s[1]] + s[2..]);
    } else {
      ReadQuoted(s[1..], rest);
      Associate(EscapeUnit(s[0]), Escape(s[1..]), close);
      ReadEscapedUnit(s[0], Escape(s[1..]) + close);
      assert s == [s[0]] + s[1..];
    }
  }

  /** Quoted strings are told apart whatever follows them. */
  lemma QuoteSeparates(a: Text, b: Text, x: Text, y: Text)
    requires Quote(a) + x == Quote(b) + y
    ensures a == b && x == y
  {
    assert (Quote(a) + x)[1..] == Escape(a) + ([QUOTE] + x);
    assert (Quote(b) + y)[1..] == Escape(b) + ([QUOTE] + y);
    ReadQuoted(a, x);
    ReadQuoted(b, y);
  }
}
