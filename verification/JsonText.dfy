/** JSON text: JSON.stringify on strings and numbers, as UTF-16 code units, and why it can be read back. */
module JsonText {

  /** A UTF-16 code unit; a JavaScript string is any sequence of them, paired surrogates or not. */
  type Unit = c: int | 0 <= c < 0x10000
  type Text = seq<Unit>

  const QUOTE: Unit := 0x22
  const COMMA: Unit := 0x2c
  const COLON: Unit := 0x3a
  const LEFT_BRACKET: Unit := 0x5b
  const BACKSLASH: Unit := 0x5c
  const RIGHT_BRACKET: Unit := 0x5d
  const LEFT_BRACE: Unit := 0x7b
  const RIGHT_BRACE: Unit := 0x7d

  // ----- Strings -----

  predicate IsHigh(c: Unit) {
    0xd800 <= c < 0xdc00
  }

  predicate IsLow(c: Unit) {
    0xdc00 <= c < 0xe000
  }

  function Hex(d: int): Unit
    requires 0 <= d < 16
  {
    if d < 10 then 0x30 + d else 0x57 + d
  }

  function UnicodeEscape(c: Unit): Text {
    [BACKSLASH, 0x75, Hex(c / 16 / 16 / 16), Hex(c / 16 / 16 % 16), Hex(c / 16 % 16), Hex(c % 16)]
  }

  function Escape(c: Unit): Text {
    if c == QUOTE then [BACKSLASH, QUOTE]
    else if c == BACKSLASH then [BACKSLASH, BACKSLASH]
    else if c == 8 then [BACKSLASH, 0x62]
    else if c == 9 then [BACKSLASH, 0x74]
    else if c == 10 then [BACKSLASH, 0x6e]
    else if c == 12 then [BACKSLASH, 0x66]
    else if c == 13 then [BACKSLASH, 0x72]
    else if c < 0x20 || IsHigh(c) || IsLow(c) then UnicodeEscape(c)
    else [c]
  }

  /** Whether unit `i` is half of a surrogate pair, which is written as it is. */
  predicate IsPaired(s: Text, i: nat)
    requires i < |s|
  {
    || (IsHigh(s[i]) && i + 1 < |s| && IsLow(s[i + 1]))
    || (IsLow(s[i]) && i > 0 && IsHigh(s[i - 1]))
  }

  function UnitText(s: Text, i: nat): Text
    requires i < |s|
  {
    if IsPaired(s, i) then [s[i]] else Escape(s[i])
  }

  function QuotedFrom(s: Text, i: nat): Text
    requires i <= |s|
    decreases |s| - i
  {
    if i == |s| then [QUOTE] else UnitText(s, i) + QuotedFrom(s, i + 1)
  }

  function Quote(s: Text): Text {
    [QUOTE] + QuotedFrom(s, 0)
  }

  // ----- Reading back -----

  lemma Cancel(a: Text, x: Text, b: Text, y: Text)
    requires a + x == b + y && |a| == |b|
    ensures a == b && x == y
  {
    assert a == (a + x)[..|a|] && b == (b + y)[..|b|];
    assert x == (a + x)[|a|..] && y == (b + y)[|b|..];
  }

  lemma CancelUnit(c: Unit, x: Text, d: Unit, y: Text)
    requires [c] + x == [d] + y
    ensures c == d && x == y
  {
    Cancel([c], x, [d], y);
    assert [c][0] == [d][0];
  }

  lemma HexInjective(c: Unit, d: Unit)
    requires UnicodeEscape(c) == UnicodeEscape(d)
    ensures c == d
  {
    var a, b := UnicodeEscape(c), UnicodeEscape(d);
    assert a[2] == b[2] && a[3] == b[3] && a[4] == b[4] && a[5] == b[5];
    DigitInjective(c / 16 / 16 / 16, d / 16 / 16 / 16);
    DigitInjective(c / 16 / 16 % 16, d / 16 / 16 % 16);
    DigitInjective(c / 16 % 16, d / 16 % 16);
    DigitInjective(c % 16, d % 16);
  }

  lemma DigitInjective(x: int, y: int)
    requires 0 <= x < 16 && 0 <= y < 16
    ensures Hex(x) == Hex(y) ==> x == y
  {
  }

  /** What one unit prints as tells where it ends. */
  predicate UnitCode(c: Unit, t: Text) {
    || (t == [c] && c != QUOTE && c != BACKSLASH)
    || (t == Escape(c) && |t| == 2)
    || t == UnicodeEscape(c)
  }

  lemma UnitTextCode(s: Text, i: nat)
    requires i < |s|
    ensures UnitCode(s[i], UnitText(s, i))
  {
  }

  lemma UnitCodeUnique(c: Unit, t: Text, x: Text, d: Unit, u: Text, y: Text)
    requires UnitCode(c, t) && UnitCode(d, u) && t + x == u + y
    ensures c == d && x == y
  {
    hide Hex;
    assert (t + x)[0] == t[0] && (u + y)[0] == u[0];
    if t[0] == BACKSLASH {
      assert |t| >= 2 && |u| >= 2;
      assert (t + x)[1] == t[1] && (u + y)[1] == u[1];
    }
    assert |t| == |u|;
    Cancel(t, x, u, y);
    if |t| == 6 {
      HexInjective(c, d);
    }
  }

  lemma QuotedSplit(s: Text, i: nat, r: Text)
    requires i < |s|
    ensures QuotedFrom(s, i) + r == UnitText(s, i) + (QuotedFrom(s, i + 1) + r)
    ensures |QuotedFrom(s, i) + r| > 0 && (QuotedFrom(s, i) + r)[0] != QUOTE
  {
    hide UnitText;
    UnitTextCode(s, i);
    var t, rest := UnitText(s, i), QuotedFrom(s, i + 1);
    assert (t + rest) + r == t + (rest + r);
    assert |t| > 0 && t[0] != QUOTE;
    assert (t + (rest + r))[0] == t[0];
  }

  /** A quoted string followed by anything determines the string and what follows. */
  lemma {:induction false} QuotedUnique(s: Text, i: nat, r: Text, s': Text, i': nat, r': Text)
    requires i <= |s| && i' <= |s'| && QuotedFrom(s, i) + r == QuotedFrom(s', i') + r'
    ensures s[i..] == s'[i'..] && r == r'
    decreases |s| - i
  {
    hide UnitText, UnitCode;
    if i < |s| {
      QuotedSplit(s, i, r);
    }
    if i' < |s'| {
      QuotedSplit(s', i', r');
    }
    if i == |s| || i' == |s'| {
      assert i == |s| && i' == |s'| by {
        assert i == |s| ==> (QuotedFrom(s, i) + r)[0] == QUOTE;
        assert i' == |s'| ==> (QuotedFrom(s', i') + r')[0] == QUOTE;
      }
      Cancel([QUOTE], r, [QUOTE], r');
    } else {
      UnitTextCode(s, i);
      UnitTextCode(s', i');
      UnitCodeUnique(s[i], UnitText(s, i), QuotedFrom(s, i + 1) + r, s'[i'], UnitText(s', i'), QuotedFrom(s', i' + 1) + r');
      QuotedUnique(s, i + 1, r, s', i' + 1, r');
      ConsEqual(s, i, s', i');
    }
  }

  lemma ConsEqual(s: Text, i: nat, s': Text, i': nat)
    requires i < |s| && i' < |s'| && s[i] == s'[i'] && s[i + 1..] == s'[i' + 1..]
    ensures s[i..] == s'[i'..]
  {
    assert s[i..] == [s[i]] + s[i + 1..] && s'[i'..] == [s'[i']] + s'[i' + 1..];
  }

  lemma QuoteUnique(s: Text, r: Text, s': Text, r': Text)
    requires Quote(s) + r == Quote(s') + r'
    ensures s == s' && r == r'
  {
    hide QuotedFrom;
    assert Quote(s) + r == [QUOTE] + (QuotedFrom(s, 0) + r);
    assert Quote(s') + r' == [QUOTE] + (QuotedFrom(s', 0) + r');
    CancelUnit(QUOTE, QuotedFrom(s, 0) + r, QUOTE, QuotedFrom(s', 0) + r');
    QuotedUnique(s, 0, r, s', 0, r');
    assert s[0..] == s && s'[0..] == s';
  }

  // ----- Numbers -----

  predicate IsDigit(c: Unit) {
    0x30 <= c <= 0x39
  }

  /** A digit, a sign, the point or the exponent mark. */
  predicate IsNumberUnit(c: Unit) {
    IsDigit(c) || c == 0x2b || c == 0x2d || c == 0x2e || c == 0x65
  }

  predicate IsNumeral(t: Text) {
    |t| > 0 && (IsDigit(t[0]) || t[0] == 0x2d) && forall i | 0 <= i < |t| :: IsNumberUnit(t[i])
  }

  /** What may follow a value: the end, a comma or a closing bracket. */
  predicate Delimited(r: Text) {
    r == [] || r[0] == COMMA || r[0] == RIGHT_BRACKET || r[0] == RIGHT_BRACE
  }

  lemma NumeralNoLonger(t: Text, r: Text, t': Text, r': Text)
    requires IsNumeral(t') && Delimited(r) && t + r == t' + r'
    ensures |t'| <= |t|
  {
    assert forall i | 0 <= i < |t'| :: t'[i] == (t' + r')[i];
    assert |t| < |t + r| ==> (t + r)[|t|] == r[0];
  }

  lemma NumeralUnique(t: Text, r: Text, t': Text, r': Text)
    requires IsNumeral(t) && IsNumeral(t') && Delimited(r) && Delimited(r') && t + r == t' + r'
    ensures t == t' && r == r'
  {
    NumeralNoLonger(t, r, t', r');
    NumeralNoLonger(t', r', t, r);
    Cancel(t, r, t', r');
  }
}
