/**
 A reader of compact JSON, section 2 of RFC 8259 without insignificant white space, and what it makes of
 canonical text: the value that was printed, with its keys in order.
 */
module JsonReader {
  import opened JsonText
  import opened CanonicalJson
  import opened CanonicalTies

  datatype Reading<T> = Got(value: T, rest: Text) | Bad

  // ----- Strings -----

  function HexValue(c: Unit): (d: int)
    ensures -1 <= d < 16
  {
    if 0x30 <= c <= 0x39 then c - 0x30
    else if 0x61 <= c <= 0x66 then c - 0x61 + 10
    else if 0x41 <= c <= 0x46 then c - 0x41 + 10
    else -1
  }

  /** What a backslash and one more unit stand for. */
  function ShortEscape(c: Unit): int {
    match c
    case 0x22 => 0x22
    case 0x5c => 0x5c
    case 0x2f => 0x2f
    case 0x62 => 0x08
    case 0x66 => 0x0c
    case 0x6e => 0x0a
    case 0x72 => 0x0d
    case 0x74 => 0x09
    case _ => -1
  }

  /** One unit inside a string, plain or escaped. */
  function ReadUnit(t: Text): (r: Reading<Unit>)
    ensures r.Got? ==> |r.rest| < |t|
  {
    if |t| == 0 || t[0] == QUOTE || t[0] < 0x20 then Bad
    else if t[0] != BACKSLASH then Got(t[0], t[1..])
    else if |t| < 2 then Bad
    else if t[1] != 0x75 then (if ShortEscape(t[1]) < 0 then Bad else Got(ShortEscape(t[1]), t[2..]))
    else if |t| < 6 then Bad
    else
      var a, b, c, d := HexValue(t[2]), HexValue(t[3]), HexValue(t[4]), HexValue(t[5]);
      if a < 0 || b < 0 || c < 0 || d < 0 then Bad else Got(((a * 16 + b) * 16 + c) * 16 + d, t[6..])
  }

  /** The rest of a string whose opening quote has been read. */
  function ReadString(t: Text): (r: Reading<Text>)
    ensures r.Got? ==> |r.rest| < |t|
    decreases |t|
  {
    if t == [] then Bad
    else if t[0] == QUOTE then Got([], t[1..])
    else
      match ReadUnit(t)
      case Bad => Bad
      case Got(c, rest) =>
        match ReadString(rest)
        case Bad => Bad
        case Got(s, rest') => Got([c] + s, rest')
  }

  lemma HexBack(d: int)
    requires 0 <= d < 16
    ensures HexValue(Hex(d)) == d
  {
  }

  lemma HexDigits(c: Unit)
    ensures ((c / 16 / 16 / 16 * 16 + c / 16 / 16 % 16) * 16 + c / 16 % 16) * 16 + c % 16 == c
    ensures 0 <= c / 16 / 16 / 16 < 16
  {
  }

  lemma UnicodeBack(c: Unit, r: Text)
    ensures ReadUnit(UnicodeEscape(c) + r) == Got(c, r)
  {
    hide Hex, HexValue;
    HexDigits(c);
    HexBack(c / 16 / 16 / 16);
    HexBack(c / 16 / 16 % 16);
    HexBack(c / 16 % 16);
    HexBack(c % 16);
    assert (UnicodeEscape(c) + r)[6..] == r;
  }

  lemma UnitBack(s: Text, i: nat, r: Text)
    requires i < |s|
    ensures ReadUnit(UnitText(s, i) + r) == Got(s[i], r)
  {
    var t := UnitText(s, i);
    if t == UnicodeEscape(s[i]) {
      UnicodeBack(s[i], r);
    } else if |t| == 2 {
      assert (t + r)[2..] == r;
    } else {
      assert (t + r)[1..] == r;
    }
  }

  lemma {:induction false} StringBack(s: Text, i: nat, r: Text)
    requires i <= |s|
    ensures ReadString(QuotedFrom(s, i) + r) == Got(s[i..], r)
    decreases |s| - i
  {
    hide UnitText, ReadUnit;
    if i == |s| {
      assert ([QUOTE] + r)[1..] == r;
    } else {
      QuotedSplit(s, i, r);
      UnitBack(s, i, QuotedFrom(s, i + 1) + r);
      StringBack(s, i + 1, r);
      assert [s[i]] + s[i + 1..] == s[i..];
    }
  }

  // ----- Numbers -----

  /** How many units of a number the text starts with. */
  function NumberLength(t: Text): (n: nat)
    ensures n <= |t| && (n < |t| ==> !IsNumberUnit(t[n])) && forall i | 0 <= i < n :: IsNumberUnit(t[i])
  {
    if t == [] || !IsNumberUnit(t[0]) then 0 else 1 + NumberLength(t[1..])
  }

  function ReadNumber(t: Text): (r: Reading<Json>)
    ensures r.Got? ==> |r.rest| < |t|
  {
    var n := NumberLength(t);
    if IsNumeral(t[..n]) then Got(Number(t[..n]), t[n..]) else Bad
  }

  lemma NumberBack(t: Text, r: Text)
    requires IsNumeral(t) && Delimited(r)
    ensures ReadNumber(t + r) == Got(Number(t), r)
  {
    var n := NumberLength(t + r);
    assert forall i | 0 <= i < |t| :: (t + r)[i] == t[i];
    assert |t| < |t + r| ==> (t + r)[|t|] == r[0];
    assert n == |t|;
    assert (t + r)[..n] == t && (t + r)[n..] == r;
  }

  // ----- Values -----

  function ReadValue(t: Text): (r: Reading<Json>)
    ensures r.Got? ==> |r.rest| < |t|
    decreases |t|, 1
  {
    if t == [] then Bad
    else if t[0] == QUOTE then
      (match ReadString(t[1..]) case Bad => Bad case Got(s, rest) => Got(String(s), rest))
    else if t[0] == LEFT_BRACKET then
      if |t| > 1 && t[1] == RIGHT_BRACKET then Got(Array([]), t[2..])
      else (match ReadItems(t[1..]) case Bad => Bad case Got(items, rest) => Got(Array(items), rest))
    else if t[0] == LEFT_BRACE then
      if |t| > 1 && t[1] == RIGHT_BRACE then Got(Object([]), t[2..])
      else (match ReadMembers(t[1..]) case Bad => Bad case Got(members, rest) => Got(Object(members), rest))
    else if [0x6e, 0x75, 0x6c, 0x6c] <= t then Got(Null, t[4..])
    else if [0x74, 0x72, 0x75, 0x65] <= t then Got(Bool(true), t[4..])
    else if [0x66, 0x61, 0x6c, 0x73, 0x65] <= t then Got(Bool(false), t[5..])
    else ReadNumber(t)
  }

  /** One or more values, with commas between them, and the closing bracket. */
  function ReadItems(t: Text): (r: Reading<seq<Json>>)
    ensures r.Got? ==> |r.rest| < |t|
    decreases |t|, 2
  {
    match ReadValue(t)
    case Bad => Bad
    case Got(v, rest) =>
      if rest == [] then Bad
      else if rest[0] == RIGHT_BRACKET then Got([v], rest[1..])
      else if rest[0] != COMMA then Bad
      else (match ReadItems(rest[1..]) case Bad => Bad case Got(vs, rest') => Got([v] + vs, rest'))
  }

  /** One or more members, with commas between them, and the closing brace. */
  function ReadMembers(t: Text): (r: Reading<seq<Member>>)
    ensures r.Got? ==> |r.rest| < |t|
    decreases |t|, 2
  {
    match ReadMember(t)
    case Bad => Bad
    case Got(m, rest) =>
      if rest == [] then Bad
      else if rest[0] == RIGHT_BRACE then Got([m], rest[1..])
      else if rest[0] != COMMA then Bad
      else (match ReadMembers(rest[1..]) case Bad => Bad case Got(ms, rest') => Got([m] + ms, rest'))
  }

  /** A quoted key, a colon and a value. */
  function ReadMember(t: Text): (r: Reading<Member>)
    ensures r.Got? ==> |r.rest| < |t|
    decreases |t|, 1
  {
    if t == [] || t[0] != QUOTE then Bad
    else
      match ReadString(t[1..])
      case Bad => Bad
      case Got(key, rest) =>
        if rest == [] || rest[0] != COLON then Bad
        else (match ReadValue(rest[1..]) case Bad => Bad case Got(v, rest') => Got(Member(key, v), rest'))
  }

  // ----- What canonical text reads as -----

  /** The value as it is printed: undefined is null or left out, and members come in key order. */
  function Canon(v: Json, cmp: Comparison): Json {
    match v
    case Undefined => Null
    case Array(items) => Array(seq(|items|, i requires 0 <= i < |items| => Canon(items[i], cmp)))
    case Object(members) =>
      var ordered := Ordered(members, cmp);
      Object(seq(|ordered|, i requires 0 <= i < |ordered| =>
                   assert ordered[i] in members;
                   Member(ordered[i].key, Canon(ordered[i].value, cmp))))
    case _ => v
  }

  function CanonItems(items: seq<Json>, cmp: Comparison): (r: seq<Json>)
    ensures |r| == |items| && forall i | 0 <= i < |r| :: r[i] == Canon(items[i], cmp)
  {
    seq(|items|, i requires 0 <= i < |items| => Canon(items[i], cmp))
  }

  function CanonMembers(ordered: seq<Member>, cmp: Comparison): (r: seq<Member>)
    ensures |r| == |ordered| && forall i | 0 <= i < |r| :: r[i] == Member(ordered[i].key, Canon(ordered[i].value, cmp))
  {
    seq(|ordered|, i requires 0 <= i < |ordered| => Member(ordered[i].key, Canon(ordered[i].value, cmp)))
  }

  lemma CanonArray(v: Json, cmp: Comparison)
    requires v.Array?
    ensures Canon(v, cmp) == Array(CanonItems(v.items, cmp))
  {
    var items := v.items;
    assert seq(|items|, i requires 0 <= i < |items| => Canon(items[i], cmp)) == CanonItems(items, cmp);
  }

  lemma CanonObject(v: Json, cmp: Comparison)
    requires v.Object?
    ensures Canon(v, cmp) == Object(CanonMembers(Ordered(v.members, cmp), cmp))
  {
    var ordered := Ordered(v.members, cmp);
    assert seq(|ordered|, i requires 0 <= i < |ordered| => Member(ordered[i].key, Canon(ordered[i].value, cmp)))
        == CanonMembers(ordered, cmp);
  }

  /** Canonical text, with anything after it that may follow a value, reads as the printed value and that rest. */
  lemma {:induction false} ValueBack(v: Json, cmp: Comparison, r: Text)
    requires WellFormed(v) && Delimited(r)
    ensures ReadValue(Print(v, cmp) + r) == Got(Canon(v, cmp), r)
    decreases v, 2, 0
  {
    match v
    case Array(_) => ArrayBack(v, cmp, r);
    case Object(_) => ObjectBack(v, cmp, r);
    case _ => ScalarBack(v, cmp, r);
  }

  lemma {:induction false} ScalarBack(v: Json, cmp: Comparison, r: Text)
    requires WellFormed(v) && Delimited(r) && !v.Array? && !v.Object?
    ensures ReadValue(Print(v, cmp) + r) == Got(Canon(v, cmp), r)
  {
    hide ReadNumber, ReadString, QuotedFrom, ReadItems, ReadMembers;
    var t := Print(v, cmp);
    if v.Number? {
      NumberBack(v.numeral, r);
      assert (t + r)[0] == v.numeral[0];
    } else if v.String? {
      StringBack(v.text, 0, r);
      assert (t + r)[1..] == QuotedFrom(v.text, 0) + r;
      assert v.text[0..] == v.text;
    } else {
      assert (t + r)[..|t|] == t && (t + r)[|t|..] == r;
      assert (t + r)[0] == t[0];
    }
  }

  lemma {:induction false} ArrayBack(v: Json, cmp: Comparison, r: Text)
    requires WellFormed(v) && v.Array?
    ensures ReadValue(Print(v, cmp) + r) == Got(Canon(v, cmp), r)
    decreases v, 1, 0
  {
    hide Print, Canon, ReadItems, ReadMembers, JoinFrom, WellFormed;
    var texts := ItemTexts(v.items, cmp);
    PrintArray(v, cmp);
    CanonArray(v, cmp);
    var x := JoinFrom(texts, 0) + ([RIGHT_BRACKET] + r);
    Opened(LEFT_BRACKET, JoinFrom(texts, 0), RIGHT_BRACKET, r);
    ItemsWellFormed(v, cmp);
    JoinHead(texts, 0, RIGHT_BRACKET, r);
    if texts != [] {
      JoinSplit(texts, 0, [RIGHT_BRACKET] + r);
      assert [] + (texts[0] + (JoinFrom(texts, 1) + ([RIGHT_BRACKET] + r))) == texts[0] + (JoinFrom(texts, 1) + ([RIGHT_BRACKET] + r));
      ItemsBack(v, cmp, 0, r);
      assert CanonItems(v.items, cmp)[0..] == CanonItems(v.items, cmp);
    } else {
      assert CanonItems(v.items, cmp) == [];
    }
  }

  lemma Opened(open: Unit, x: Text, close: Unit, r: Text)
    ensures var t := [open] + x + [close] + r;
            t == [open] + (x + ([close] + r)) && t[0] == open && t[1..] == x + ([close] + r)
            && |t| > 1 && t[1] == (x + ([close] + r))[0] && (x == [] ==> t[2..] == r)
  {
  }

  /** No item is empty or starts with what would close the list. */
  lemma {:induction false} ItemsWellFormed(v: Json, cmp: Comparison)
    requires WellFormed(v) && v.Array?
    ensures forall i | 0 <= i < |v.items| :: WellFormed(v.items[i])
    ensures var texts := ItemTexts(v.items, cmp);
            forall i | 0 <= i < |texts| :: |texts[i]| > 0 && texts[i][0] != RIGHT_BRACKET
  {
    hide Print;
    forall i | 0 <= i < |v.items| ensures |Print(v.items[i], cmp)| > 0 && Print(v.items[i], cmp)[0] != RIGHT_BRACKET {
      Head(v.items[i], cmp);
    }
  }

  lemma {:induction false} ItemsBack(v: Json, cmp: Comparison, i: nat, r: Text)
    requires WellFormed(v) && v.Array? && i < |v.items|
    ensures var texts := ItemTexts(v.items, cmp);
            ReadItems(texts[i] + (JoinFrom(texts, i + 1) + ([RIGHT_BRACKET] + r))) == Got(CanonItems(v.items, cmp)[i..], r)
    decreases v, 0, |v.items| - i
  {
    hide Print, Canon, ReadValue, ReadMembers, JoinFrom, WellFormed;
    var texts, canon := ItemTexts(v.items, cmp), CanonItems(v.items, cmp);
    var rest := JoinFrom(texts, i + 1) + ([RIGHT_BRACKET] + r);
    ItemsWellFormed(v, cmp);
    JoinDelimited(texts, i + 1, RIGHT_BRACKET, r);
    ValueBack(v.items[i], cmp, rest);
    JoinHead(texts, i + 1, RIGHT_BRACKET, r);
    assert canon[i..] == [canon[i]] + canon[i + 1..];
    if i + 1 < |texts| {
      JoinSplit(texts, i + 1, [RIGHT_BRACKET] + r);
      assert rest[1..] == texts[i + 1] + (JoinFrom(texts, i + 2) + ([RIGHT_BRACKET] + r));
      ItemsBack(v, cmp, i + 1, r);
    } else {
      assert rest[1..] == r;
      assert canon[i..] == [canon[i]];
    }
  }

  lemma {:induction false} ObjectBack(v: Json, cmp: Comparison, r: Text)
    requires WellFormed(v) && v.Object?
    ensures ReadValue(Print(v, cmp) + r) == Got(Canon(v, cmp), r)
    decreases v, 1, 0
  {
    hide Print, Canon, ReadItems, ReadMembers, JoinFrom, WellFormed, Ordered, Quote;
    var ordered := Ordered(v.members, cmp);
    var texts := MemberTexts(ordered, cmp);
    PrintObject(v, cmp);
    CanonObject(v, cmp);
    var x := JoinFrom(texts, 0) + ([RIGHT_BRACE] + r);
    Opened(LEFT_BRACE, JoinFrom(texts, 0), RIGHT_BRACE, r);
    MemberHeads(ordered, cmp);
    JoinHead(texts, 0, RIGHT_BRACE, r);
    if texts != [] {
      JoinSplit(texts, 0, [RIGHT_BRACE] + r);
      assert [] + (texts[0] + (JoinFrom(texts, 1) + ([RIGHT_BRACE] + r))) == texts[0] + (JoinFrom(texts, 1) + ([RIGHT_BRACE] + r));
      MembersBack(v, cmp, 0, r);
      assert CanonMembers(ordered, cmp)[0..] == CanonMembers(ordered, cmp);
    } else {
      assert CanonMembers(ordered, cmp) == [];
    }
  }

  lemma MemberHeads(ordered: seq<Member>, cmp: Comparison)
    ensures var texts := MemberTexts(ordered, cmp);
            forall i | 0 <= i < |texts| :: |texts[i]| > 0 && texts[i][0] == QUOTE
  {
    hide Print, QuotedFrom;
  }

  lemma {:induction false} MemberBack(m: Member, cmp: Comparison, rest: Text)
    requires ReadValue(Print(m.value, cmp) + rest) == Got(Canon(m.value, cmp), rest)
    ensures ReadMember(Quote(m.key) + [COLON] + Print(m.value, cmp) + rest) == Got(Member(m.key, Canon(m.value, cmp)), rest)
  {
    hide Print, Canon, ReadValue, ReadString, QuotedFrom;
    var p := Print(m.value, cmp);
    var after := [COLON] + (p + rest);
    var t := Quote(m.key) + [COLON] + p + rest;
    assert t == [QUOTE] + (QuotedFrom(m.key, 0) + after);
    assert t[1..] == QuotedFrom(m.key, 0) + after;
    StringBack(m.key, 0, after);
    assert m.key[0..] == m.key;
    assert after[1..] == p + rest;
  }

  lemma {:induction false} MemberOf(v: Json, cmp: Comparison, i: nat)
    requires WellFormed(v) && v.Object? && i < |Ordered(v.members, cmp)|
    ensures var m := Ordered(v.members, cmp)[i]; m in v.members && WellFormed(m.value)
  {
    hide Ordered;
    var j := FromOrdered(v.members, cmp, i);
  }

  lemma {:induction false} MembersBack(v: Json, cmp: Comparison, i: nat, r: Text)
    requires WellFormed(v) && v.Object? && i < |Ordered(v.members, cmp)|
    ensures var ordered := Ordered(v.members, cmp);
            var texts := MemberTexts(ordered, cmp);
            ReadMembers(texts[i] + (JoinFrom(texts, i + 1) + ([RIGHT_BRACE] + r))) == Got(CanonMembers(ordered, cmp)[i..], r)
    decreases v, 0, |Ordered(v.members, cmp)| - i
  {
    hide Print, Canon, ReadValue, ReadItems, ReadMember, JoinFrom, WellFormed, Ordered, Quote;
    var ordered := Ordered(v.members, cmp);
    var texts, canon := MemberTexts(ordered, cmp), CanonMembers(ordered, cmp);
    var rest := JoinFrom(texts, i + 1) + ([RIGHT_BRACE] + r);
    MemberHeads(ordered, cmp);
    JoinDelimited(texts, i + 1, RIGHT_BRACE, r);
    MemberOf(v, cmp, i);
    ValueBack(ordered[i].value, cmp, rest);
    MemberBack(ordered[i], cmp, rest);
    JoinHead(texts, i + 1, RIGHT_BRACE, r);
    assert canon[i..] == [canon[i]] + canon[i + 1..];
    if i + 1 < |texts| {
      JoinSplit(texts, i + 1, [RIGHT_BRACE] + r);
      assert rest[1..] == texts[i + 1] + (JoinFrom(texts, i + 2) + ([RIGHT_BRACE] + r));
      MembersBack(v, cmp, i + 1, r);
    } else {
      assert rest[1..] == r;
      assert canon[i..] == [canon[i]];
    }
  }

  // ----- The printed value is the given one, in key order -----

  lemma {:induction false} CanonSame(v: Json, cmp: Comparison)
    ensures Same(v, Canon(v, cmp)) && !Canon(v, cmp).Undefined?
    decreases v
  {
    hide HasPartner, HasNamesake, Ordered;
    match v
    case Array(items) =>
      CanonArray(v, cmp);
      hide Canon;
      forall i | 0 <= i < |items| ensures Same(items[i], Canon(items[i], cmp)) {
        CanonSame(items[i], cmp);
      }
    case Object(members) =>
      CanonObject(v, cmp);
      hide Canon;
      var ordered := Ordered(members, cmp);
      var canon := CanonMembers(ordered, cmp);
      forall i | 0 <= i < |members| && !members[i].value.Undefined? ensures HasPartner(members[i], canon) {
        var k := InOrdered(members, cmp, i);
        CanonSame(members[i].value, cmp);
        IsPartner(members[i], canon, k);
      }
      forall k | 0 <= k < |canon| && !canon[k].value.Undefined? ensures HasNamesake(canon[k].key, members) {
        var i := FromOrdered(members, cmp, k);
        IsNamesake(canon[k].key, members, i);
      }
    case _ =>
  }

  /** No undefined anywhere, and in every object the keys come in the order of the comparison. */
  ghost predicate InKeyOrder(v: Json, cmp: Comparison) {
    match v
    case Undefined => false
    case Array(items) => forall i | 0 <= i < |items| :: InKeyOrder(items[i], cmp)
    case Object(members) =>
      && (forall i, j | 0 <= i < j < |members| :: cmp(members[i].key, members[j].key) <= 0)
      && (forall i | 0 <= i < |members| :: InKeyOrder(members[i].value, cmp))
    case _ => true
  }

  lemma {:induction false} CanonInOrder(v: Json, cmp: Comparison)
    requires Consistent(cmp)
    ensures InKeyOrder(Canon(v, cmp), cmp)
    decreases v
  {
    hide Ordered, Consistent;
    match v
    case Array(items) =>
      CanonArray(v, cmp);
      hide Canon;
      forall i | 0 <= i < |items| ensures InKeyOrder(Canon(items[i], cmp), cmp) {
        CanonInOrder(items[i], cmp);
      }
    case Object(members) =>
      CanonObject(v, cmp);
      hide Canon;
      OrderedSorted(members, cmp);
      var ordered := Ordered(members, cmp);
      forall k | 0 <= k < |ordered| ensures InKeyOrder(Canon(ordered[k].value, cmp), cmp) {
        var i := FromOrdered(members, cmp, k);
        CanonInOrder(members[i].value, cmp);
      }
    case _ =>
  }

  /**
   Canonical text is JSON: read back, it gives a value equal to the one printed up to member order, with no
   undefined in it and every object's keys in order.
   */
  lemma {:induction false} CanonicalTextReadsBack(v: Json, cmp: Comparison)
    requires WellFormed(v) && Consistent(cmp)
    ensures var r := ReadValue(Print(v, cmp));
            r.Got? && r.rest == [] && Same(v, r.value) && InKeyOrder(r.value, cmp)
  {
    hide Print, Canon, ReadValue, WellFormed, Consistent, Same, InKeyOrder;
    ValueBack(v, cmp, []);
    assert Print(v, cmp) + [] == Print(v, cmp);
    CanonSame(v, cmp);
    CanonInOrder(v, cmp);
  }
}
