/** `canonicalJson` of apps/api/src/idempotency/idempotency.interceptor.ts, the text behind a request's fingerprint. */
module CanonicalJson {
  import opened JsonText
  import opened Sequences

  /** Values as the body parser hands them over, and undefined, which application code may leave in them. */
  datatype Json =
    | Undefined
    | Null
    | Bool(b: bool)
    | Number(numeral: Text)
    | String(text: Text)
    | Array(items: seq<Json>)
    | Object(members: seq<Member>)

  datatype Member = Member(key: Text, value: Json)

  const NULL_TEXT: Text := [0x6e, 0x75, 0x6c, 0x6c]
  const TRUE_TEXT: Text := [0x74, 0x72, 0x75, 0x65]
  const FALSE_TEXT: Text := [0x66, 0x61, 0x6c, 0x73, 0x65]

  /** Key comparison: negative, zero or positive, as `localeCompare` answers. */
  type Comparison = (Text, Text) -> int

  function ByKey(cmp: Comparison): (Member, Member) -> bool {
    (a: Member, b: Member) => cmp(a.key, b.key) <= 0
  }

  function Defined(): Member -> bool {
    (m: Member) => !m.value.Undefined?
  }

  /** The members that are printed, in the order they are printed. */
  function Ordered(members: seq<Member>, cmp: Comparison): (r: seq<Member>)
    ensures forall m | m in r :: m in members && !m.value.Undefined?
  {
    FilterAll(members, Defined());
    var live := Filter(members, |members|, Defined());
    SortMembers(live, ByKey(cmp));
    Sort(live, ByKey(cmp))
  }

  /** `texts` from index `i` on, with a comma before each but the very first. */
  function JoinFrom(texts: seq<Text>, i: nat): Text
    requires i <= |texts|
    decreases |texts| - i
  {
    if i == |texts| then [] else (if i == 0 then [] else [COMMA]) + texts[i] + JoinFrom(texts, i + 1)
  }

  function Print(v: Json, cmp: Comparison): Text {
    match v
    case Undefined => NULL_TEXT
    case Null => NULL_TEXT
    case Bool(b) => if b then TRUE_TEXT else FALSE_TEXT
    case Number(numeral) => numeral
    case String(text) => Quote(text)
    case Array(items) =>
      var texts := seq(|items|, i requires 0 <= i < |items| => Print(items[i], cmp));
      [LEFT_BRACKET] + JoinFrom(texts, 0) + [RIGHT_BRACKET]
    case Object(members) =>
      var ordered := Ordered(members, cmp);
      var texts := seq(|ordered|, i requires 0 <= i < |ordered| =>
                         assert ordered[i] in members;
                         Quote(ordered[i].key) + [COLON] + Print(ordered[i].value, cmp));
      [LEFT_BRACE] + JoinFrom(texts, 0) + [RIGHT_BRACE]
  }

  // ----- Equality up to member order -----

  /** As every JavaScript object is: no key twice. And numbers print as numerals. */
  ghost predicate WellFormed(v: Json) {
    match v
    case Number(numeral) => IsNumeral(numeral)
    case Array(items) => forall i | 0 <= i < |items| :: WellFormed(items[i])
    case Object(members) =>
      && DistinctKeys(members)
      && forall i | 0 <= i < |members| :: WellFormed(members[i].value)
    case _ => true
  }

  ghost predicate DistinctKeys(members: seq<Member>) {
    forall i, j | 0 <= i < j < |members| :: members[i].key != members[j].key
  }

  predicate Nullish(v: Json) {
    v.Undefined? || v.Null?
  }

  /** Equal at every depth, except for member order, undefined members, and undefined elsewhere being null. */
  ghost predicate Same(v: Json, w: Json)
    decreases v
  {
    match v
    case Undefined => Nullish(w)
    case Null => Nullish(w)
    case Array(items) =>
      w.Array? && |items| == |w.items| && forall i | 0 <= i < |items| :: Same(items[i], w.items[i])
    case Object(members) =>
      && w.Object?
      && (forall i | 0 <= i < |members| && !members[i].value.Undefined? :: HasPartner(members[i], w.members))
      && (forall j | 0 <= j < |w.members| && !w.members[j].value.Undefined? :: HasNamesake(w.members[j].key, members))
    case _ => v == w
  }

  /** A defined member with the same key and the same value. */
  ghost predicate HasPartner(m: Member, members: seq<Member>)
    decreases m
  {
    exists j :: 0 <= j < |members| && !members[j].value.Undefined? && m.key == members[j].key && Same(m.value, members[j].value)
  }

  predicate HasNamesake(k: Text, members: seq<Member>) {
    exists i :: 0 <= i < |members| && !members[i].value.Undefined? && members[i].key == k
  }

  /** Same keys in the same places, with the same values. */
  ghost predicate Aligned(a: seq<Member>, b: seq<Member>) {
    |a| == |b| && forall i | 0 <= i < |a| :: a[i].key == b[i].key && Same(a[i].value, b[i].value)
  }

  lemma OrderedMembers(members: seq<Member>, cmp: Comparison)
    ensures forall m :: m in Ordered(members, cmp) <==> m in members && !m.value.Undefined?
  {
    FilterAll(members, Defined());
    SortMembers(Filter(members, |members|, Defined()), ByKey(cmp));
  }

  lemma InOrdered(members: seq<Member>, cmp: Comparison, i: nat) returns (k: nat)
    requires i < |members| && !members[i].value.Undefined?
    ensures k < |Ordered(members, cmp)| && Ordered(members, cmp)[k] == members[i]
  {
    hide Ordered;
    OrderedMembers(members, cmp);
    assert members[i] in Ordered(members, cmp);
    k :| 0 <= k < |Ordered(members, cmp)| && Ordered(members, cmp)[k] == members[i];
  }

  lemma FromOrdered(members: seq<Member>, cmp: Comparison, k: nat) returns (i: nat)
    requires k < |Ordered(members, cmp)|
    ensures i < |members| && members[i] == Ordered(members, cmp)[k] && !members[i].value.Undefined?
  {
    hide Ordered;
    OrderedMembers(members, cmp);
    assert Ordered(members, cmp)[k] in members;
    i :| 0 <= i < |members| && members[i] == Ordered(members, cmp)[k];
  }

  lemma {:induction false} AlignedSame(v: Json, w: Json, cmp: Comparison)
    requires v.Object? && w.Object? && Aligned(Ordered(v.members, cmp), Ordered(w.members, cmp))
    ensures Same(v, w)
  {
    hide Ordered, HasPartner, HasNamesake;
    forall i | 0 <= i < |v.members| && !v.members[i].value.Undefined? ensures HasPartner(v.members[i], w.members) {
      var k := InOrdered(v.members, cmp, i);
      var j := FromOrdered(w.members, cmp, k);
      IsPartner(v.members[i], w.members, j);
    }
    forall j | 0 <= j < |w.members| && !w.members[j].value.Undefined? ensures HasNamesake(w.members[j].key, v.members) {
      var k := InOrdered(w.members, cmp, j);
      var i := FromOrdered(v.members, cmp, k);
      IsNamesake(w.members[j].key, v.members, i);
    }
  }

  lemma {:induction false} IsPartner(m: Member, members: seq<Member>, j: nat)
    requires j < |members| && !members[j].value.Undefined? && m.key == members[j].key && Same(m.value, members[j].value)
    ensures HasPartner(m, members)
  {
    hide Same;
  }

  lemma IsNamesake(k: Text, members: seq<Member>, i: nat)
    requires i < |members| && !members[i].value.Undefined? && members[i].key == k
    ensures HasNamesake(k, members)
  {
  }

  // ----- Equal texts come from equal values, whatever the key comparison -----

  function ItemTexts(items: seq<Json>, cmp: Comparison): (texts: seq<Text>)
    ensures |texts| == |items| && forall i | 0 <= i < |items| :: texts[i] == Print(items[i], cmp)
  {
    seq(|items|, i requires 0 <= i < |items| => Print(items[i], cmp))
  }

  function MemberTexts(ordered: seq<Member>, cmp: Comparison): (texts: seq<Text>)
    ensures |texts| == |ordered|
    ensures forall i | 0 <= i < |ordered| :: texts[i] == Quote(ordered[i].key) + [COLON] + Print(ordered[i].value, cmp)
  {
    seq(|ordered|, i requires 0 <= i < |ordered| => Quote(ordered[i].key) + [COLON] + Print(ordered[i].value, cmp))
  }

  lemma PrintArray(v: Json, cmp: Comparison)
    requires v.Array?
    ensures Print(v, cmp) == [LEFT_BRACKET] + JoinFrom(ItemTexts(v.items, cmp), 0) + [RIGHT_BRACKET]
  {
    var items := v.items;
    assert seq(|items|, i requires 0 <= i < |items| => Print(items[i], cmp)) == ItemTexts(items, cmp);
  }

  lemma PrintObject(v: Json, cmp: Comparison)
    requires v.Object?
    ensures Print(v, cmp) == [LEFT_BRACE] + JoinFrom(MemberTexts(Ordered(v.members, cmp), cmp), 0) + [RIGHT_BRACE]
  {
    var ordered := Ordered(v.members, cmp);
    assert seq(|ordered|, i requires 0 <= i < |ordered| =>
                 Quote(ordered[i].key) + [COLON] + Print(ordered[i].value, cmp)) == MemberTexts(ordered, cmp);
  }

  /** What a value's first unit can be: enough to tell the kinds apart. */
  predicate Starts(v: Json, c: Unit) {
    match v
    case Undefined => c == 0x6e
    case Null => c == 0x6e
    case Bool(b) => c == if b then 0x74 else 0x66
    case Number(_) => IsDigit(c) || c == 0x2d
    case String(_) => c == QUOTE
    case Array(_) => c == LEFT_BRACKET
    case Object(_) => c == LEFT_BRACE
  }

  lemma {:induction false} Head(v: Json, cmp: Comparison)
    requires WellFormed(v)
    ensures |Print(v, cmp)| > 0 && Starts(v, Print(v, cmp)[0])
  {
    hide Ordered, JoinFrom, QuotedFrom;
  }

  lemma JoinSplit(texts: seq<Text>, i: nat, tail: Text)
    requires i < |texts|
    ensures JoinFrom(texts, i) + tail ==
            (if i == 0 then [] else [COMMA]) + (texts[i] + (JoinFrom(texts, i + 1) + tail))
  {
    var c, t, j := if i == 0 then [] else [COMMA], texts[i], JoinFrom(texts, i + 1);
    assert c + t + j + tail == c + (t + (j + tail));
  }

  lemma JoinDelimited(texts: seq<Text>, i: nat, close: Unit, r: Text)
    requires 0 < i <= |texts| && (close == RIGHT_BRACKET || close == RIGHT_BRACE)
    ensures Delimited(JoinFrom(texts, i) + ([close] + r))
  {
    if i < |texts| {
      JoinSplit(texts, i, [close] + r);
    } else {
      assert [] + ([close] + r) == [close] + r;
    }
  }

  /** The first unit tells whether a joined list goes on or closes. */
  lemma JoinHead(texts: seq<Text>, i: nat, close: Unit, r: Text)
    requires i <= |texts| && (close == RIGHT_BRACKET || close == RIGHT_BRACE)
    requires i < |texts| ==> |texts[i]| > 0 && texts[i][0] != close
    ensures var x := JoinFrom(texts, i) + ([close] + r);
            && |x| > 0 && (x[0] == close <==> i == |texts|)
            && (i == |texts| ==> x == [close] + r)
  {
    if i < |texts| {
      JoinSplit(texts, i, [close] + r);
      var t := texts[i] + (JoinFrom(texts, i + 1) + ([close] + r));
      assert t[0] == texts[i][0];
      assert i > 0 ==> ([COMMA] + t)[0] == COMMA;
    }
  }

  /** Two joined lists with the same text go on, or end, together. */
  lemma JoinStep(texts: seq<Text>, texts': seq<Text>, i: nat, close: Unit, r: Text, r': Text)
    requires i <= |texts| && i <= |texts'| && (close == RIGHT_BRACKET || close == RIGHT_BRACE)
    requires i < |texts| ==> |texts[i]| > 0 && texts[i][0] != close
    requires i < |texts'| ==> |texts'[i]| > 0 && texts'[i][0] != close
    requires JoinFrom(texts, i) + ([close] + r) == JoinFrom(texts', i) + ([close] + r')
    ensures i < |texts| <==> i < |texts'|
    ensures i == |texts| ==> r == r'
    ensures i < |texts| ==>
              texts[i] + (JoinFrom(texts, i + 1) + ([close] + r)) == texts'[i] + (JoinFrom(texts', i + 1) + ([close] + r'))
  {
    hide JoinFrom;
    JoinHead(texts, i, close, r);
    JoinHead(texts', i, close, r');
    if i == |texts| {
      CancelUnit(close, r, close, r');
    } else {
      JoinNext(texts, texts', i, [close] + r, [close] + r');
    }
  }

  lemma JoinNext(texts: seq<Text>, texts': seq<Text>, i: nat, x: Text, x': Text)
    requires i < |texts| && i < |texts'| && JoinFrom(texts, i) + x == JoinFrom(texts', i) + x'
    ensures texts[i] + (JoinFrom(texts, i + 1) + x) == texts'[i] + (JoinFrom(texts', i + 1) + x')
  {
    hide JoinFrom;
    JoinSplit(texts, i, x);
    JoinSplit(texts', i, x');
    var c := if i == 0 then [] else [COMMA];
    Cancel(c, texts[i] + (JoinFrom(texts, i + 1) + x), c, texts'[i] + (JoinFrom(texts', i + 1) + x'));
  }

  /** The first unit of a text tells what kind of value it is. */
  lemma {:induction false} SameKind(v: Json, r: Text, w: Json, r': Text, cmp: Comparison) returns (c: Unit)
    requires WellFormed(v) && WellFormed(w) && Print(v, cmp) + r == Print(w, cmp) + r'
    ensures Starts(v, c) && Starts(w, c)
  {
    hide Print, Starts;
    Head(v, cmp);
    Head(w, cmp);
    var p, p' := Print(v, cmp), Print(w, cmp);
    assert p[0] == (p + r)[0] && p'[0] == (p' + r')[0];
    c := p[0];
  }

  /** Equal texts come from values that are the same up to member order, and end together. */
  lemma {:induction false} PrintUnique(v: Json, r: Text, w: Json, r': Text, cmp: Comparison)
    requires WellFormed(v) && WellFormed(w) && Delimited(r) && Delimited(r')
    requires Print(v, cmp) + r == Print(w, cmp) + r'
    ensures Same(v, w) && r == r'
    decreases v, 2, 0
  {
    hide Print, Delimited, Same, WellFormed;
    var c := SameKind(v, r, w, r', cmp);
    match v
    case Array(_) => ArrayUnique(v, r, w, r', cmp);
    case Object(_) => ObjectUnique(v, r, w, r', cmp);
    case _ => ScalarUnique(v, r, w, r', cmp);
  }

  lemma {:induction false} ArrayUnique(v: Json, r: Text, w: Json, r': Text, cmp: Comparison)
    requires WellFormed(v) && WellFormed(w) && v.Array? && w.Array? && Print(v, cmp) + r == Print(w, cmp) + r'
    ensures Same(v, w) && r == r'
    decreases v, 1, 0
  {
    hide Print, JoinFrom, WellFormed;
    PrintArray(v, cmp);
    PrintArray(w, cmp);
    Bracketed(LEFT_BRACKET, JoinFrom(ItemTexts(v.items, cmp), 0), RIGHT_BRACKET, r,
              JoinFrom(ItemTexts(w.items, cmp), 0), r');
    ItemsUnique(v, r, w, r', 0, cmp);
  }

  lemma {:induction false} ObjectUnique(v: Json, r: Text, w: Json, r': Text, cmp: Comparison)
    requires WellFormed(v) && WellFormed(w) && v.Object? && w.Object? && Print(v, cmp) + r == Print(w, cmp) + r'
    ensures Same(v, w) && r == r'
    decreases v, 1, 0
  {
    hide Print, JoinFrom, WellFormed, Same, Ordered;
    PrintObject(v, cmp);
    PrintObject(w, cmp);
    Bracketed(LEFT_BRACE, JoinFrom(MemberTexts(Ordered(v.members, cmp), cmp), 0), RIGHT_BRACE, r,
              JoinFrom(MemberTexts(Ordered(w.members, cmp), cmp), 0), r');
    MembersUnique(v, r, w, r', 0, cmp);
    AlignedSame(v, w, cmp);
  }

  lemma Bracketed(open: Unit, x: Text, close: Unit, r: Text, x': Text, r': Text)
    requires ([open] + x + [close]) + r == ([open] + x' + [close]) + r'
    ensures x + ([close] + r) == x' + ([close] + r')
  {
    assert ([open] + x + [close]) + r == [open] + (x + ([close] + r));
    assert ([open] + x' + [close]) + r' == [open] + (x' + ([close] + r'));
    CancelUnit(open, x + ([close] + r), open, x' + ([close] + r'));
  }

  lemma {:induction false} ScalarUnique(v: Json, r: Text, w: Json, r': Text, cmp: Comparison)
    requires WellFormed(v) && WellFormed(w) && Delimited(r) && Delimited(r')
    requires Print(v, cmp) + r == Print(w, cmp) + r'
    requires !v.Array? && !v.Object? && !w.Array? && !w.Object?
    requires exists c :: Starts(v, c) && Starts(w, c)
    ensures Same(v, w) && r == r'
  {
    match v
    case Number(n) => NumeralUnique(n, r, w.numeral, r');
    case String(t) => QuoteUnique(t, r, w.text, r');
    case _ => Cancel(Print(v, cmp), r, Print(w, cmp), r');
  }

  lemma {:induction false} ItemsUnique(v: Json, r: Text, w: Json, r': Text, i: nat, cmp: Comparison)
    requires v.Array? && w.Array? && WellFormed(v) && WellFormed(w) && i <= |v.items| && i <= |w.items|
    requires JoinFrom(ItemTexts(v.items, cmp), i) + ([RIGHT_BRACKET] + r) ==
             JoinFrom(ItemTexts(w.items, cmp), i) + ([RIGHT_BRACKET] + r')
    ensures |v.items| == |w.items| && (forall k | i <= k < |v.items| :: Same(v.items[k], w.items[k])) && r == r'
    decreases v, 0, |v.items| - i
  {
    hide Print, JoinFrom, Same;
    var texts, texts' := ItemTexts(v.items, cmp), ItemTexts(w.items, cmp);
    if i < |v.items| {
      Head(v.items[i], cmp);
    }
    if i < |w.items| {
      Head(w.items[i], cmp);
    }
    JoinStep(texts, texts', i, RIGHT_BRACKET, r, r');
    if i < |v.items| {
      JoinDelimited(texts, i + 1, RIGHT_BRACKET, r);
      JoinDelimited(texts', i + 1, RIGHT_BRACKET, r');
      PrintUnique(v.items[i], JoinFrom(texts, i + 1) + ([RIGHT_BRACKET] + r),
                  w.items[i], JoinFrom(texts', i + 1) + ([RIGHT_BRACKET] + r'), cmp);
      ItemsUnique(v, r, w, r', i + 1, cmp);
    }
  }

  lemma {:induction false} MembersUnique(v: Json, r: Text, w: Json, r': Text, i: nat, cmp: Comparison)
    requires v.Object? && w.Object? && WellFormed(v) && WellFormed(w)
    requires i <= |Ordered(v.members, cmp)| && i <= |Ordered(w.members, cmp)|
    requires JoinFrom(MemberTexts(Ordered(v.members, cmp), cmp), i) + ([RIGHT_BRACE] + r) ==
             JoinFrom(MemberTexts(Ordered(w.members, cmp), cmp), i) + ([RIGHT_BRACE] + r')
    ensures var a, b := Ordered(v.members, cmp), Ordered(w.members, cmp);
            && |a| == |b| && r == r'
            && forall k | i <= k < |a| :: a[k].key == b[k].key && Same(a[k].value, b[k].value)
    decreases v, 0, |Ordered(v.members, cmp)| - i
  {
    hide Print, JoinFrom, Same, Quote, Ordered, WellFormed, Delimited;
    var a, b := Ordered(v.members, cmp), Ordered(w.members, cmp);
    var texts, texts' := MemberTexts(a, cmp), MemberTexts(b, cmp);
    QuoteHeads(a, cmp, i);
    QuoteHeads(b, cmp, i);
    JoinStep(texts, texts', i, RIGHT_BRACE, r, r');
    if i < |a| {
      var x, x' := JoinFrom(texts, i + 1) + ([RIGHT_BRACE] + r), JoinFrom(texts', i + 1) + ([RIGHT_BRACE] + r');
      JoinDelimited(texts, i + 1, RIGHT_BRACE, r);
      JoinDelimited(texts', i + 1, RIGHT_BRACE, r');
      MemberUnique(a[i], x, b[i], x', cmp);
      var k := FromOrdered(v.members, cmp, i);
      var k' := FromOrdered(w.members, cmp, i);
      WellFormedMember(v, k);
      WellFormedMember(w, k');
      PrintUnique(v.members[k].value, x, w.members[k'].value, x', cmp);
      MembersUnique(v, r, w, r', i + 1, cmp);
    }
  }

  lemma {:induction false} WellFormedMember(v: Json, k: nat)
    requires v.Object? && WellFormed(v) && k < |v.members|
    ensures WellFormed(v.members[k].value)
  {
  }

  lemma QuoteHeads(ordered: seq<Member>, cmp: Comparison, i: nat)
    ensures i < |ordered| ==>
              |MemberTexts(ordered, cmp)[i]| > 0 && MemberTexts(ordered, cmp)[i][0] == QUOTE
  {
    hide Print, QuotedFrom;
  }

  /** A printed member determines its key and the text of its value. */
  lemma MemberUnique(m: Member, x: Text, m': Member, x': Text, cmp: Comparison)
    requires (Quote(m.key) + [COLON] + Print(m.value, cmp)) + x == (Quote(m'.key) + [COLON] + Print(m'.value, cmp)) + x'
    ensures m.key == m'.key && Print(m.value, cmp) + x == Print(m'.value, cmp) + x'
  {
    hide Print, Quote;
    var q, p, q', p' := Quote(m.key), Print(m.value, cmp), Quote(m'.key), Print(m'.value, cmp);
    assert (q + [COLON] + p) + x == q + ([COLON] + (p + x));
    assert (q' + [COLON] + p') + x' == q' + ([COLON] + (p' + x'));
    QuoteUnique(m.key, [COLON] + (p + x), m'.key, [COLON] + (p' + x'));
    CancelUnit(COLON, p + x, COLON, p' + x');
  }

  /** Whatever the key comparison, two requests with the same text are the same request. */
  lemma {:induction false} EqualTextMeansSame(v: Json, w: Json, cmp: Comparison)
    requires WellFormed(v) && WellFormed(w) && Print(v, cmp) == Print(w, cmp)
    ensures Same(v, w)
  {
    PrintUnique(v, [], w, [], cmp);
  }
}
