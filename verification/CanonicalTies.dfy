/**
 When member order does not show in `canonicalJson`: exactly for values in which no object has two
 different keys that the comparison calls equal.
 */
module CanonicalTies {
  import opened JsonText
  import opened Sequences
  import opened CanonicalJson

  /** A consistent comparison: antisymmetric in sign, and transitive. */
  ghost predicate Consistent(cmp: Comparison) {
    && (forall a, b :: cmp(a, b) < 0 <==> cmp(b, a) > 0)
    && (forall a, b, c :: cmp(a, b) <= 0 && cmp(b, c) <= 0 ==> cmp(a, c) <= 0)
  }

  /** No two of the members that are printed have keys that compare equal. */
  ghost predicate KeysApart(members: seq<Member>, cmp: Comparison) {
    forall i, j | 0 <= i < j < |members| && !members[i].value.Undefined? && !members[j].value.Undefined? ::
      cmp(members[i].key, members[j].key) != 0
  }

  /** At every depth that is printed, no two keys of one object compare equal. */
  ghost predicate TieFree(v: Json, cmp: Comparison) {
    match v
    case Array(items) => forall i | 0 <= i < |items| :: TieFree(items[i], cmp)
    case Object(members) =>
      && KeysApart(members, cmp)
      && forall i | 0 <= i < |members| && !members[i].value.Undefined? :: TieFree(members[i].value, cmp)
    case _ => true
  }

  // ----- Tie-free values print alike -----

  ghost predicate StrictlyOrdered(a: seq<Member>, cmp: Comparison) {
    forall i, j | 0 <= i < j < |a| :: cmp(a[i].key, a[j].key) < 0
  }

  lemma OrderedDistinct(members: seq<Member>, cmp: Comparison)
    requires DistinctKeys(members)
    ensures DistinctKeys(Ordered(members, cmp))
  {
    var key := (m: Member) => m.key;
    SortFilterDistinct(members, Defined(), ByKey(cmp), key);
    var a := Ordered(members, cmp);
    forall i, j | 0 <= i < j < |a| ensures a[i].key != a[j].key {
      assert key(a[i]) != key(a[j]);
    }
  }

  /** Members whose keys are apart come out in strict order. */
  lemma OrderedStrictly(members: seq<Member>, cmp: Comparison)
    requires Consistent(cmp) && DistinctKeys(members) && KeysApart(members, cmp)
    ensures StrictlyOrdered(Ordered(members, cmp), cmp)
  {
    var a := Ordered(members, cmp);
    OrderedSorted(members, cmp);
    OrderedDistinct(members, cmp);
    hide Ordered;
    forall i, j | 0 <= i < j < |a| ensures cmp(a[i].key, a[j].key) < 0 {
      assert cmp(a[i].key, a[j].key) <= 0;
      var x := FromOrdered(members, cmp, i);
      var y := FromOrdered(members, cmp, j);
      Apart(members, cmp, x, y);
    }
  }

  lemma OrderedSorted(members: seq<Member>, cmp: Comparison)
    requires Consistent(cmp)
    ensures var a := Ordered(members, cmp); forall i, j | 0 <= i < j < |a| :: cmp(a[i].key, a[j].key) <= 0
  {
    var a := Ordered(members, cmp);
    var live := Filter(members, |members|, Defined());
    assert TotalPreorder(ByKey(cmp));
    SortSorted(live, |live|, ByKey(cmp));
    forall i, j | 0 <= i < j < |a| ensures cmp(a[i].key, a[j].key) <= 0 {
      assert ByKey(cmp)(a[i], a[j]);
    }
  }

  /** Apart in either order. */
  lemma Apart(members: seq<Member>, cmp: Comparison, x: nat, y: nat)
    requires Consistent(cmp) && KeysApart(members, cmp) && x < |members| && y < |members| && x != y
    requires !members[x].value.Undefined? && !members[y].value.Undefined?
    ensures cmp(members[x].key, members[y].key) != 0
  {
    var a, b := members[x].key, members[y].key;
    assert cmp(a, b) < 0 <==> cmp(b, a) > 0;
    assert cmp(b, a) < 0 <==> cmp(a, b) > 0;
  }

  predicate NamesKey(a: seq<Member>, k: Text) {
    exists i :: 0 <= i < |a| && a[i].key == k
  }

  lemma Asymmetric(cmp: Comparison, a: Text, b: Text)
    requires Consistent(cmp)
    ensures !(cmp(a, b) < 0 && cmp(b, a) < 0)
  {
    assert cmp(a, b) < 0 <==> cmp(b, a) > 0;
  }

  lemma OnePlace(a: seq<Member>, cmp: Comparison, i: nat, j: nat)
    requires Consistent(cmp) && StrictlyOrdered(a, cmp) && i < |a| && j < |a| && a[i].key == a[j].key
    ensures i == j
  {
    hide Consistent;
    Asymmetric(cmp, a[i].key, a[i].key);
  }

  /** Strictly ordered lists with the same keys have them in the same places. */
  lemma {:induction false} SameKeysAlign(a: seq<Member>, b: seq<Member>, cmp: Comparison, n: nat)
    requires Consistent(cmp) && StrictlyOrdered(a, cmp) && StrictlyOrdered(b, cmp) && n <= |a| && n <= |b|
    requires forall k :: NamesKey(a, k) <==> NamesKey(b, k)
    ensures forall i | 0 <= i < n :: a[i].key == b[i].key
  {
    hide Consistent, StrictlyOrdered;
    if n > 0 {
      SameKeysAlign(a, b, cmp, n - 1);
      var m := n - 1;
      assert NamesKey(a, a[m].key) && NamesKey(b, b[m].key);
      var j: nat :| j < |b| && b[j].key == a[m].key;
      var i: nat :| i < |a| && a[i].key == b[m].key;
      if j < m {
        OnePlace(a, cmp, j, m);
      } else if i < m {
        OnePlace(b, cmp, i, m);
      } else if i > m && j > m {
        Before(a, cmp, m, i);
        Before(b, cmp, m, j);
        Asymmetric(cmp, a[m].key, b[m].key);
      }
    }
  }

  lemma Before(a: seq<Member>, cmp: Comparison, i: nat, j: nat)
    requires StrictlyOrdered(a, cmp) && i < j < |a|
    ensures cmp(a[i].key, a[j].key) < 0
  {
  }

  lemma {:induction false} SameKeysSameLength(a: seq<Member>, b: seq<Member>, cmp: Comparison)
    requires Consistent(cmp) && StrictlyOrdered(a, cmp) && StrictlyOrdered(b, cmp)
    requires forall k :: NamesKey(a, k) <==> NamesKey(b, k)
    ensures |a| <= |b|
  {
    hide Consistent, StrictlyOrdered;
    if |a| > |b| {
      SameKeysAlign(a, b, cmp, |b|);
      assert NamesKey(a, a[|b|].key);
      var j: nat :| j < |b| && b[j].key == a[|b|].key;
      OnePlace(a, cmp, j, |b|);
    }
  }

  /** An object that is the same as one whose keys are apart has its keys apart. */
  lemma {:induction false} ApartInBoth(v: Json, w: Json, cmp: Comparison)
    requires v.Object? && w.Object? && Same(v, w) && DistinctKeys(w.members) && Consistent(cmp) && KeysApart(v.members, cmp)
    ensures KeysApart(w.members, cmp)
  {
    hide Same, Consistent;
    forall i, j | 0 <= i < j < |w.members| && !w.members[i].value.Undefined? && !w.members[j].value.Undefined?
      ensures cmp(w.members[i].key, w.members[j].key) != 0
    {
      var x := PartnerBack(v, w, i);
      var y := PartnerBack(v, w, j);
      Apart(v.members, cmp, x, y);
    }
  }

  /** The printed members of two same objects line up, key by key and value by value. */
  lemma {:induction false} SameAligned(v: Json, w: Json, cmp: Comparison)
    requires v.Object? && w.Object? && Same(v, w) && DistinctKeys(v.members) && DistinctKeys(w.members)
    requires Consistent(cmp) && KeysApart(v.members, cmp)
    ensures Aligned(Ordered(v.members, cmp), Ordered(w.members, cmp))
  {
    hide Ordered, Consistent, KeysApart, StrictlyOrdered, Same;
    var a, b := Ordered(v.members, cmp), Ordered(w.members, cmp);
    ApartInBoth(v, w, cmp);
    OrderedStrictly(v.members, cmp);
    OrderedStrictly(w.members, cmp);
    forall k ensures NamesKey(a, k) <==> NamesKey(b, k) {
      SameKeySets(v, w, cmp, k);
    }
    SameKeysSameLength(a, b, cmp);
    SameKeysSameLength(b, a, cmp);
    SameKeysAlign(a, b, cmp, |a|);
    forall i | 0 <= i < |a| ensures Same(a[i].value, b[i].value) {
      var x := FromOrdered(v.members, cmp, i);
      var y := FromOrdered(w.members, cmp, i);
      SameValueAt(v, w, x, y);
    }
  }

  /** The member of `w` that answers to a member of `v`. */
  lemma {:induction false} Partner(v: Json, w: Json, x: nat) returns (j: nat)
    requires v.Object? && w.Object? && Same(v, w) && x < |v.members| && !v.members[x].value.Undefined?
    ensures j < |w.members| && !w.members[j].value.Undefined?
    ensures v.members[x].key == w.members[j].key && Same(v.members[x].value, w.members[j].value)
  {
    assert HasPartner(v.members[x], w.members) by {
      hide HasPartner, HasNamesake;
    }
    hide Same;
    j :| 0 <= j < |w.members| && !w.members[j].value.Undefined? &&
         v.members[x].key == w.members[j].key && Same(v.members[x].value, w.members[j].value);
  }

  lemma {:induction false} PartnerBack(v: Json, w: Json, y: nat) returns (i: nat)
    requires v.Object? && w.Object? && Same(v, w) && y < |w.members| && !w.members[y].value.Undefined?
    ensures i < |v.members| && !v.members[i].value.Undefined? && v.members[i].key == w.members[y].key
  {
    assert HasNamesake(w.members[y].key, v.members) by {
      hide HasPartner, HasNamesake;
    }
    hide Same;
    i :| 0 <= i < |v.members| && !v.members[i].value.Undefined? && v.members[i].key == w.members[y].key;
  }

  lemma {:induction false} SameValueAt(v: Json, w: Json, x: nat, y: nat)
    requires v.Object? && w.Object? && Same(v, w) && DistinctKeys(w.members) && x < |v.members| && y < |w.members|
    requires !v.members[x].value.Undefined? && v.members[x].key == w.members[y].key
    ensures Same(v.members[x].value, w.members[y].value)
  {
    hide Same;
    var j := Partner(v, w, x);
    assert j == y;
  }

  lemma {:induction false} KeyKept(v: Json, w: Json, cmp: Comparison, k: Text)
    requires v.Object? && w.Object? && Same(v, w) && NamesKey(Ordered(v.members, cmp), k)
    ensures NamesKey(Ordered(w.members, cmp), k)
  {
    hide Ordered, Same;
    var a, b := Ordered(v.members, cmp), Ordered(w.members, cmp);
    var i: nat :| i < |a| && a[i].key == k;
    var x := FromOrdered(v.members, cmp, i);
    var j := Partner(v, w, x);
    var y := InOrdered(w.members, cmp, j);
    assert b[y].key == k;
  }

  lemma {:induction false} KeyKeptBack(v: Json, w: Json, cmp: Comparison, k: Text)
    requires v.Object? && w.Object? && Same(v, w) && NamesKey(Ordered(w.members, cmp), k)
    ensures NamesKey(Ordered(v.members, cmp), k)
  {
    hide Ordered, Same;
    var a, b := Ordered(v.members, cmp), Ordered(w.members, cmp);
    var i: nat :| i < |b| && b[i].key == k;
    var y := FromOrdered(w.members, cmp, i);
    var j := PartnerBack(v, w, y);
    var x := InOrdered(v.members, cmp, j);
    assert a[x].key == k;
  }

  lemma {:induction false} SameKeySets(v: Json, w: Json, cmp: Comparison, k: Text)
    requires v.Object? && w.Object? && Same(v, w)
    ensures NamesKey(Ordered(v.members, cmp), k) <==> NamesKey(Ordered(w.members, cmp), k)
  {
    hide Ordered, Same, NamesKey;
    if NamesKey(Ordered(v.members, cmp), k) {
      KeyKept(v, w, cmp, k);
    }
    if NamesKey(Ordered(w.members, cmp), k) {
      KeyKeptBack(v, w, cmp, k);
    }
  }

  lemma ItemsPrintAlike(v: Json, w: Json, cmp: Comparison)
    requires v.Array? && w.Array? && |v.items| == |w.items|
    requires forall i | 0 <= i < |v.items| :: Print(v.items[i], cmp) == Print(w.items[i], cmp)
    ensures Print(v, cmp) == Print(w, cmp)
  {
    hide Print;
    PrintArray(v, cmp);
    PrintArray(w, cmp);
    assert ItemTexts(v.items, cmp) == ItemTexts(w.items, cmp);
  }

  lemma MemberTextsAlike(a: seq<Member>, b: seq<Member>, cmp: Comparison)
    requires |a| == |b|
    requires forall i | 0 <= i < |a| :: a[i].key == b[i].key && Print(a[i].value, cmp) == Print(b[i].value, cmp)
    ensures MemberTexts(a, cmp) == MemberTexts(b, cmp)
  {
    hide Print, Quote;
    var texts, texts' := MemberTexts(a, cmp), MemberTexts(b, cmp);
    forall i | 0 <= i < |a| ensures texts[i] == texts'[i] {
    }
  }

  lemma MembersPrintAlike(v: Json, w: Json, cmp: Comparison)
    requires v.Object? && w.Object? && Aligned(Ordered(v.members, cmp), Ordered(w.members, cmp))
    requires var a, b := Ordered(v.members, cmp), Ordered(w.members, cmp);
             forall i | 0 <= i < |a| :: Print(a[i].value, cmp) == Print(b[i].value, cmp)
    ensures Print(v, cmp) == Print(w, cmp)
  {
    hide Print, Ordered, Same, JoinFrom, MemberTexts, Quote;
    PrintObject(v, cmp);
    PrintObject(w, cmp);
    MemberTextsAlike(Ordered(v.members, cmp), Ordered(w.members, cmp), cmp);
  }

  /** A tie-free value prints the same as every value it is the same as up to member order. */
  lemma {:induction false} SamePrintsAlike(v: Json, w: Json, cmp: Comparison)
    requires WellFormed(v) && WellFormed(w) && Consistent(cmp) && TieFree(v, cmp) && Same(v, w)
    ensures Print(v, cmp) == Print(w, cmp)
    decreases v, 1
  {
    hide Ordered, Consistent, KeysApart;
    match v
    case Array(items) =>
      hide Print;
      forall i | 0 <= i < |items| ensures Print(items[i], cmp) == Print(w.items[i], cmp) {
        SamePrintsAlike(items[i], w.items[i], cmp);
      }
      ItemsPrintAlike(v, w, cmp);
    case Object(members) =>
      ObjectPrintsAlike(v, w, cmp);
    case _ =>
  }

  lemma {:induction false} ObjectPrintsAlike(v: Json, w: Json, cmp: Comparison)
    requires WellFormed(v) && WellFormed(w) && Consistent(cmp) && TieFree(v, cmp) && Same(v, w) && v.Object? && w.Object?
    ensures Print(v, cmp) == Print(w, cmp)
    decreases v, 0
  {
    hide Ordered, Consistent, KeysApart, Print, Same;
    SameAligned(v, w, cmp);
    var a, b := Ordered(v.members, cmp), Ordered(w.members, cmp);
    forall i | 0 <= i < |a| ensures Print(a[i].value, cmp) == Print(b[i].value, cmp) {
      var x := FromOrdered(v.members, cmp, i);
      var y := FromOrdered(w.members, cmp, i);
      SamePrintsAlike(v.members[x].value, w.members[y].value, cmp);
    }
    MembersPrintAlike(v, w, cmp);
  }

  // ----- Values with ties do not -----

  lemma {:induction false} SameAsItself(v: Json)
    ensures Same(v, v)
  {
    hide HasPartner, HasNamesake;
    match v
    case Array(items) =>
      forall i | 0 <= i < |items| ensures Same(items[i], items[i]) {
        SameAsItself(items[i]);
      }
    case Object(members) =>
      forall i | 0 <= i < |members| && !members[i].value.Undefined?
        ensures HasPartner(members[i], members) && HasNamesake(members[i].key, members)
      {
        SameAsItself(members[i].value);
        IsPartner(members[i], members, i);
        IsNamesake(members[i].key, members, i);
      }
    case _ =>
  }

  lemma {:induction false} JoinFrame(texts: seq<Text>, texts': seq<Text>, i: nat)
    requires i <= |texts| == |texts'| && forall j | i <= j < |texts| :: texts[j] == texts'[j]
    ensures JoinFrom(texts, i) == JoinFrom(texts', i)
    decreases |texts| - i
  {
    if i < |texts| {
      JoinFrame(texts, texts', i + 1);
    }
  }

  lemma CancelEnd(a: Text, b: Text, x: Text)
    requires a + x == b + x
    ensures a == b
  {
    assert |a + x| == |a| + |x| && |b + x| == |b| + |x|;
    Cancel(a, x, b, x);
  }

  /** Lists that differ in one text are joined to different texts. */
  lemma {:induction false} JoinApart(texts: seq<Text>, texts': seq<Text>, i: nat, k: nat)
    requires i <= k < |texts| == |texts'| && (forall j | 0 <= j < |texts| && j != k :: texts[j] == texts'[j])
    requires JoinFrom(texts, i) == JoinFrom(texts', i)
    ensures texts[k] == texts'[k]
    decreases |texts| - i
  {
    hide JoinFrom;
    JoinSplit(texts, i, []);
    JoinSplit(texts', i, []);
    var c := if i == 0 then [] else [COMMA];
    var x, x' := JoinFrom(texts, i + 1) + [], JoinFrom(texts', i + 1) + [];
    Cancel(c, texts[i] + x, c, texts'[i] + x');
    if i < k {
      Cancel(texts[i], x, texts'[i], x');
      assert x == JoinFrom(texts, i + 1) && x' == JoinFrom(texts', i + 1);
      JoinApart(texts, texts', i + 1, k);
    } else {
      JoinFrame(texts, texts', i + 1);
      CancelEnd(texts[k], texts'[k], x);
    }
  }

  lemma EnclosedApart(open: Unit, x: Text, close: Unit, x': Text)
    requires [open] + x + [close] == [open] + x' + [close]
    ensures x == x'
  {
    CancelEnd([open] + x, [open] + x', [close]);
    CancelUnit(open, x, open, x');
  }

  /** Changing the text of one item changes the text of the array. */
  lemma ItemShows(v: Json, i: nat, x: Json, cmp: Comparison)
    requires v.Array? && i < |v.items| && Print(v.items[i], cmp) != Print(x, cmp)
    ensures Print(v, cmp) != Print(Array(v.items[i := x]), cmp)
  {
    hide Print, JoinFrom;
    var w := Array(v.items[i := x]);
    PrintArray(v, cmp);
    PrintArray(w, cmp);
    var texts, texts' := ItemTexts(v.items, cmp), ItemTexts(w.items, cmp);
    if Print(v, cmp) == Print(w, cmp) {
      EnclosedApart(LEFT_BRACKET, JoinFrom(texts, 0), RIGHT_BRACKET, JoinFrom(texts', 0));
      JoinApart(texts, texts', 0, i);
    }
  }

  /** Another value under the same key. */
  function Replaced(v: Json, i: nat, x: Json): Json
    requires v.Object? && i < |v.members|
  {
    Object(v.members[i := Member(v.members[i].key, x)])
  }

  function Replacing(m: Member, x: Json): Member -> Member {
    (n: Member) => if n == m then Member(m.key, x) else n
  }

  /** The new value takes the old one's place among the printed members. */
  lemma ReplacedOrdered(v: Json, i: nat, x: Json, cmp: Comparison)
    requires v.Object? && i < |v.members| && DistinctKeys(v.members) && !v.members[i].value.Undefined? && !x.Undefined?
    ensures Ordered(Replaced(v, i, x).members, cmp) == Mapped(Ordered(v.members, cmp), Replacing(v.members[i], x))
  {
    var f := Replacing(v.members[i], x);
    var members, live := v.members, Filter(v.members, |v.members|, Defined());
    assert Mapped(members, f) == Replaced(v, i, x).members;
    FilterMapped(members, |members|, Defined(), f);
    assert Unseen(ByKey(cmp), f);
    SortMapped(live, |live|, ByKey(cmp), f);
  }

  lemma MemberShows(m: Member, x: Json, cmp: Comparison)
    requires Quote(m.key) + [COLON] + Print(m.value, cmp) == Quote(m.key) + [COLON] + Print(x, cmp)
    ensures Print(m.value, cmp) == Print(x, cmp)
  {
    hide Print, Quote;
    var q := Quote(m.key) + [COLON];
    Cancel(q, Print(m.value, cmp), q, Print(x, cmp));
  }

  /** Changing the text of one member's value changes the text of the object. */
  lemma ValueShows(v: Json, i: nat, x: Json, cmp: Comparison)
    requires v.Object? && i < |v.members| && DistinctKeys(v.members) && !v.members[i].value.Undefined? && !x.Undefined?
    requires Print(v.members[i].value, cmp) != Print(x, cmp)
    ensures Print(v, cmp) != Print(Replaced(v, i, x), cmp)
  {
    hide Print, JoinFrom, Ordered, Quote;
    var w, m := Replaced(v, i, x), v.members[i];
    var a, b := Ordered(v.members, cmp), Ordered(w.members, cmp);
    ReplacedOrdered(v, i, x, cmp);
    PrintObject(v, cmp);
    PrintObject(w, cmp);
    var texts, texts' := MemberTexts(a, cmp), MemberTexts(b, cmp);
    if Print(v, cmp) == Print(w, cmp) {
      EnclosedApart(LEFT_BRACE, JoinFrom(texts, 0), RIGHT_BRACE, JoinFrom(texts', 0));
      var k := InOrdered(v.members, cmp, i);
      OrderedDistinct(v.members, cmp);
      assert forall j | 0 <= j < |a| && j != k :: a[j] != m && b[j] == a[j];
      JoinApart(texts, texts', 0, k);
      assert b[k] == Member(m.key, x);
      MemberShows(m, x, cmp);
    }
  }

  /** Two members in each other's place. */
  function Swapped(v: Json, i: nat, j: nat): Json
    requires v.Object? && i < |v.members| && j < |v.members|
  {
    Object(v.members[i := v.members[j]][j := v.members[i]])
  }

  lemma {:induction false} SwappedSame(v: Json, i: nat, j: nat)
    requires v.Object? && i < j < |v.members| && WellFormed(v)
    ensures WellFormed(Swapped(v, i, j)) && Same(v, Swapped(v, i, j))
  {
    hide HasPartner, HasNamesake;
    var w := Swapped(v, i, j);
    forall k | 0 <= k < |v.members| && !v.members[k].value.Undefined? ensures HasPartner(v.members[k], w.members) {
      SameAsItself(v.members[k].value);
      IsPartner(v.members[k], w.members, if k == i then j else if k == j then i else k);
    }
    forall k | 0 <= k < |w.members| && !w.members[k].value.Undefined? ensures HasNamesake(w.members[k].key, v.members) {
      IsNamesake(w.members[k].key, v.members, if k == i then j else if k == j then i else k);
    }
  }

  /** Members whose keys compare equal are printed in the order they come in. */
  lemma TiesKeepOrder(members: seq<Member>, i: nat, j: nat, cmp: Comparison)
    requires i < j < |members| && !members[i].value.Undefined? && !members[j].value.Undefined?
    requires cmp(members[i].key, members[j].key) == 0
    ensures ComesBefore(Ordered(members, cmp), members[i], members[j])
  {
    var live := Filter(members, |members|, Defined());
    FilterBefore(members, |members|, Defined(), i, j);
    var p: nat, q: nat :| p < q < |live| && live[p] == members[i] && live[q] == members[j];
    SortBefore(live, |live|, ByKey(cmp), p, q);
  }

  /** Lists with the same keys in the same places, each key once, cannot have two members in opposite orders. */
  lemma OneOrder(a: seq<Member>, b: seq<Member>, m: Member, n: Member)
    requires DistinctKeys(a) && |a| == |b| && forall k | 0 <= k < |a| :: a[k].key == b[k].key
    requires ComesBefore(a, m, n)
    ensures !ComesBefore(b, n, m)
  {
  }

  /** Swapping two members whose keys compare equal shows in the text. */
  lemma SwapShows(v: Json, i: nat, j: nat, cmp: Comparison)
    requires v.Object? && WellFormed(v) && Consistent(cmp) && i < j < |v.members|
    requires !v.members[i].value.Undefined? && !v.members[j].value.Undefined?
    requires cmp(v.members[i].key, v.members[j].key) == 0
    ensures Print(v, cmp) != Print(Swapped(v, i, j), cmp)
  {
    hide Print, Ordered, WellFormed, JoinFrom, ComesBefore;
    var w, m, n := Swapped(v, i, j), v.members[i], v.members[j];
    var a, b := Ordered(v.members, cmp), Ordered(w.members, cmp);
    TiesKeepOrder(v.members, i, j, cmp);
    TiedBack(cmp, m.key, n.key);
    TiesKeepOrder(w.members, i, j, cmp);
    if Print(v, cmp) == Print(w, cmp) {
      SwappedSame(v, i, j);
      PrintObject(v, cmp);
      PrintObject(w, cmp);
      Bracketed(LEFT_BRACE, JoinFrom(MemberTexts(a, cmp), 0), RIGHT_BRACE, [], JoinFrom(MemberTexts(b, cmp), 0), []);
      MembersUnique(v, [], w, [], 0, cmp);
      WellFormedKeys(v);
      OrderedDistinct(v.members, cmp);
      OneOrder(a, b, m, n);
    }
  }

  lemma {:induction false} WellFormedKeys(v: Json)
    requires v.Object? && WellFormed(v)
    ensures DistinctKeys(v.members)
  {
  }

  lemma TiedBack(cmp: Comparison, a: Text, b: Text)
    requires Consistent(cmp) && cmp(a, b) == 0
    ensures cmp(b, a) == 0
  {
    assert cmp(b, a) < 0 <==> cmp(a, b) > 0;
    assert cmp(a, b) < 0 <==> cmp(b, a) > 0;
  }

  /** The same value with two tied members swapped, somewhere inside it, prints differently. */
  lemma {:induction false} TieShows(v: Json, cmp: Comparison) returns (w: Json)
    requires WellFormed(v) && Consistent(cmp) && !TieFree(v, cmp)
    ensures WellFormed(w) && Same(v, w) && Print(v, cmp) != Print(w, cmp) && !Nullish(w)
    decreases v
  {
    hide Print, Consistent;
    match v
    case Array(items) =>
      var i :| 0 <= i < |items| && !TieFree(items[i], cmp);
      var x := TieShows(items[i], cmp);
      w := Array(items[i := x]);
      ItemShows(v, i, x, cmp);
      ItemReplaced(v, i, x);
    case Object(members) =>
      if !KeysApart(members, cmp) {
        var i: nat, j: nat :| i < j < |members| && !members[i].value.Undefined? && !members[j].value.Undefined? &&
                              cmp(members[i].key, members[j].key) == 0;
        w := Swapped(v, i, j);
        SwappedSame(v, i, j);
        SwapShows(v, i, j, cmp);
      } else {
        var i: nat :| i < |members| && !members[i].value.Undefined? && !TieFree(members[i].value, cmp);
        var x := TieShows(members[i].value, cmp);
        w := Replaced(v, i, x);
        ValueShows(v, i, x, cmp);
        ValueReplaced(v, i, x);
      }
  }

  lemma {:induction false} ItemReplaced(v: Json, i: nat, x: Json)
    requires v.Array? && i < |v.items| && WellFormed(v) && WellFormed(x) && Same(v.items[i], x)
    ensures WellFormed(Array(v.items[i := x])) && Same(v, Array(v.items[i := x]))
  {
    forall j | 0 <= j < |v.items| ensures Same(v.items[j], v.items[i := x][j]) {
      SameAsItself(v.items[j]);
    }
  }

  lemma {:induction false} ValueReplaced(v: Json, i: nat, x: Json)
    requires v.Object? && i < |v.members| && WellFormed(v) && WellFormed(x) && Same(v.members[i].value, x)
    requires !v.members[i].value.Undefined? && !x.Undefined?
    ensures WellFormed(Replaced(v, i, x)) && Same(v, Replaced(v, i, x))
  {
    hide HasPartner, HasNamesake;
    var w := Replaced(v, i, x);
    forall k | 0 <= k < |v.members| && !v.members[k].value.Undefined? ensures HasPartner(v.members[k], w.members) {
      SameAsItself(v.members[k].value);
      IsPartner(v.members[k], w.members, k);
    }
    forall k | 0 <= k < |w.members| && !w.members[k].value.Undefined? ensures HasNamesake(w.members[k].key, v.members) {
      IsNamesake(w.members[k].key, v.members, k);
    }
  }

  // ----- The exact condition -----

  /** The text of `v` does not depend on the order its members come in, at any depth. */
  ghost predicate OrderBlind(v: Json, cmp: Comparison) {
    forall w | WellFormed(w) && Same(v, w) :: Print(v, cmp) == Print(w, cmp)
  }

  /** For a consistent comparison, exactly the tie-free values print the same in every member order. */
  lemma OrderBlindExactlyWhenTieFree(v: Json, cmp: Comparison)
    requires WellFormed(v) && Consistent(cmp)
    ensures OrderBlind(v, cmp) <==> TieFree(v, cmp)
  {
    hide Print, Same, WellFormed, TieFree, Consistent;
    if TieFree(v, cmp) {
      forall w | WellFormed(w) && Same(v, w) ensures Print(v, cmp) == Print(w, cmp) {
        SamePrintsAlike(v, w, cmp);
      }
    } else {
      var w := TieShows(v, cmp);
    }
  }

  /** The canonical form is exact for this pair of values. */
  ghost predicate CanonicalFor(v: Json, w: Json, cmp: Comparison) {
    WellFormed(v) && WellFormed(w) ==> (Print(v, cmp) == Print(w, cmp) <==> Same(v, w))
  }

  /** Against a tie-free value: equal texts exactly when equal up to member order at every depth. */
  lemma Canonical(v: Json, w: Json, cmp: Comparison)
    requires Consistent(cmp) && TieFree(v, cmp)
    ensures CanonicalFor(v, w, cmp)
  {
    hide Print, Same, WellFormed, Consistent, TieFree;
    if WellFormed(v) && WellFormed(w) {
      if Print(v, cmp) == Print(w, cmp) {
        EqualTextMeansSame(v, w, cmp);
      }
      if Same(v, w) {
        SamePrintsAlike(v, w, cmp);
      }
    }
  }

  // ----- A comparison without ties -----

  ghost predicate NoTies(cmp: Comparison) {
    forall a, b :: cmp(a, b) == 0 ==> a == b
  }

  lemma {:induction false} NoTiesTieFree(v: Json, cmp: Comparison)
    requires NoTies(cmp) && WellFormed(v)
    ensures TieFree(v, cmp)
  {
    match v
    case Array(items) =>
      forall i | 0 <= i < |items| ensures TieFree(items[i], cmp) {
        NoTiesTieFree(items[i], cmp);
      }
    case Object(members) =>
      assert KeysApart(members, cmp);
      forall i | 0 <= i < |members| ensures TieFree(members[i].value, cmp) {
        NoTiesTieFree(members[i].value, cmp);
      }
    case _ =>
  }

  function Pair(a: Text, b: Text): Json {
    Object([Member(a, Null), Member(b, Null)])
  }

  /** Two different keys that compare equal keep the order they came in, so the text depends on it. */
  lemma {:induction false} TiedKeysPrintApart(a: Text, b: Text, cmp: Comparison)
    requires a != b && Consistent(cmp) && cmp(a, b) == 0
    ensures !CanonicalFor(Pair(a, b), Pair(b, a), cmp)
  {
    hide Print, Consistent;
    var v := Pair(a, b);
    assert WellFormed(v);
    assert Swapped(v, 0, 1) == Pair(b, a);
    SwappedSame(v, 0, 1);
    SwapShows(v, 0, 1, cmp);
  }

  /** Canonical for all values exactly when no two different keys compare equal. */
  lemma CanonicalExactlyWithoutTies(cmp: Comparison)
    requires Consistent(cmp)
    ensures (forall v, w :: CanonicalFor(v, w, cmp)) <==> NoTies(cmp)
  {
    hide Print, Same, WellFormed, TieFree;
    if NoTies(cmp) {
      forall v, w ensures CanonicalFor(v, w, cmp) {
        if WellFormed(v) {
          NoTiesTieFree(v, cmp);
          Canonical(v, w, cmp);
        }
      }
    } else {
      var a, b :| cmp(a, b) == 0 && a != b;
      TiedKeysPrintApart(a, b, cmp);
    }
  }
}
