/**
 Ledger movements of a window, one per transaction: `movements` of
 apps/api/src/ledger/shadow-ledger.service.ts over `entriesInWindow` of
 apps/api/src/ledger/memory-ledger-store.ts.
 */
module Movements {
  import opened LedgerTypes
  import opened LedgerEngine
  import opened LedgerSums
  import opened LedgerInvariant
  import LedgerAudit
  import opened Sequences

  datatype Window = Window(accountId: Id, from: Instant, to: Instant)

  datatype Movement = Movement(
    entryId: Id, transactionId: Id, kind: TransactionKind, direction: Direction, amountCents: int, effectiveAt: Instant)

  /** An entry of the account, dated in the window, both ends included. */
  predicate Within(w: Window, e: Entry) {
    e.line.accountId == w.accountId && w.from <= e.effectiveAt <= w.to
  }

  /** Holds in flight stay out; voided attempts stay in. */
  function Shown(w: Window): Entry -> bool {
    (e: Entry) =>
      && e.line.accountId == w.accountId && !e.phase.PhasePending?
      && e.effectiveAt >= w.from && e.effectiveAt <= w.to
  }

  function IsPosted(): Entry -> bool {
    (e: Entry) => e.phase.PhasePosted?
  }

  predicate EarlierOrSame(x: Entry, y: Entry) {
    x.effectiveAt < y.effectiveAt || (x.effectiveAt == y.effectiveAt && x.sequence <= y.sequence)
  }

  function EntriesInWindow(s: Store, w: Window): seq<Entry> {
    var j := Journal(s);
    Sort(Filter(j, |j|, Shown(w)), EarlierOrSame)
  }

  function SignedAmount(e: Entry): int {
    if e.line.direction.Credit? then e.line.amountCents else -e.line.amountCents
  }

  /** What entry `e` contributes to the window. */
  function WindowAmount(w: Window, e: Entry): int {
    if Within(w, e) && e.phase.PhasePosted? then SignedAmount(e) else 0
  }

  function Signed(): Entry -> int {
    (e: Entry) => SignedAmount(e)
  }

  function InWindow(w: Window): Entry -> int {
    (e: Entry) => WindowAmount(w, e)
  }

  /** What entry `e` contributes to the window as part of transaction `t`. */
  function InWindowOf(w: Window, t: Id): Entry -> int {
    (e: Entry) => if e.transactionId == t then WindowAmount(w, e) else 0
  }

  predicate Occurs(s: Store, w: Window, t: Id) {
    exists i :: 0 <= i < |Journal(s)| && Within(w, Journal(s)[i]) && Journal(s)[i].phase.PhasePosted? &&
                Journal(s)[i].transactionId == t
  }

  function Net(): Movement -> int {
    (m: Movement) => if m.direction.Credit? then m.amountCents else -m.amountCents
  }

  function CountFor(t: Id): Movement -> int {
    (m: Movement) => if m.transactionId == t then 1 else 0
  }

  /** The item carries its transaction's kind and net effect, the sign in the direction; its lowest entry stands for it. */
  ghost predicate MovementOk(s: Store, w: Window, m: Movement) {
    && m.transactionId in s.transactions
    && m.kind == s.transactions[m.transactionId].kind
    && m.amountCents >= 0
    && Net()(m) == Sum(Journal(s), InWindowOf(w, m.transactionId))
    && (m.direction.Debit? ==> m.amountCents > 0)
    && (exists e :: InGroup(s, w, m.transactionId, e) && e.id == m.entryId && e.effectiveAt == m.effectiveAt)
    && (forall e | InGroup(s, w, m.transactionId, e) :: m.entryId <= e.id)
  }

  /** A POSTED entry of the window that belongs to transaction `t`. */
  predicate InGroup(s: Store, w: Window, t: Id, e: Entry) {
    e in Journal(s) && Within(w, e) && e.phase.PhasePosted? && e.transactionId == t
  }

  // ----- Selecting the entries -----

  function PostedInWindow(s: Store, w: Window): seq<Entry> {
    var shown := EntriesInWindow(s, w);
    Filter(shown, |shown|, IsPosted())
  }

  lemma PostedMembers(s: Store, w: Window)
    ensures forall e :: e in PostedInWindow(s, w) <==> e in Journal(s) && Within(w, e) && e.phase.PhasePosted?
  {
    hide Within, Shown, Journal;
    var j := Journal(s);
    var shown := Filter(j, |j|, Shown(w));
    FilterAll(j, Shown(w));
    SortMembers(shown, EarlierOrSame);
    FilterAll(Sort(shown, EarlierOrSame), IsPosted());
    forall e ensures Shown(w)(e) <==> Within(w, e) && !e.phase.PhasePending? {
      ShownIs(w, e);
    }
  }

  lemma ShownIs(w: Window, e: Entry)
    ensures Shown(w)(e) <==> Within(w, e) && !e.phase.PhasePending?
  {
  }

  lemma MentionsIsOccurs(s: Store, w: Window, t: Id)
    ensures LedgerAudit.Mentions(PostedInWindow(s, w), |PostedInWindow(s, w)|, t) <==> Occurs(s, w, t)
  {
    hide PostedInWindow, Journal;
    PostedMembers(s, w);
    var p, j := PostedInWindow(s, w), Journal(s);
    if LedgerAudit.Mentions(p, |p|, t) {
      var i :| 0 <= i < |p| && p[i].transactionId == t;
      assert p[i] in j;
    }
    if Occurs(s, w, t) {
      var k :| 0 <= k < |j| && Within(w, j[k]) && j[k].phase.PhasePosted? && j[k].transactionId == t;
      assert j[k] in p;
    }
  }

  /** A group's total is its transaction's net effect in the window, whatever the orders. */
  lemma GroupTotal(s: Store, w: Window, t: Id)
    ensures var p := PostedInWindow(s, w);
            Sum(LedgerAudit.GroupOf(p, |p|, t), Signed()) == Sum(Journal(s), InWindowOf(w, t))
  {
    hide Journal, Within, Shown, InWindowOf;
    var j := Journal(s);
    var shown := Filter(j, |j|, Shown(w));
    var sorted := Sort(shown, EarlierOrSame);
    var p := Filter(sorted, |sorted|, IsPosted());
    var ofGroup := (e: Entry) => if e.transactionId == t then SignedAmount(e) else 0;
    var ofPosted := PostedOfTransaction(t);
    SumFilter(p, |p|, LedgerAudit.InTransaction(t), Signed(), ofGroup);
    SumFilter(sorted, |sorted|, IsPosted(), ofGroup, ofPosted);
    SumSort(shown, |shown|, EarlierOrSame, ofPosted);
    ShownShare(j, w, t);
  }

  function PostedOfTransaction(t: Id): Entry -> int {
    (e: Entry) => if e.phase.PhasePosted? && e.transactionId == t then SignedAmount(e) else 0
  }

  lemma ShownShare(j: seq<Entry>, w: Window, t: Id)
    ensures Sum(Filter(j, |j|, Shown(w)), PostedOfTransaction(t)) == Sum(j, InWindowOf(w, t))
  {
    SumFilter(j, |j|, Shown(w), PostedOfTransaction(t), InWindowOf(w, t));
  }

  predicate LowerId(x: Entry, y: Entry) {
    x.id <= y.id
  }

  predicate LowerEntryId(x: Movement, y: Movement) {
    x.entryId <= y.entryId
  }

  // ----- The loop -----

  method Reduce(ordered: seq<Entry>) returns (total: int)
    ensures total == Sum(ordered, Signed())
  {
    total := 0;
    for i := 0 to |ordered|
      invariant total == SumUpTo(ordered, i, Signed())
    {
      total := total + (if ordered[i].line.direction == Credit then ordered[i].line.amountCents else -ordered[i].line.amountCents);
    }
  }

  method MovementOf(s: Store, w: Window, t: Id, group: seq<Entry>) returns (m: Movement)
    requires t in s.transactions && Occurs(s, w, t)
    requires var p := PostedInWindow(s, w); group == LedgerAudit.GroupOf(p, |p|, t)
    ensures m.transactionId == t && MovementOk(s, w, m)
  {
    hide PostedInWindow, Occurs, InGroup, Journal, Within, LedgerAudit.Mentions, LedgerAudit.GroupOf, SumUpTo, InWindowOf;
    GroupNonEmpty(s, w, t);
    var ordered := Sort(group, LowerId);
    SortMembers(group, LowerId);
    assert ordered[0] in ordered;
    LowestFirst(group);
    var total := Reduce(ordered);
    SumSort(group, |group|, LowerId, Signed());
    GroupTotal(s, w, t);
    m := Movement(ordered[0].id, t, s.transactions[t].kind, if total >= 0 then Credit else Debit,
                  if total < 0 then -total else total, ordered[0].effectiveAt);
  }

  /** Sorted by id, the first entry has the lowest. */
  lemma LowestFirst(group: seq<Entry>)
    requires group != []
    ensures Sort(group, LowerId) != [] && forall e | e in group :: Sort(group, LowerId)[0].id <= e.id
  {
    var ordered := Sort(group, LowerId);
    SortMembers(group, LowerId);
    assert TotalPreorder(LowerId);
    SortSorted(group, |group|, LowerId);
    forall e | e in group ensures ordered[0].id <= e.id {
      var k :| 0 <= k < |ordered| && ordered[k] == e;
    }
  }

  lemma GroupNonEmpty(s: Store, w: Window, t: Id)
    requires Occurs(s, w, t)
    ensures var p := PostedInWindow(s, w);
            var group := LedgerAudit.GroupOf(p, |p|, t);
            && group != []
            && forall e :: e in group <==> InGroup(s, w, t, e)
  {
    var p := PostedInWindow(s, w);
    MentionsIsOccurs(s, w, t);
    PostedMembers(s, w);
    hide PostedInWindow, Occurs;
    FilterAll(p, LedgerAudit.InTransaction(t));
    var k :| 0 <= k < |p| && p[k].transactionId == t;
    assert p[k] in LedgerAudit.GroupOf(p, |p|, t);
  }

  /**
   One item for each transaction with POSTED entries of the account in the window, and no other, each
   with that transaction's net effect, in entry-id order.
   */
  method Movements(s: Store, w: Window) returns (items: seq<Movement>)
    ensures SortedBy(items, LowerEntryId)
    ensures forall m | m in items :: MovementOk(s, w, m)
    ensures forall t :: Sum(items, CountFor(t)) == if t in s.transactions && Occurs(s, w, t) then 1 else 0
  {
    hide Occurs, MovementOk, PostedInWindow, LedgerAudit.Mentions, LedgerAudit.GroupOf, Journal;
    var posted := PostedInWindow(s, w);
    var byTransaction, order := LedgerAudit.GroupByTransaction(posted);
    forall t ensures t in order <==> Occurs(s, w, t) {
      MentionsIsOccurs(s, w, t);
    }
    var found: seq<Movement> := [];
    for k := 0 to |order|
      invariant forall m | m in found :: MovementOk(s, w, m)
      invariant forall t :: Sum(found, CountFor(t)) == if t in s.transactions && t in order[..k] then 1 else 0
    {
      var t := order[k];
      assert order[..k + 1] == order[..k] + [t];
      assert t !in order[..k];
      if t in s.transactions {
        var m := MovementOf(s, w, t, byTransaction[t]);
        forall u {
          SumAppend(found, m, CountFor(u));
        }
        found := found + [m];
      }
    }
    assert order[..|order|] == order;
    items := Sort(found, LowerEntryId);
    assert TotalPreorder(LowerEntryId);
    SortSorted(found, |found|, LowerEntryId);
    forall t {
      SumSort(found, |found|, LowerEntryId, CountFor(t));
    }
    forall m | m in items ensures MovementOk(s, w, m) {
      assert m in multiset(items);
      assert m in found;
    }
  }

  // ----- Agreement with the posted balance -----

  function Scaled(t: Id, x: int): Movement -> int {
    (m: Movement) => if m.transactionId == t then x else 0
  }

  lemma {:induction false} SumScaled(items: seq<Movement>, n: nat, t: Id, x: int)
    requires n <= |items|
    ensures SumUpTo(items, n, Scaled(t, x)) == x * SumUpTo(items, n, CountFor(t))
  {
    if n > 0 {
      SumScaled(items, n - 1, t, x);
      var c := SumUpTo(items, n - 1, CountFor(t));
      assert x * (c + 1) == x * c + x;
    }
  }

  lemma {:induction false} SumPlus(items: seq<Movement>, n: nat, f: Movement -> int, g: Movement -> int, h: Movement -> int)
    requires n <= |items| && forall m | m in items :: h(m) == f(m) + g(m)
    ensures SumUpTo(items, n, h) == SumUpTo(items, n, f) + SumUpTo(items, n, g)
  {
    if n > 0 {
      SumPlus(items, n - 1, f, g, h);
    }
  }

  /** What the first `n` entries contribute to the transaction of an item. */
  function Share(j: seq<Entry>, n: nat, w: Window): Movement -> int
    requires n <= |j|
  {
    (m: Movement) => SumUpTo(j, n, InWindowOf(w, m.transactionId))
  }

  /** Every contributing entry belongs to exactly one item, so the items add up to the entries. */
  lemma {:induction false} SharesAddUp(items: seq<Movement>, j: seq<Entry>, n: nat, w: Window)
    requires n <= |j|
    requires forall i | 0 <= i < |j| && WindowAmount(w, j[i]) != 0 :: Sum(items, CountFor(j[i].transactionId)) == 1
    ensures Sum(items, Share(j, n, w)) == SumUpTo(j, n, InWindow(w))
  {
    if n == 0 {
      SumSame(items, |items|, Share(j, n, w), Scaled(0, 0));
      SumScaled(items, |items|, 0, 0);
    } else {
      SharesAddUp(items, j, n - 1, w);
      var e := j[n - 1];
      var x := WindowAmount(w, e);
      SumPlus(items, |items|, Share(j, n - 1, w), Scaled(e.transactionId, x), Share(j, n, w));
      SumScaled(items, |items|, e.transactionId, x);
    }
  }

  /** The items add up to the POSTED entries of the window. */
  lemma MovementsTotal(s: Store, w: Window, items: seq<Movement>)
    requires s.entries.Keys == s.transactions.Keys && EntriesOk(s)
    requires forall m | m in items :: MovementOk(s, w, m)
    requires forall t :: Sum(items, CountFor(t)) == if t in s.transactions && Occurs(s, w, t) then 1 else 0
    ensures Sum(items, Net()) == Sum(Journal(s), InWindow(w))
  {
    var j := Journal(s);
    JournalTransactions(s, |s.entryOrder|);
    forall i | 0 <= i < |j| && WindowAmount(w, j[i]) != 0 ensures Sum(items, CountFor(j[i].transactionId)) == 1 {
      assert j[i].transactionId in s.transactions && Occurs(s, w, j[i].transactionId);
    }
    SharesAddUp(items, j, |j|, w);
    SumSame(items, |items|, Net(), Share(j, |j|, w));
  }

  lemma {:induction false} JournalTransactions(s: Store, n: nat)
    requires n <= |s.entryOrder| && s.entries.Keys == s.transactions.Keys && EntriesOk(s)
    ensures forall e | e in Flatten(s.entryOrder, n, s.entries) :: e.transactionId in s.transactions
  {
    if n > 0 {
      JournalTransactions(s, n - 1);
      var t := s.entryOrder[n - 1];
      if t in s.entries {
        assert forall i | 0 <= i < |s.entries[t]| :: EntryOk(s, s.entries[t][i], t, i, s.entries[t][0].phase);
      }
    }
  }

  predicate CoversAll(s: Store, w: Window) {
    forall e | e in Journal(s) :: w.from <= e.effectiveAt <= w.to
  }

  lemma {:induction false} WindowIsPosted(j: seq<Entry>, n: nat, w: Window)
    requires n <= |j| && forall e | e in j :: w.from <= e.effectiveAt <= w.to
    ensures SumUpTo(j, n, InWindow(w)) == PostedOn(j, n, Credit, w.accountId) - PostedOn(j, n, Debit, w.accountId)
  {
    if n > 0 {
      WindowIsPosted(j, n - 1, w);
    }
  }

  /** Over a window that covers everything, the movements of an account add up to its posted counters. */
  lemma MovementsAreBalance(s: Store, w: Window, items: seq<Movement>)
    requires EntriesOk(s) && CountersMatch(s) && s.entries.Keys == s.transactions.Keys
    requires w.accountId in s.accounts && CoversAll(s, w)
    requires forall m | m in items :: MovementOk(s, w, m)
    requires forall t :: Sum(items, CountFor(t)) == if t in s.transactions && Occurs(s, w, t) then 1 else 0
    ensures var acc := s.accounts[w.accountId];
            && Sum(items, Net()) == acc.counters.creditsPosted - acc.counters.debitsPosted
            && (acc.normalBalance.CreditNormal? ==> Sum(items, Net()) == ComputeBalances(acc).posted)
            && (acc.normalBalance.DebitNormal? ==> Sum(items, Net()) == -ComputeBalances(acc).posted)
  {
    hide MovementOk, Occurs, EntriesOk, PostedOn, SumUpTo;
    MovementsTotal(s, w, items);
    var j := Journal(s);
    WindowIsPosted(j, |j|, w);
    assert CounterOk(s, j, s.accounts[w.accountId]);
  }
}
