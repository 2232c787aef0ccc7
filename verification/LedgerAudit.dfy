/** packages/ledger/src/invariants.ts: the audit of accounts against entries. */
module LedgerAudit {
  import opened LedgerTypes
  import opened LedgerSums
  import opened Sequences

  datatype Violation =
    | TransactionUnbalanced(transactionId: Id, debits: int, credits: int)
    | LedgerUnbalanced(totalDebits: int, totalCredits: int)
    | CountersDiverge(account: Account, wantDebits: int, wantCredits: int)
    | AmountNotPositive(entry: Entry)
    | NegativeBalance(negative: Account, posted: int)

  // ----- What each finding means, independently of the loops -----

  function EntryAmount(e: Entry, d: Direction): int {
    if e.line.direction == d then e.line.amountCents else 0
  }

  /** The amounts on side `d` among the first `n` entries. */
  function LedgerSide(entries: seq<Entry>, n: nat, d: Direction): int
    requires n <= |entries|
  {
    if n == 0 then 0 else LedgerSide(entries, n - 1, d) + EntryAmount(entries[n - 1], d)
  }

  /** The amounts on side `d` of transaction `t` among the first `n` entries. */
  function TransactionSide(entries: seq<Entry>, n: nat, t: Id, d: Direction): int
    requires n <= |entries|
  {
    if n == 0 then 0
    else TransactionSide(entries, n - 1, t, d) +
         (if entries[n - 1].transactionId == t then EntryAmount(entries[n - 1], d) else 0)
  }

  predicate Mentions(entries: seq<Entry>, n: nat, t: Id)
    requires n <= |entries|
  {
    exists i :: 0 <= i < n && entries[i].transactionId == t
  }

  ghost predicate IsViolation(v: Violation, accounts: seq<Account>, entries: seq<Entry>) {
    var n := |entries|;
    match v
    case TransactionUnbalanced(t, debits, credits) =>
      && Mentions(entries, n, t)
      && debits == TransactionSide(entries, n, t, Debit) && credits == TransactionSide(entries, n, t, Credit)
      && debits != credits
    case LedgerUnbalanced(debits, credits) =>
      debits == LedgerSide(entries, n, Debit) && credits == LedgerSide(entries, n, Credit) && debits != credits
    case CountersDiverge(acc, debits, credits) =>
      && acc in accounts
      && debits == PostedOn(entries, n, Debit, acc.id) && credits == PostedOn(entries, n, Credit, acc.id)
      && (acc.counters.debitsPosted != debits || acc.counters.creditsPosted != credits)
    case AmountNotPositive(e) => e in entries && e.line.amountCents <= 0
    case NegativeBalance(acc, posted) =>
      acc in accounts && !acc.allowsNegative && posted == PostedOf(acc.normalBalance, acc.counters) && posted < 0
  }

  // ----- The five passes -----

  /** The entries of `t` among the first `n`. */
  function GroupOf(entries: seq<Entry>, n: nat, t: Id): seq<Entry>
    requires n <= |entries|
  {
    Filter(entries, n, InTransaction(t))
  }

  function InTransaction(t: Id): Entry -> bool {
    (e: Entry) => e.transactionId == t
  }

  lemma {:induction false} LedgerSideAppend(es: seq<Entry>, e: Entry, n: nat, d: Direction)
    requires n <= |es|
    ensures LedgerSide(es + [e], n, d) == LedgerSide(es, n, d)
    ensures n == |es| ==> LedgerSide(es + [e], n + 1, d) == LedgerSide(es, n, d) + EntryAmount(e, d)
  {
    if n > 0 {
      LedgerSideAppend(es, e, n - 1, d);
    }
  }

  lemma {:induction false} GroupSum(entries: seq<Entry>, n: nat, t: Id, d: Direction)
    requires n <= |entries|
    ensures LedgerSide(GroupOf(entries, n, t), |GroupOf(entries, n, t)|, d) == TransactionSide(entries, n, t, d)
  {
    if n > 0 {
      GroupSum(entries, n - 1, t, d);
      var g := GroupOf(entries, n - 1, t);
      LedgerSideAppend(g, entries[n - 1], |g|, d);
      assert g + [] == g;
    }
  }

  /** Transaction `t` is mentioned before `u` is. */
  ghost predicate SeenBefore(entries: seq<Entry>, t: Id, u: Id) {
    exists k :: 0 <= k < |entries| && entries[k].transactionId == t && !Mentions(entries, k + 1, u)
  }

  /** The keys come in the order in which the entries first mention them. */
  ghost predicate FirstSeen(order: seq<Id>, entries: seq<Entry>) {
    forall i, j | 0 <= i < j < |order| :: SeenBefore(entries, order[i], order[j])
  }

  /** A transaction first met at entry `n` comes after all that were met before. */
  lemma NewIsLast(entries: seq<Entry>, n: nat, order: seq<Id>, t: Id)
    requires n < |entries| && entries[n].transactionId == t && t !in order
    requires FirstSeen(order, entries) && forall u :: u in order <==> Mentions(entries, n, u)
    ensures FirstSeen(order + [t], entries)
  {
    forall i | 0 <= i < |order| ensures SeenBefore(entries, order[i], t) {
      assert Mentions(entries, n, order[i]);
      var k :| 0 <= k < n && entries[k].transactionId == order[i];
      assert !Mentions(entries, n, t);
      assert !Mentions(entries, k + 1, t);
    }
    hide SeenBefore;
    var more := order + [t];
    forall i, j | 0 <= i < j < |more| ensures SeenBefore(entries, more[i], more[j]) {
    }
  }

  /** The grouping map, with its keys in first-seen order. */
  method GroupByTransaction(entries: seq<Entry>) returns (byTransaction: map<Id, seq<Entry>>, order: seq<Id>)
    ensures forall t :: t in byTransaction <==> t in order
    ensures Distinct(order) && FirstSeen(order, entries)
    ensures forall t :: t in order <==> Mentions(entries, |entries|, t)
    ensures forall t | t in byTransaction :: byTransaction[t] == GroupOf(entries, |entries|, t)
  {
    byTransaction, order := map[], [];
    for i := 0 to |entries|
      invariant forall t :: t in byTransaction <==> t in order
      invariant Distinct(order) && FirstSeen(order, entries)
      invariant forall t :: t in order <==> Mentions(entries, i, t)
      invariant forall t | t in byTransaction :: byTransaction[t] == GroupOf(entries, i, t)
      invariant forall t | t !in byTransaction :: GroupOf(entries, i, t) == []
    {
      var t := entries[i].transactionId;
      MentionsStep(entries, i);
      hide Mentions, FirstSeen;
      if t in byTransaction {
        byTransaction := byTransaction[t := byTransaction[t] + [entries[i]]];
      } else {
        NewIsLast(entries, i, order, t);
        order := order + [t];
        byTransaction := byTransaction[t := [entries[i]]];
      }
    }
  }

  lemma MentionsStep(entries: seq<Entry>, i: nat)
    requires i < |entries|
    ensures forall u :: Mentions(entries, i + 1, u) <==> Mentions(entries, i, u) || u == entries[i].transactionId
  {
    forall u ensures Mentions(entries, i + 1, u) <==> Mentions(entries, i, u) || u == entries[i].transactionId {
      if Mentions(entries, i + 1, u) {
        var k :| 0 <= k < i + 1 && entries[k].transactionId == u;
        assert k < i ==> Mentions(entries, i, u);
      }
      if Mentions(entries, i, u) {
        var k :| 0 <= k < i && entries[k].transactionId == u;
        assert k < i + 1 && entries[k].transactionId == u;
      }
    }
  }

  method SumSides(group: seq<Entry>) returns (debits: int, credits: int)
    ensures debits == LedgerSide(group, |group|, Debit) && credits == LedgerSide(group, |group|, Credit)
  {
    debits, credits := 0, 0;
    for i := 0 to |group|
      invariant debits == LedgerSide(group, i, Debit) && credits == LedgerSide(group, i, Credit)
    {
      if group[i].line.direction == Debit {
        debits := debits + group[i].line.amountCents;
      } else {
        credits := credits + group[i].line.amountCents;
      }
    }
  }

  method CheckTransactions(accounts: seq<Account>, entries: seq<Entry>) returns (violations: seq<Violation>)
    ensures forall v :: v in violations <==> v.TransactionUnbalanced? && IsViolation(v, accounts, entries)
  {
    hide Mentions, GroupOf, TransactionSide, LedgerSide;
    var byTransaction, order := GroupByTransaction(entries);
    violations := [];
    for k := 0 to |order|
      invariant forall v :: v in violations <==>
                  v.TransactionUnbalanced? && IsViolation(v, accounts, entries) && v.transactionId in order[..k]
    {
      var t := order[k];
      var debits, credits := SumSides(byTransaction[t]);
      GroupSum(entries, |entries|, t, Debit);
      GroupSum(entries, |entries|, t, Credit);
      assert order[..k + 1] == order[..k] + [t];
      if debits != credits {
        violations := violations + [TransactionUnbalanced(t, debits, credits)];
      }
    }
    assert order[..|order|] == order;
  }

  method CheckLedger(accounts: seq<Account>, entries: seq<Entry>) returns (violations: seq<Violation>)
    ensures forall v :: v in violations <==> v.LedgerUnbalanced? && IsViolation(v, accounts, entries)
  {
    var debits, credits := SumSides(entries);
    violations := if debits != credits then [LedgerUnbalanced(debits, credits)] else [];
  }

  method CheckCounters(accounts: seq<Account>, entries: seq<Entry>) returns (violations: seq<Violation>)
    ensures forall v :: v in violations <==> v.CountersDiverge? && IsViolation(v, accounts, entries)
  {
    var expected: map<Id, Counters> := map[];
    var zero := Counters(0, 0, 0, 0);
    for i := 0 to |entries|
      invariant forall a | a in expected ::
                  && expected[a].debitsPosted == PostedOn(entries, i, Debit, a)
                  && expected[a].creditsPosted == PostedOn(entries, i, Credit, a)
      invariant forall a | a !in expected ::
                  PostedOn(entries, i, Debit, a) == 0 && PostedOn(entries, i, Credit, a) == 0
    {
      var a, x := entries[i].line.accountId, entries[i].line.amountCents;
      var acc := if a in expected then expected[a] else zero;
      var isDebit := entries[i].line.direction == Debit;
      if entries[i].phase == PhasePosted {
        acc := if isDebit then acc.(debitsPosted := acc.debitsPosted + x) else acc.(creditsPosted := acc.creditsPosted + x);
      } else if entries[i].phase == PhasePending {
        acc := if isDebit then acc.(debitsPending := acc.debitsPending + x) else acc.(creditsPending := acc.creditsPending + x);
      }
      expected := expected[a := acc];
    }
    violations := [];
    for k := 0 to |accounts|
      invariant forall v :: v in violations <==>
                  v.CountersDiverge? && IsViolation(v, accounts, entries) && v.account in accounts[..k]
    {
      var account := accounts[k];
      var want := if account.id in expected then expected[account.id] else zero;
      assert accounts[..k + 1] == accounts[..k] + [account];
      if account.counters.debitsPosted != want.debitsPosted || account.counters.creditsPosted != want.creditsPosted {
        violations := violations + [CountersDiverge(account, want.debitsPosted, want.creditsPosted)];
      }
    }
    assert accounts[..|accounts|] == accounts;
  }

  method CheckAmounts(accounts: seq<Account>, entries: seq<Entry>) returns (violations: seq<Violation>)
    ensures forall v :: v in violations <==> v.AmountNotPositive? && IsViolation(v, accounts, entries)
  {
    violations := [];
    for k := 0 to |entries|
      invariant forall v :: v in violations <==>
                  v.AmountNotPositive? && IsViolation(v, accounts, entries) && v.entry in entries[..k]
    {
      assert entries[..k + 1] == entries[..k] + [entries[k]];
      if entries[k].line.amountCents <= 0 {
        violations := violations + [AmountNotPositive(entries[k])];
      }
    }
    assert entries[..|entries|] == entries;
  }

  method CheckBalances(accounts: seq<Account>, entries: seq<Entry>) returns (violations: seq<Violation>)
    ensures forall v :: v in violations <==> v.NegativeBalance? && IsViolation(v, accounts, entries)
  {
    violations := [];
    for k := 0 to |accounts|
      invariant forall v :: v in violations <==>
                  v.NegativeBalance? && IsViolation(v, accounts, entries) && v.negative in accounts[..k]
    {
      var account := accounts[k];
      assert accounts[..k + 1] == accounts[..k] + [account];
      if !account.allowsNegative {
        var c := account.counters;
        var posted := if account.normalBalance == CreditNormal then c.creditsPosted - c.debitsPosted
                      else c.debitsPosted - c.creditsPosted;
        if posted < 0 {
          violations := violations + [NegativeBalance(account, posted)];
        }
      }
    }
    assert accounts[..|accounts|] == accounts;
  }

  /** Reports exactly the violations there are. */
  method CheckInvariants(accounts: seq<Account>, entries: seq<Entry>) returns (violations: seq<Violation>)
    ensures forall v :: v in violations <==> IsViolation(v, accounts, entries)
  {
    var v1 := CheckTransactions(accounts, entries);
    var v2 := CheckLedger(accounts, entries);
    var v3 := CheckCounters(accounts, entries);
    var v4 := CheckAmounts(accounts, entries);
    var v5 := CheckBalances(accounts, entries);
    hide IsViolation;
    violations := v1 + v2 + v3 + v4 + v5;
  }
}
