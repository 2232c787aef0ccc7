/** Every reachable ledger passes the audit and satisfies the accounting equation. */
module LedgerEquation {
  import opened LedgerTypes
  import opened LedgerEngine
  import opened LedgerSums
  import opened LedgerInvariant
  import opened LedgerAudit
  import LedgerSafety

  function AllAccounts(s: Store): seq<Account>
    requires forall a | a in s.accountOrder :: a in s.accounts
  {
    seq(|s.accountOrder|, i requires 0 <= i < |s.accountOrder| => s.accounts[s.accountOrder[i]])
  }

  // ----- Transaction by transaction -----

  lemma {:induction false} SideAppend(j: seq<Entry>, es: seq<Entry>, n: nat, d: Direction)
    requires n <= |es|
    ensures LedgerSide(j + es, |j| + n, d) == LedgerSide(j, |j|, d) + SideSum(Lines(es), n, d)
  {
    if n == 0 {
      SidePrefix(j, es, |j|, d);
    } else {
      SideAppend(j, es, n - 1, d);
      assert (j + es)[|j| + n - 1] == es[n - 1];
    }
  }

  lemma {:induction false} SidePrefix(j: seq<Entry>, es: seq<Entry>, n: nat, d: Direction)
    requires n <= |j|
    ensures LedgerSide(j + es, n, d) == LedgerSide(j, n, d)
  {
    if n > 0 {
      SidePrefix(j, es, n - 1, d);
    }
  }

  lemma {:induction false} TransactionPrefix(j: seq<Entry>, es: seq<Entry>, n: nat, t: Id, d: Direction)
    requires n <= |j|
    ensures TransactionSide(j + es, n, t, d) == TransactionSide(j, n, t, d)
  {
    if n > 0 {
      TransactionPrefix(j, es, n - 1, t, d);
    }
  }

  /** Appending the entries of one transaction `u`. */
  lemma {:induction false} TransactionAppend(j: seq<Entry>, es: seq<Entry>, n: nat, u: Id, t: Id, d: Direction)
    requires n <= |es| && forall i | 0 <= i < |es| :: es[i].transactionId == u
    ensures TransactionSide(j + es, |j| + n, t, d) ==
            TransactionSide(j, |j|, t, d) + (if u == t then SideSum(Lines(es), n, d) else 0)
  {
    if n == 0 {
      TransactionPrefix(j, es, |j|, t, d);
    } else {
      TransactionAppend(j, es, n - 1, u, t, d);
      assert (j + es)[|j| + n - 1] == es[n - 1];
    }
  }

  lemma TransactionEntries(s: Store, t: Id)
    requires EntriesOk(s) && t in s.entries
    ensures Balanced(Lines(s.entries[t]))
    ensures forall i | 0 <= i < |s.entries[t]| :: s.entries[t][i].transactionId == t
    ensures forall i | 0 <= i < |s.entries[t]| :: s.entries[t][i].phase == s.entries[t][0].phase
    ensures forall i | 0 <= i < |s.entries[t]| :: s.entries[t][i].line.accountId in s.accounts
    ensures forall i | 0 <= i < |s.entries[t]| :: s.entries[t][i].line.amountCents > 0
  {
    assert forall i | 0 <= i < |s.entries[t]| :: EntryOk(s, s.entries[t][i], t, i, s.entries[t][0].phase);
    assert forall i | 0 <= i < |s.entries[t]| :: Lines(s.entries[t])[i].amountCents > 0;
  }

  /** Every transaction, and the ledger as a whole, has equal sides. */
  lemma {:induction false} SidesEqual(s: Store, n: nat, t: Id)
    requires n <= |s.entryOrder| && EntriesOk(s)
    ensures var j := Flatten(s.entryOrder, n, s.entries);
            && LedgerSide(j, |j|, Debit) == LedgerSide(j, |j|, Credit)
            && TransactionSide(j, |j|, t, Debit) == TransactionSide(j, |j|, t, Credit)
  {
    hide LedgerSide, TransactionSide, EntriesOk;
    var j := Flatten(s.entryOrder, n, s.entries);
    if n == 0 {
      NoSides(j, t);
    } else {
      SidesEqual(s, n - 1, t);
      var u, before := s.entryOrder[n - 1], Flatten(s.entryOrder, n - 1, s.entries);
      if u in s.entries {
        OneMoreTransaction(s, before, u, t);
      } else {
        assert before + [] == before;
      }
    }
  }

  lemma NoSides(j: seq<Entry>, t: Id)
    requires j == []
    ensures LedgerSide(j, |j|, Debit) == LedgerSide(j, |j|, Credit)
    ensures TransactionSide(j, |j|, t, Debit) == TransactionSide(j, |j|, t, Credit)
  {
  }

  lemma OneMoreTransaction(s: Store, j: seq<Entry>, u: Id, t: Id)
    requires EntriesOk(s) && u in s.entries
    requires LedgerSide(j, |j|, Debit) == LedgerSide(j, |j|, Credit)
    requires TransactionSide(j, |j|, t, Debit) == TransactionSide(j, |j|, t, Credit)
    ensures var j' := j + s.entries[u];
            && LedgerSide(j', |j'|, Debit) == LedgerSide(j', |j'|, Credit)
            && TransactionSide(j', |j'|, t, Debit) == TransactionSide(j', |j'|, t, Credit)
  {
    hide LedgerSide, TransactionSide, EntriesOk;
    var es := s.entries[u];
    TransactionEntries(s, u);
    SideAppend(j, es, |es|, Debit);
    SideAppend(j, es, |es|, Credit);
    TransactionAppend(j, es, |es|, u, t, Debit);
    TransactionAppend(j, es, |es|, u, t, Credit);
  }

  lemma {:induction false} FlattenPositive(s: Store, n: nat)
    requires n <= |s.entryOrder| && EntriesOk(s)
    ensures forall e | e in Flatten(s.entryOrder, n, s.entries) :: e.line.amountCents > 0
  {
    if n > 0 {
      FlattenPositive(s, n - 1);
      if s.entryOrder[n - 1] in s.entries {
        TransactionEntries(s, s.entryOrder[n - 1]);
      }
    }
  }

  lemma InvPositive(s: Store)
    requires EntriesOk(s)
    ensures forall t | t in s.entries :: AllPositive(Lines(s.entries[t]))
  {
  }

  /** The overdraft guard plus non-negative holds keep every guarded posted balance non-negative. */
  lemma PostedNonNegative(s: Store, a: Id)
    requires EntriesOk(s) && CountersMatch(s) && Solvent(s) && a in s.accounts && !s.accounts[a].allowsNegative
    ensures PostedOf(s.accounts[a].normalBalance, s.accounts[a].counters) >= 0
  {
    InvPositive(s);
    assert !ViolatesOverdraftGuard(s.accounts[a]);
    assert CounterOk(s, Journal(s), s.accounts[a]);
    PendingOnNonNegative(s.entryOrder, |s.entryOrder|, s, Debit, a);
    PendingOnNonNegative(s.entryOrder, |s.entryOrder|, s, Credit, a);
  }

  lemma AuditClean(s: Store, v: Violation)
    requires Inv(s)
    ensures !IsViolation(v, AllAccounts(s), Journal(s))
  {
    match v
    case TransactionUnbalanced(t, _, _) => SidesEqual(s, |s.entryOrder|, t);
    case LedgerUnbalanced(_, _) => SidesEqual(s, |s.entryOrder|, 0);
    case CountersDiverge(acc, _, _) => 
      if acc in AllAccounts(s) {
        assert CounterOk(s, Journal(s), s.accounts[acc.id]);
      }
    case AmountNotPositive(e) => FlattenPositive(s, |s.entryOrder|);
    case NegativeBalance(acc, _) =>
      if acc in AllAccounts(s) && !acc.allowsNegative {
        PostedNonNegative(s, acc.id);
      }
  }

  /** On every reachable store the audit reports nothing. */
  method AuditReachable(s: Store) returns (violations: seq<Violation>)
    requires Reachable(s)
    ensures violations == []
  {
    hide IsViolation, CountersMatch, RunningBalances, EntriesOk;
    LedgerSafety.ReachableInv(s);
    violations := CheckInvariants(AllAccounts(s), Journal(s));
    assert violations != [] ==> violations[0] in violations;
    forall v ensures v !in violations {
      AuditClean(s, v);
    }
  }

  // ----- The accounting equation -----

  function SumOver(ids: seq<Id>, n: nat, f: Id -> int): int
    requires n <= |ids|
  {
    if n == 0 then 0 else SumOver(ids, n - 1, f) + f(ids[n - 1])
  }

  lemma {:induction false} SumOverPlus(ids: seq<Id>, n: nat, f: Id -> int, g: Id -> int, h: Id -> int)
    requires n <= |ids| && forall i | 0 <= i < |ids| :: h(ids[i]) == f(ids[i]) + g(ids[i])
    ensures SumOver(ids, n, h) == SumOver(ids, n, f) + SumOver(ids, n, g)
  {
    if n > 0 {
      SumOverPlus(ids, n - 1, f, g, h);
    }
  }

  /** A function that is `x` at one id of the list and zero at the others sums to `x`. */
  lemma {:induction false} SumOverPoint(ids: seq<Id>, n: nat, f: Id -> int, k: nat, x: int)
    requires n <= |ids| && k < |ids| && Distinct(ids)
    requires f(ids[k]) == x && forall i | 0 <= i < |ids| && i != k :: f(ids[i]) == 0
    ensures SumOver(ids, n, f) == if k < n then x else 0
  {
    if n > 0 {
      SumOverPoint(ids, n - 1, f, k, x);
    }
  }

  lemma {:induction false} SumOverZero(ids: seq<Id>, n: nat, f: Id -> int)
    requires n <= |ids| && forall i | 0 <= i < |ids| :: f(ids[i]) == 0
    ensures SumOver(ids, n, f) == 0
  {
    if n > 0 {
      SumOverZero(ids, n - 1, f);
    }
  }

  function LineAt(line: Line, d: Direction): Id -> int {
    (a: Id) => Amount(line, d, a)
  }

  function OnAt(lines: seq<Line>, n: nat, d: Direction): Id -> int
    requires n <= |lines|
  {
    (a: Id) => On(lines, n, d, a)
  }

  function PostedAt(j: seq<Entry>, n: nat, d: Direction): Id -> int
    requires n <= |j|
  {
    (a: Id) => PostedOn(j, n, d, a)
  }

  function PendingAt(s: Store, n: nat, d: Direction): Id -> int
    requires n <= |s.entryOrder|
  {
    (a: Id) => PendingOn(s.entryOrder, n, s, d, a)
  }

  lemma LineOverAccounts(ids: seq<Id>, line: Line, d: Direction)
    requires Distinct(ids) && line.accountId in ids
    ensures SumOver(ids, |ids|, LineAt(line, d)) == if line.direction == d then line.amountCents else 0
  {
    var k :| 0 <= k < |ids| && ids[k] == line.accountId;
    SumOverPoint(ids, |ids|, LineAt(line, d), k, if line.direction == d then line.amountCents else 0);
  }

  /** Summed over all accounts, a list of lines contributes its whole side. */
  lemma {:induction false} LinesOverAccounts(ids: seq<Id>, lines: seq<Line>, n: nat, d: Direction)
    requires n <= |lines| && Distinct(ids) && forall i | 0 <= i < |lines| :: lines[i].accountId in ids
    ensures SumOver(ids, |ids|, OnAt(lines, n, d)) == SideSum(lines, n, d)
  {
    if n == 0 {
      SumOverZero(ids, |ids|, OnAt(lines, n, d));
    } else {
      LinesOverAccounts(ids, lines, n - 1, d);
      LineOverAccounts(ids, lines[n - 1], d);
      SumOverPlus(ids, |ids|, OnAt(lines, n - 1, d), LineAt(lines[n - 1], d), OnAt(lines, n, d));
    }
  }

  ghost predicate CoversAccounts(s: Store, ids: seq<Id>) {
    Distinct(ids) && forall a | a in s.accounts :: a in ids
  }

  /** Posted counters, summed over all accounts, have equal sides: each POSTED transaction adds equally. */
  lemma {:induction false} PostedSidesEqual(s: Store, ids: seq<Id>, n: nat)
    requires n <= |s.entryOrder| && EntriesOk(s) && CoversAccounts(s, ids)
    ensures var j := Flatten(s.entryOrder, n, s.entries);
            SumOver(ids, |ids|, PostedAt(j, |j|, Debit)) == SumOver(ids, |ids|, PostedAt(j, |j|, Credit))
  {
    var j := Flatten(s.entryOrder, n, s.entries);
    if n == 0 {
      SumOverZero(ids, |ids|, PostedAt(j, |j|, Debit));
      SumOverZero(ids, |ids|, PostedAt(j, |j|, Credit));
    } else {
      PostedSidesEqual(s, ids, n - 1);
      var j0, u := Flatten(s.entryOrder, n - 1, s.entries), s.entryOrder[n - 1];
      if u in s.entries {
        PostedStep(s, ids, j0, u, Debit);
        PostedStep(s, ids, j0, u, Credit);
        TransactionEntries(s, u);
      } else {
        assert j == j0;
      }
    }
  }

  lemma PostedStep(s: Store, ids: seq<Id>, j: seq<Entry>, u: Id, d: Direction)
    requires EntriesOk(s) && CoversAccounts(s, ids) && u in s.entries
    ensures var es := s.entries[u];
            SumOver(ids, |ids|, PostedAt(j + es, |j + es|, d)) ==
            SumOver(ids, |ids|, PostedAt(j, |j|, d)) +
            (if es != [] && es[0].phase.PhasePosted? then Total(Lines(es), d) else 0)
  {
    hide EntriesOk, CoversAccounts, Balanced;
    TransactionEntries(s, u);
    assert CoversAccounts(s, ids);
    var es := s.entries[u];
    var phase := if es == [] then PhaseVoid else es[0].phase;
    forall i | 0 <= i < |ids|
      ensures PostedAt(j + es, |j + es|, d)(ids[i]) ==
              PostedAt(j, |j|, d)(ids[i]) + (if phase.PhasePosted? then OnAt(Lines(es), |es|, d)(ids[i]) else 0)
    {
      PostedOnAppend(j, es, |es|, d, ids[i], phase);
    }
    if phase.PhasePosted? {
      SumOverPlus(ids, |ids|, PostedAt(j, |j|, d), OnAt(Lines(es), |es|, d), PostedAt(j + es, |j + es|, d));
      CoveredLines(s, ids, es, d);
    } else {
      SumOverSame(ids, |ids|, PostedAt(j, |j|, d), PostedAt(j + es, |j + es|, d));
    }
  }

  lemma CoveredLines(s: Store, ids: seq<Id>, es: seq<Entry>, d: Direction)
    requires CoversAccounts(s, ids) && forall i | 0 <= i < |es| :: es[i].line.accountId in s.accounts
    ensures SumOver(ids, |ids|, OnAt(Lines(es), |es|, d)) == Total(Lines(es), d)
  {
    LinesOverAccounts(ids, Lines(es), |es|, d);
  }

  /** Open holds, summed over all accounts, have equal sides. */
  lemma {:induction false} PendingSidesEqual(s: Store, ids: seq<Id>, n: nat)
    requires n <= |s.entryOrder| && EntriesOk(s) && CoversAccounts(s, ids)
    ensures SumOver(ids, |ids|, PendingAt(s, n, Debit)) == SumOver(ids, |ids|, PendingAt(s, n, Credit))
  {
    if n == 0 {
      SumOverZero(ids, |ids|, PendingAt(s, n, Debit));
      SumOverZero(ids, |ids|, PendingAt(s, n, Credit));
    } else {
      PendingSidesEqual(s, ids, n - 1);
      PendingStep(s, ids, n, Debit);
      PendingStep(s, ids, n, Credit);
      var t := s.entryOrder[n - 1];
      if t in s.entries {
        TransactionEntries(s, t);
      }
    }
  }

  lemma PendingStep(s: Store, ids: seq<Id>, n: nat, d: Direction)
    requires 0 < n <= |s.entryOrder| && EntriesOk(s) && CoversAccounts(s, ids)
    ensures var t := s.entryOrder[n - 1];
            SumOver(ids, |ids|, PendingAt(s, n, d)) ==
            SumOver(ids, |ids|, PendingAt(s, n - 1, d)) +
            (if IsOpenHold(s, t) then Total(Lines(EntriesOf(s, t)), d) else 0)
  {
    hide EntriesOk, CoversAccounts, Balanced, On;
    var t := s.entryOrder[n - 1];
    var es := EntriesOf(s, t);
    if t in s.entries {
      TransactionEntries(s, t);
    }
    if IsOpenHold(s, t) {
      SumOverPlus(ids, |ids|, PendingAt(s, n - 1, d), OnAt(Lines(es), |es|, d), PendingAt(s, n, d));
      CoveredLines(s, ids, es, d);
    } else {
      SumOverSame(ids, |ids|, PendingAt(s, n - 1, d), PendingAt(s, n, d));
    }
  }

  /** The posted balances of the first `n` accounts with the given normal side. */
  function NormalTotal(s: Store, n: nat, normal: NormalBalance): int
    requires n <= |s.accountOrder| && forall a | a in s.accountOrder :: a in s.accounts
  {
    if n == 0 then 0
    else
      var acc := s.accounts[s.accountOrder[n - 1]];
      NormalTotal(s, n - 1, normal) + (if acc.normalBalance == normal then ComputeBalances(acc).posted else 0)
  }

  lemma {:induction false} NormalTotals(s: Store, n: nat)
    requires n <= |s.accountOrder| && CountersMatch(s) && forall a | a in s.accountOrder :: a in s.accounts
    ensures var j := Journal(s);
            NormalTotal(s, n, DebitNormal) - NormalTotal(s, n, CreditNormal) ==
            SumOver(s.accountOrder, n, PostedAt(j, |j|, Debit)) - SumOver(s.accountOrder, n, PostedAt(j, |j|, Credit))
  {
    if n > 0 {
      NormalTotals(s, n - 1);
      assert CounterOk(s, Journal(s), s.accounts[s.accountOrder[n - 1]]);
    }
  }

  function DebitsPendingAt(s: Store): Id -> int {
    (a: Id) => if a in s.accounts then s.accounts[a].counters.debitsPending else 0
  }

  function CreditsPendingAt(s: Store): Id -> int {
    (a: Id) => if a in s.accounts then s.accounts[a].counters.creditsPending else 0
  }

  lemma {:induction false} SumOverSame(ids: seq<Id>, n: nat, f: Id -> int, g: Id -> int)
    requires n <= |ids| && forall i | 0 <= i < |ids| :: f(ids[i]) == g(ids[i])
    ensures SumOver(ids, n, f) == SumOver(ids, n, g)
  {
    if n > 0 {
      SumOverSame(ids, n - 1, f, g);
    }
  }

  /**
   The accounting equation: posted balances of debit-normal accounts equal those of credit-normal
   accounts, and what is reserved on the debit sides equals what is reserved on the credit sides.
   */
  lemma AccountingEquation(s: Store)
    requires Inv(s)
    ensures NormalTotal(s, |s.accountOrder|, DebitNormal) == NormalTotal(s, |s.accountOrder|, CreditNormal)
    ensures SumOver(s.accountOrder, |s.accountOrder|, DebitsPendingAt(s)) ==
            SumOver(s.accountOrder, |s.accountOrder|, CreditsPendingAt(s))
  {
    assert CoversAccounts(s, s.accountOrder);
    PostedSidesEqual(s, s.accountOrder, |s.entryOrder|);
    NormalTotals(s, |s.accountOrder|);
    PendingSidesEqual(s, s.accountOrder, |s.entryOrder|);
    PendingCounters(s);
  }

  lemma PendingCounters(s: Store)
    requires CountersMatch(s) && forall a | a in s.accountOrder :: a in s.accounts
    ensures var ids, n := s.accountOrder, |s.entryOrder|;
            && SumOver(ids, |ids|, DebitsPendingAt(s)) == SumOver(ids, |ids|, PendingAt(s, n, Debit))
            && SumOver(ids, |ids|, CreditsPendingAt(s)) == SumOver(ids, |ids|, PendingAt(s, n, Credit))
  {
    var ids, n := s.accountOrder, |s.entryOrder|;
    assert forall a | a in s.accounts :: CounterOk(s, Journal(s), s.accounts[a]);
    SumOverSame(ids, |ids|, PendingAt(s, n, Debit), DebitsPendingAt(s));
    SumOverSame(ids, |ids|, PendingAt(s, n, Credit), CreditsPendingAt(s));
  }
}
