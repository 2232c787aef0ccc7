/** Sums over lines, journals and open holds, and how a build and an append change them. */
module LedgerSums {
  import opened LedgerTypes
  import opened LedgerEngine

  // ----- Lines -----

  function Amount(line: Line, d: Direction, a: Id): int {
    if line.accountId == a && line.direction == d then line.amountCents else 0
  }

  /** What the first `n` lines put on side `d` of account `a`. */
  function On(lines: seq<Line>, n: nat, d: Direction, a: Id): int
    requires n <= |lines|
  {
    if n == 0 then 0 else On(lines, n - 1, d, a) + Amount(lines[n - 1], d, a)
  }

  function Touches(lines: seq<Line>, n: nat, a: Id): nat
    requires n <= |lines|
  {
    if n == 0 then 0 else Touches(lines, n - 1, a) + (if lines[n - 1].accountId == a then 1 else 0)
  }

  lemma {:induction false} OnNonNegative(lines: seq<Line>, n: nat, d: Direction, a: Id)
    requires n <= |lines| && AllPositive(lines)
    ensures On(lines, n, d, a) >= 0
  {
    if n > 0 {
      OnNonNegative(lines, n - 1, d, a);
    }
  }

  // ----- buildEntries in closed form -----

  /** The counters after debits and credits go through in the given mode. */
  function Shift(c: Counters, mode: Mode, debits: int, credits: int): Counters {
    match mode
    case Hold => c.(debitsPending := c.debitsPending + debits, creditsPending := c.creditsPending + credits)
    case Direct => c.(debitsPosted := c.debitsPosted + debits, creditsPosted := c.creditsPosted + credits)
    case CommitHold =>
      Counters(c.debitsPosted + debits, c.creditsPosted + credits, c.debitsPending - debits, c.creditsPending - credits)
    case VoidHold => c.(debitsPending := c.debitsPending - debits, creditsPending := c.creditsPending - credits)
  }

  function After(acc: Account, lines: seq<Line>, n: nat, mode: Mode): Account
    requires n <= |lines|
  {
    acc.(counters := Shift(acc.counters, mode, On(lines, n, Debit, acc.id), On(lines, n, Credit, acc.id)),
         entryCount := acc.entryCount + Touches(lines, n, acc.id),
         version := acc.version + Touches(lines, n, acc.id))
  }

  predicate Keyed(accounts: map<Id, Account>) {
    forall a | a in accounts :: accounts[a].id == a
  }

  /** Each of the first `n` lines finds its account and does not leave it overdrawn. */
  predicate Affordable(lines: seq<Line>, n: nat, mode: Mode, accounts: map<Id, Account>)
    requires n <= |lines|
  {
    forall i | 0 <= i < n ::
      && lines[i].accountId in accounts
      && !ViolatesOverdraftGuard(After(accounts[lines[i].accountId], lines, i + 1, mode))
  }

  function EntryAt(lines: seq<Line>, i: nat, tx: Transaction, mode: Mode, entryId: Id, accounts: map<Id, Account>): Entry
    requires i < |lines| && lines[i].accountId in accounts
  {
    Entry(entryId, tx.id, lines[i], EntryPhaseOf(mode), i,
          ComputeBalances(After(accounts[lines[i].accountId], lines, i + 1, mode)).posted, tx.effectiveAt)
  }

  lemma AfterStep(acc: Account, lines: seq<Line>, n: nat, mode: Mode)
    requires 0 < n <= |lines|
    ensures After(acc, lines, n, mode) ==
            if lines[n - 1].accountId == acc.id
            then ApplyDelta(After(acc, lines, n - 1, mode), Delta(mode, lines[n - 1]))
            else After(acc, lines, n - 1, mode)
  {
  }

  /** The result of a build that went through, in closed form. */
  ghost predicate BuiltAs(r: BuildResult, lines: seq<Line>, n: nat, tx: Transaction, mode: Mode, entryIds: nat -> Id,
                          accounts: map<Id, Account>)
    requires n <= |lines| && Affordable(lines, n, mode, accounts)
  {
    && r.Built?
    && r.accounts.Keys == accounts.Keys
    && (forall a | a in accounts :: r.accounts[a] == After(accounts[a], lines, n, mode))
    && |r.entries| == n
    && (forall i | 0 <= i < n :: r.entries[i] == EntryAt(lines, i, tx, mode, entryIds(i), accounts))
  }

  /** The build succeeds exactly when every line is affordable, and then sums line by line. */
  lemma {:induction false} BuildSpec(lines: seq<Line>, n: nat, tx: Transaction, mode: Mode, entryIds: nat -> Id,
                                     accounts: map<Id, Account>)
    requires n <= |lines| && Keyed(accounts)
    ensures var r := Build(lines, n, tx, mode, entryIds, accounts);
            && (r.Built? <==> Affordable(lines, n, mode, accounts))
            && (r.Built? ==> BuiltAs(r, lines, n, tx, mode, entryIds, accounts))
  {
    if n > 0 {
      BuildSpec(lines, n - 1, tx, mode, entryIds, accounts);
      var r := Build(lines, n - 1, tx, mode, entryIds, accounts);
      if r.Built? {
        BuildStep(r, lines, n, tx, mode, entryIds, accounts);
      }
    }
  }

  lemma BuildStep(r: BuildResult, lines: seq<Line>, n: nat, tx: Transaction, mode: Mode, entryIds: nat -> Id,
                  accounts: map<Id, Account>)
    requires 0 < n <= |lines| && Keyed(accounts)
    requires Affordable(lines, n - 1, mode, accounts) && BuiltAs(r, lines, n - 1, tx, mode, entryIds, accounts)
    ensures var r' := BuildOne(r, lines[n - 1], n - 1, tx, mode, entryIds(n - 1));
            && (r'.Built? <==> Affordable(lines, n, mode, accounts))
            && (r'.Built? ==> BuiltAs(r', lines, n, tx, mode, entryIds, accounts))
  {
    hide After, ApplyDelta, Delta, ComputeBalances, ViolatesOverdraftGuard, On, Touches, Shift;
    var line := lines[n - 1];
    if line.accountId in accounts {
      AfterStep(accounts[line.accountId], lines, n, mode);
    }
    var r' := BuildOne(r, line, n - 1, tx, mode, entryIds(n - 1));
    if r'.Built? {
      forall a | a in accounts ensures r'.accounts[a] == After(accounts[a], lines, n, mode) {
        AfterStep(accounts[a], lines, n, mode);
      }
      assert EntryAt(lines, n - 1, tx, mode, entryIds(n - 1), accounts) == r'.entries[n - 1];
    }
  }

  /** An account that no line leaves overdrawn ends up not overdrawn. */
  lemma {:induction false} AffordableKeepsSolvent(lines: seq<Line>, n: nat, mode: Mode, accounts: map<Id, Account>, a: Id)
    requires n <= |lines| && Keyed(accounts) && Affordable(lines, n, mode, accounts)
    requires a in accounts && !ViolatesOverdraftGuard(accounts[a])
    ensures !ViolatesOverdraftGuard(After(accounts[a], lines, n, mode))
  {
    if n > 0 && lines[n - 1].accountId != a {
      AffordableKeepsSolvent(lines, n - 1, mode, accounts, a);
      AfterStep(accounts[a], lines, n, mode);
    }
  }

  // ----- Journals -----

  function Flatten(order: seq<Id>, n: nat, entries: map<Id, seq<Entry>>): seq<Entry>
    requires n <= |order|
  {
    if n == 0 then []
    else Flatten(order, n - 1, entries) + (if order[n - 1] in entries then entries[order[n - 1]] else [])
  }

  /** `allEntries`: the entry lists in the order their transactions were first persisted. */
  function Journal(s: Store): seq<Entry> {
    Flatten(s.entryOrder, |s.entryOrder|, s.entries)
  }

  function PostedAmount(e: Entry, d: Direction, a: Id): int {
    if e.phase.PhasePosted? then Amount(e.line, d, a) else 0
  }

  /** The POSTED entries on side `d` of account `a` among the first `n` entries. */
  function PostedOn(journal: seq<Entry>, n: nat, d: Direction, a: Id): int
    requires n <= |journal|
  {
    if n == 0 then 0 else PostedOn(journal, n - 1, d, a) + PostedAmount(journal[n - 1], d, a)
  }

  function EntryTally(journal: seq<Entry>, n: nat, a: Id): nat
    requires n <= |journal|
  {
    if n == 0 then 0 else EntryTally(journal, n - 1, a) + (if journal[n - 1].line.accountId == a then 1 else 0)
  }

  predicate IsOpenHold(s: Store, t: Id) {
    t in s.transactions && s.transactions[t].status.StatusPending?
  }

  function HeldBy(s: Store, t: Id, d: Direction, a: Id): int {
    var lines := Lines(EntriesOf(s, t));
    if IsOpenHold(s, t) then On(lines, |lines|, d, a) else 0
  }

  /** What those of the first `n` transactions that are still PENDING hold on side `d` of account `a`. */
  function PendingOn(order: seq<Id>, n: nat, s: Store, d: Direction, a: Id): int
    requires n <= |order|
  {
    if n == 0 then 0 else PendingOn(order, n - 1, s, d, a) + HeldBy(s, order[n - 1], d, a)
  }

  lemma {:induction false} FlattenFrame(o1: seq<Id>, o2: seq<Id>, n: nat, e1: map<Id, seq<Entry>>, e2: map<Id, seq<Entry>>)
    requires n <= |o1| && n <= |o2|
    requires forall i | 0 <= i < n :: o1[i] == o2[i] && o1[i] in e1 && o1[i] in e2 && e1[o1[i]] == e2[o1[i]]
    ensures Flatten(o1, n, e1) == Flatten(o2, n, e2)
  {
    if n > 0 {
      FlattenFrame(o1, o2, n - 1, e1, e2);
    }
  }

  lemma {:induction false} PostedOnPrefix(j1: seq<Entry>, j2: seq<Entry>, n: nat, d: Direction, a: Id)
    requires n <= |j1|
    ensures PostedOn(j1 + j2, n, d, a) == PostedOn(j1, n, d, a)
    ensures EntryTally(j1 + j2, n, a) == EntryTally(j1, n, a)
  {
    if n > 0 {
      PostedOnPrefix(j1, j2, n - 1, d, a);
    }
  }

  /** Appending entries that are all in one phase. */
  lemma {:induction false} PostedOnAppend(j: seq<Entry>, es: seq<Entry>, n: nat, d: Direction, a: Id, phase: Phase)
    requires n <= |es|
    requires forall i | 0 <= i < |es| :: es[i].phase == phase
    ensures PostedOn(j + es, |j| + n, d, a) ==
            PostedOn(j, |j|, d, a) + (if phase.PhasePosted? then On(Lines(es), n, d, a) else 0)
    ensures EntryTally(j + es, |j| + n, a) == EntryTally(j, |j|, a) + Touches(Lines(es), n, a)
  {
    if n == 0 {
      PostedOnPrefix(j, es, |j|, d, a);
    } else {
      PostedOnAppend(j, es, n - 1, d, a, phase);
      assert (j + es)[|j| + n - 1] == es[n - 1];
    }
  }

  /** The open-hold sum depends only on the statuses and entries it reads. */
  lemma {:induction false} PendingOnFrame(o1: seq<Id>, o2: seq<Id>, n: nat, s1: Store, s2: Store, d: Direction, a: Id)
    requires n <= |o1| && n <= |o2|
    requires forall i | 0 <= i < n :: o1[i] == o2[i] && HeldBy(s1, o1[i], d, a) == HeldBy(s2, o1[i], d, a)
    ensures PendingOn(o1, n, s1, d, a) == PendingOn(o2, n, s2, d, a)
  {
    if n > 0 {
      PendingOnFrame(o1, o2, n - 1, s1, s2, d, a);
    }
  }

  predicate Distinct(ids: seq<Id>) {
    forall i, j | 0 <= i < j < |ids| :: ids[i] != ids[j]
  }

  /** Closing one hold takes its lines, once, out of the open-hold sum. */
  lemma {:induction false} PendingOnClose(order: seq<Id>, n: nat, s1: Store, s2: Store, k: nat, d: Direction, a: Id)
    requires k < n <= |order| && Distinct(order)
    requires forall i | 0 <= i < n && i != k :: HeldBy(s1, order[i], d, a) == HeldBy(s2, order[i], d, a)
    requires HeldBy(s2, order[k], d, a) == 0
    ensures PendingOn(order, n, s2, d, a) == PendingOn(order, n, s1, d, a) - HeldBy(s1, order[k], d, a)
  {
    if k == n - 1 {
      PendingOnFrame(order, order, n - 1, s1, s2, d, a);
    } else {
      PendingOnClose(order, n - 1, s1, s2, k, d, a);
    }
  }

  lemma {:induction false} PendingOnNonNegative(order: seq<Id>, n: nat, s: Store, d: Direction, a: Id)
    requires n <= |order|
    requires forall t | t in s.entries :: AllPositive(Lines(s.entries[t]))
    ensures PendingOn(order, n, s, d, a) >= 0
  {
    if n > 0 {
      PendingOnNonNegative(order, n - 1, s, d, a);
      var lines := Lines(EntriesOf(s, order[n - 1]));
      OnNonNegative(lines, |lines|, d, a);
    }
  }
}
