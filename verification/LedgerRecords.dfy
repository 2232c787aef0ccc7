/** What every transaction record says about its entries, and what the derived balances mean. */
module LedgerRecords {
  import opened LedgerTypes
  import opened LedgerEngine
  import opened LedgerSums
  import opened LedgerInvariant
  import opened LedgerPreservation
  import opened LedgerSafety
  import opened LedgerTwoPhase
  import opened LedgerEquation

  // ----- Balances -----

  /** The side that raises an account's balance, and the side that lowers it. */
  function Raises(normal: NormalBalance): Direction {
    if normal.CreditNormal? then Credit else Debit
  }

  function Lowers(normal: NormalBalance): Direction {
    if normal.CreditNormal? then Debit else Credit
  }

  /**
   In any reachable store: posted is what the POSTED entries raise less what they lower; available also
   takes off what open holds would lower, and counts nothing they would raise; that is pending.
   */
  lemma BalancesMeanJournal(s: Store, a: Id)
    requires Inv(s) && a in s.accounts
    ensures var acc, j := s.accounts[a], Journal(s);
            var up, down := Raises(acc.normalBalance), Lowers(acc.normalBalance);
            var b := ComputeBalances(acc);
            && b.posted == PostedOn(j, |j|, up, a) - PostedOn(j, |j|, down, a)
            && b.available == b.posted - PendingOn(s.entryOrder, |s.entryOrder|, s, down, a)
            && b.pending == PendingOn(s.entryOrder, |s.entryOrder|, s, up, a)
            && 0 <= b.pending && b.available <= b.posted
            && (!acc.allowsNegative ==> 0 <= b.available)
  {
    hide PostedOn, PendingOn, TransactionsIndexed, AccountsIndexed, Phases, Resolutions, RunningBalances, Balanced;
    var acc, j := s.accounts[a], Journal(s);
    assert CounterOk(s, j, acc) && acc.id == a;
    InvPositive(s);
    PendingOnNonNegative(s.entryOrder, |s.entryOrder|, s, Debit, a);
    PendingOnNonNegative(s.entryOrder, |s.entryOrder|, s, Credit, a);
    assert !ViolatesOverdraftGuard(acc);
  }

  // ----- Records -----

  /** Amount, dates and entries of a record agree with its status. */
  ghost predicate RecordOk(tx: Transaction, es: seq<Entry>) {
    && tx.amountCents == Total(Lines(es), Debit) == Total(Lines(es), Credit)
    && (tx.postedAt.Some? <==> tx.status.StatusPosted?)
    && (tx.voidedAt.Some? <==> tx.status.StatusVoided?)
    && (forall i | 0 <= i < |es| :: es[i].effectiveAt == tx.effectiveAt)
  }

  ghost predicate RecordsOk(s: Store) {
    forall t | t in s.transactions && t in s.entries :: RecordOk(s.transactions[t], s.entries[t])
  }

  lemma BuiltRecord(s: Store, lines: seq<Line>, tx: Transaction, mode: Mode, entryIds: nat -> Id)
    requires Keyed(s.accounts) && (forall i | 0 <= i < |lines| :: lines[i].accountId in s.accounts)
    requires Build(lines, |lines|, tx, mode, entryIds, LockAccounts(s, AccountIds(lines))).Built?
    ensures var es := Build(lines, |lines|, tx, mode, entryIds, LockAccounts(s, AccountIds(lines))).entries;
            Lines(es) == lines && forall i | 0 <= i < |es| :: es[i].effectiveAt == tx.effectiveAt
  {
    hide Build, LockAccounts, AccountIds, ComputeBalances, Affordable, LedgerSums.After;
    BuildOnStore(s, lines, tx, mode, entryIds);
  }

  lemma PostRecord(s: Store, input: PostInput, ctx: Context)
    requires Inv(s) && NewlyAccepted(Post(s, input, ctx).1)
    ensures var o := Post(s, input, ctx).1; RecordOk(o.transaction, o.entries)
  {
    hide Inv, Build, LockAccounts, AccountIds;
    InvKeyed(s);
    BuiltRecord(s, input.entries, PostTransaction(input, ctx), PostMode(input.phase), ctx.entryIds);
  }

  lemma PostKeepsRecords(s: Store, input: PostInput, ctx: Context)
    requires Inv(s) && RecordsOk(s) && FreshIds(s, PostAction(input, ctx))
    ensures RecordsOk(Post(s, input, ctx).0)
  {
    hide Inv, Post, RecordOk, Moves, Fits;
    InvKeyed(s);
    PostGrows(s, input, ctx);
    if NewlyAccepted(Post(s, input, ctx).1) {
      PostRecord(s, input, ctx);
    }
  }

  /** A resolution carries the hold's amount; its hold then carries the verdict's date. */
  lemma ResolveRecord(s: Store, pendingId: Id, options: ResolveOptions, commit: bool, ctx: Context)
    requires Inv(s) && RecordsOk(s) && NewlyAccepted(ResolvePending(s, pendingId, options, commit, ctx).1)
    ensures var o := ResolvePending(s, pendingId, options, commit, ctx).1; RecordOk(o.transaction, o.entries)
    ensures pendingId in s.transactions && pendingId in s.entries
    ensures RecordOk(Resolved(s.transactions[pendingId], commit, ctx.now), s.entries[pendingId])
  {
    hide Inv, Build, LockAccounts, AccountIds, Total;
    InvKeyed(s);
    HoldIsSound(s, pendingId);
    var pending := s.transactions[pendingId];
    var lines := Lines(EntriesOf(s, pendingId));
    assert RecordOk(pending, s.entries[pendingId]);
    var tx := ResolutionTransaction(pending.(id := pendingId), options, commit, ctx);
    BuiltRecord(s, lines, tx, ResolutionMode(commit), ctx.entryIds);
  }

  lemma ResolveKeepsRecords(s: Store, pendingId: Id, options: ResolveOptions, commit: bool, ctx: Context)
    requires Inv(s) && RecordsOk(s) && FreshIds(s, ResolveAction(pendingId, options, commit, ctx))
    ensures RecordsOk(ResolvePending(s, pendingId, options, commit, ctx).0)
  {
    hide Inv, ResolvePending, RecordOk, Moves;
    InvKeyed(s);
    HoldIsSound(s, pendingId);
    ResolveGrows(s, pendingId, options, commit, ctx);
    if NewlyAccepted(ResolvePending(s, pendingId, options, commit, ctx).1) {
      ResolveRecord(s, pendingId, options, commit, ctx);
    }
  }

  lemma StepKeepsRecords(s: Store, action: Action)
    requires Inv(s) && RecordsOk(s) && FreshIds(s, action)
    ensures RecordsOk(Step(s, action))
  {
    hide Inv, RecordOk, Post, ResolvePending, FreshIds;
    match action
    case OpenAccount(template, newId) =>
    case PostAction(input, ctx) => PostKeepsRecords(s, input, ctx);
    case ResolveAction(pendingId, options, commit, ctx) => ResolveKeepsRecords(s, pendingId, options, commit, ctx);
  }

  /**
   In every run, every record's amount is the total of each side of its entries, its entries carry its
   effective date, and it has a posting date exactly when POSTED and a voiding date exactly when VOIDED.
   */
  lemma {:induction false} RunKeepsRecords(actions: seq<Action>, n: nat)
    requires n <= |actions| && FreshRun(EMPTY, actions)
    ensures RecordsOk(StoreAfter(EMPTY, actions, n))
  {
    hide Inv, RecordOk, Step, FreshIds;
    if n > 0 {
      RunKeepsRecords(actions, n - 1);
      EmptyInv();
      RunKeepsInv(EMPTY, actions, n - 1);
      StepKeepsRecords(StoreAfter(EMPTY, actions, n - 1), actions[n - 1]);
    }
  }

  // ----- The balance sheet -----

  /** Each account's normal side is the one its type calls for. */
  ghost predicate SidesByType(s: Store) {
    forall a | a in s.accounts :: s.accounts[a].normalBalance == NormalBalanceFor(s.accounts[a].accountType)
  }

  lemma StepKeepsSides(s: Store, action: Action)
    requires Inv(s) && SidesByType(s) && FreshIds(s, action)
    ensures SidesByType(Step(s, action))
  {
    hide Inv, Post, ResolvePending, Indexes, Fits, Affordable, Balanced, ComputeBalances, On;
    InvKeyed(s);
    match action
    case OpenAccount(template, newId) =>
    case PostAction(input, ctx) => PostGrows(s, input, ctx);
    case ResolveAction(pendingId, options, commit, ctx) =>
      HoldIsSound(s, pendingId);
      ResolveGrows(s, pendingId, options, commit, ctx);
  }

  lemma {:induction false} RunKeepsSides(actions: seq<Action>, n: nat)
    requires n <= |actions| && FreshRun(EMPTY, actions)
    ensures SidesByType(StoreAfter(EMPTY, actions, n))
  {
    hide Inv, Step, FreshIds;
    if n > 0 {
      RunKeepsSides(actions, n - 1);
      EmptyInv();
      RunKeepsInv(EMPTY, actions, n - 1);
      StepKeepsSides(StoreAfter(EMPTY, actions, n - 1), actions[n - 1]);
    }
  }

  /** The posted balances of the first `n` accounts of the given type. */
  function TypeTotal(s: Store, n: nat, t: AccountType): int
    requires n <= |s.accountOrder| && forall a | a in s.accountOrder :: a in s.accounts
  {
    if n == 0 then 0
    else
      var acc := s.accounts[s.accountOrder[n - 1]];
      TypeTotal(s, n - 1, t) + (if acc.accountType == t then ComputeBalances(acc).posted else 0)
  }

  lemma {:induction false} TypeTotals(s: Store, n: nat)
    requires n <= |s.accountOrder| && (forall a | a in s.accountOrder :: a in s.accounts) && SidesByType(s)
    ensures NormalTotal(s, n, DebitNormal) == TypeTotal(s, n, Asset) + TypeTotal(s, n, Expense)
    ensures NormalTotal(s, n, CreditNormal) ==
            TypeTotal(s, n, Liability) + TypeTotal(s, n, Equity) + TypeTotal(s, n, Revenue)
  {
    hide ComputeBalances;
    if n > 0 {
      TypeTotals(s, n - 1);
    }
  }

  /** In every reachable store, assets and expenses together equal liabilities, equity and revenue. */
  lemma BalanceSheet(actions: seq<Action>)
    requires FreshRun(EMPTY, actions)
    ensures var s := StoreAfter(EMPTY, actions, |actions|);
            var n := |s.accountOrder|;
            && (forall a | a in s.accountOrder :: a in s.accounts)
            && TypeTotal(s, n, Asset) + TypeTotal(s, n, Expense) ==
               TypeTotal(s, n, Liability) + TypeTotal(s, n, Equity) + TypeTotal(s, n, Revenue)
  {
    hide Inv, FreshRun, SidesByType, NormalTotal, TypeTotal, StoreAfter;
    EmptyInv();
    RunKeepsInv(EMPTY, actions, |actions|);
    RunKeepsSides(actions, |actions|);
    var s := StoreAfter(EMPTY, actions, |actions|);
    AccountsListed(s);
    AccountingEquation(s);
    TypeTotals(s, |s.accountOrder|);
  }

  lemma AccountsListed(s: Store)
    requires Inv(s)
    ensures forall a | a in s.accountOrder :: a in s.accounts
  {
  }
}
