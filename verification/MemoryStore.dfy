/**
 The in-memory store and the engine as the objects they are: packages/ledger/src/memory-store.ts and
 the methods of packages/ledger/src/engine.ts. Each method is proved against the value-level step.
 */
module MemoryStore {
  import opened LedgerTypes
  import Core = LedgerEngine
  import opened LedgerSums
  import opened LedgerInvariant
  import LedgerSafety
  import LockOrder

  /** packages/ledger/src/chart-of-accounts.ts */
  const EXTERNAL_WORLD := "9000"

  const SINGLETON_ACCOUNTS: seq<Core.AccountTemplate> := [
    Core.AccountTemplate("1000", Asset, false),
    Core.AccountTemplate("1100", Asset, false),
    Core.AccountTemplate("1900", Asset, false),
    Core.AccountTemplate("2200", Liability, false),
    Core.AccountTemplate("2300", Liability, false),
    Core.AccountTemplate("2900", Liability, false),
    Core.AccountTemplate("3000", Equity, false),
    Core.AccountTemplate("4000", Revenue, false),
    Core.AccountTemplate("5000", Expense, false),
    Core.AccountTemplate(EXTERNAL_WORLD, Asset, true)]

  /** `customerAvailableCode` and `customerBlockedCode`. */
  function CustomerCode(customer: string, blocked: bool): string {
    (if blocked then "2100." else "2000.") + customer
  }

  /** One of the two templates of `customerAccountTemplates`. */
  function CustomerTemplate(customer: string, blocked: bool): Core.AccountTemplate {
    Core.AccountTemplate(CustomerCode(customer, blocked), Liability, false)
  }

  /** The store after the first `n` singleton accounts have been opened under the given ids. */
  function Seeded(ids: seq<Id>, n: nat): Core.Store
    requires n <= |ids| && n <= |SINGLETON_ACCOUNTS|
  {
    if n == 0 then Core.EMPTY else Core.CreateAccount(Seeded(ids, n - 1), SINGLETON_ACCOUNTS[n - 1], ids[n - 1])
  }

  class InMemoryLedgerStore {
    var accounts: map<Id, Account>
    var accountOrder: seq<Id>
    var accountsByCode: map<string, Id>
    var transactions: map<Id, Transaction>
    var entries: map<Id, seq<Entry>>
    var entryOrder: seq<Id>
    var byIdempotencyKey: map<string, Id>

    ghost function Value(): Core.Store
      reads this
    {
      Core.Store(accounts, accountOrder, accountsByCode, transactions, entries, entryOrder, byIdempotencyKey)
    }

    constructor (ids: seq<Id>)
      requires |ids| == |SINGLETON_ACCOUNTS| && Distinct(ids) && NO_ID !in ids
      ensures Value() == Seeded(ids, |ids|)
      ensures Inv(Value())
    {
      accounts, accountOrder, accountsByCode := map[], [], map[];
      transactions, entries, entryOrder, byIdempotencyKey := map[], map[], [], map[];
      new;
      LedgerSafety.EmptyInv();
      for i := 0 to |SINGLETON_ACCOUNTS|
        invariant Value() == Seeded(ids, i)
        invariant Inv(Value())
        invariant forall a | a in accounts :: a in ids[..i]
      {
        hide Inv;
        assert ids[i] !in ids[..i];
        LedgerSafety.OpenKeepsInv(Value(), SINGLETON_ACCOUNTS[i], ids[i]);
        var _ := CreateAccount(SINGLETON_ACCOUNTS[i], ids[i]);
      }
    }

    method CreateAccount(template: Core.AccountTemplate, newId: Id) returns (account: Account)
      requires AccountsIndexed(Value()) && newId != NO_ID && newId !in accounts
      modifies this
      ensures Value() == Core.CreateAccount(old(Value()), template, newId)
      ensures template.code in accountsByCode && account == accounts[accountsByCode[template.code]]
      ensures template.code in old(accountsByCode) ==> unchanged(this)
      ensures template.code !in old(accountsByCode) ==>
                && accounts == old(accounts)[newId := account] && account.id == newId && account.code == template.code
                && account.accountType == template.accountType && account.allowsNegative == template.allowsNegative
                && account.counters == Counters(0, 0, 0, 0) && account.entryCount == 0 && account.version == 0
    {
      if template.code in accountsByCode && accountsByCode[template.code] != NO_ID {
        account := accounts[accountsByCode[template.code]];
      } else {
        account := Core.NewAccount(template, newId);
        if newId !in accounts {
          accountOrder := accountOrder + [newId];
        }
        accounts := accounts[newId := account];
        accountsByCode := accountsByCode[template.code := newId];
      }
    }

    /** Opens the pair of a customer, or finds the accounts opened before. */
    method OpenCustomerAccounts(customer: string, ids: (Id, Id)) returns (available: Account, blocked: Account)
      requires AccountsIndexed(Value()) && NO_ID !in {ids.0, ids.1} && ids.0 !in accounts && ids.1 !in accounts && ids.0 != ids.1
      modifies this
      ensures Value() == Core.CreateAccount(Core.CreateAccount(old(Value()), CustomerTemplate(customer, false), ids.0),
                                            CustomerTemplate(customer, true), ids.1)
      ensures AccountsIndexed(Value()) && available.id != blocked.id
      ensures available.code == CustomerCode(customer, false) && blocked.code == CustomerCode(customer, true)
      ensures available.id in accounts && accounts[available.id] == available
      ensures blocked.id in accounts && accounts[blocked.id] == blocked
    {
      LedgerSafety.OpenKeepsIndexes(Value(), CustomerTemplate(customer, false), ids.0);
      assert CustomerCode(customer, false)[1] != CustomerCode(customer, true)[1];
      available := CreateAccount(CustomerTemplate(customer, false), ids.0);
      LedgerSafety.OpenKeepsIndexes(Value(), CustomerTemplate(customer, true), ids.1);
      blocked := CreateAccount(CustomerTemplate(customer, true), ids.1);
    }

    method LockAccounts(orderedIds: seq<Id>) returns (locked: map<Id, Account>)
      ensures locked == Core.LockAccounts(Value(), set a | a in orderedIds)
    {
      locked := map[];
      for i := 0 to |orderedIds|
        invariant locked == Core.LockAccounts(Value(), set a | a in orderedIds[..i])
      {
        var id := orderedIds[i];
        assert orderedIds[..i + 1] == orderedIds[..i] + [id];
        if id in accounts {
          locked := locked[id := accounts[id]];
        }
      }
      assert orderedIds[..|orderedIds|] == orderedIds;
    }

    method FindByIdempotencyKey(key: string) returns (found: Option<Outcome>)
      ensures found == if Core.Replays(Value(), key) then Some(Core.Replay(Value(), key)) else None
      ensures found.Some? <==>
              key in byIdempotencyKey && byIdempotencyKey[key] != NO_ID && byIdempotencyKey[key] in transactions
      ensures found.Some? ==>
                var id := byIdempotencyKey[key];
                && found.value.Accepted? && found.value.replayed && found.value.transaction == transactions[id]
                && (id in entries ==> found.value.entries == entries[id])
                && (id !in entries ==> found.value.entries == [])
    {
      if key !in byIdempotencyKey || byIdempotencyKey[key] == NO_ID || byIdempotencyKey[key] !in transactions {
        return None;
      }
      var id := byIdempotencyKey[key];
      found := Some(Accepted(transactions[id], if id in entries then entries[id] else [], true));
    }

    method Persist(transaction: Transaction, newEntries: seq<Entry>, newAccounts: map<Id, Account>)
      modifies this
      ensures Value() == Core.Persist(old(Value()), transaction, newEntries, newAccounts)
    {
      transactions := transactions[transaction.id := transaction];
      if |newEntries| > 0 {
        if transaction.id !in entries {
          entryOrder := entryOrder + [transaction.id];
        }
        entries := entries[transaction.id := newEntries];
        byIdempotencyKey := byIdempotencyKey[transaction.idempotencyKey := transaction.id];
      }
      accounts := accounts + newAccounts;
    }
  }

  class Engine {
    const store: InMemoryLedgerStore

    constructor (store: InMemoryLedgerStore)
      ensures this.store == store
    {
      this.store := store;
    }

    /** Accepts exactly the balanced line lists, and answers their common total. */
    static method AssertBalanced(lines: seq<Line>) returns (debits: int, error: Option<LedgerError>)
      ensures error == Core.BalanceError(lines)
      ensures error.None? <==> Core.Balanced(lines)
      ensures error.None? ==> debits == Core.Total(lines, Debit) == Core.Total(lines, Credit)
    {
      debits := 0;
      if |lines| < 2 {
        return 0, Some(TooFewEntries);
      }
      var credits := 0;
      for i := 0 to |lines|
        invariant debits == Core.SideSum(lines, i, Debit) && credits == Core.SideSum(lines, i, Credit)
        invariant forall k | 0 <= k < i :: lines[k].amountCents > 0
      {
        if lines[i].amountCents <= 0 {
          FirstBad(lines, 0, i);
          return 0, Some(NonPositiveAmount(lines[i].amountCents));
        }
        if lines[i].direction == Debit {
          debits := debits + lines[i].amountCents;
        } else {
          credits := credits + lines[i].amountCents;
        }
      }
      FirstBad(lines, 0, |lines|);
      error := if debits != credits then Some(Unbalanced(debits, credits)) else None;
    }

    static lemma FirstBad(lines: seq<Line>, from: nat, k: nat)
      requires from <= k <= |lines|
      requires forall i | from <= i < k :: lines[i].amountCents > 0
      requires k < |lines| ==> lines[k].amountCents <= 0
      ensures Core.FirstNonPositive(lines, from) == k
    {
      var found := Core.FirstNonPositive(lines, from);
      assert !(found < k) && !(k < found);
    }

    /** The loop over the lines, working on the locked copies. */
    static method BuildEntries(lines: seq<Line>, tx: Transaction, mode: Core.Mode, entryIds: nat -> Id,
                               locked: map<Id, Account>) returns (r: Core.BuildResult)
      ensures r == Core.Build(lines, |lines|, tx, mode, entryIds, locked)
    {
      hide Core.Delta, Core.ApplyDelta, ViolatesOverdraftGuard, ComputeBalances;
      var accounts: map<Id, Account>, entries: seq<Entry> := locked, [];
      for i := 0 to |lines|
        invariant Core.Build(lines, i, tx, mode, entryIds, locked) == Core.Built(accounts, entries)
      {
        var line := lines[i];
        if line.accountId !in accounts {
          FailureStays(lines, i + 1, |lines|, tx, mode, entryIds, locked);
          return Core.BuildFailed(AccountMissing(line.accountId));
        }
        var before := accounts[line.accountId];
        var after := Core.ApplyDelta(before, Core.Delta(mode, line));
        if ViolatesOverdraftGuard(after) {
          FailureStays(lines, i + 1, |lines|, tx, mode, entryIds, locked);
          return Core.BuildFailed(InsufficientFunds(line.accountId, line.amountCents, ComputeBalances(before).available));
        }
        accounts := accounts[line.accountId := after];
        entries := entries + [Entry(entryIds(i), tx.id, line, Core.EntryPhaseOf(mode), i,
                                    ComputeBalances(after).posted, tx.effectiveAt)];
      }
      r := Core.Built(accounts, entries);
    }

    /** The first exception is the one the whole loop throws. */
    static lemma {:induction false} FailureStays(lines: seq<Line>, n: nat, m: nat, tx: Transaction, mode: Core.Mode,
                                                 entryIds: nat -> Id, accounts: map<Id, Account>)
      requires n <= m <= |lines| && Core.Build(lines, n, tx, mode, entryIds, accounts).BuildFailed?
      ensures Core.Build(lines, m, tx, mode, entryIds, accounts) == Core.Build(lines, n, tx, mode, entryIds, accounts)
    {
      if n < m {
        FailureStays(lines, n, m - 1, tx, mode, entryIds, accounts);
      }
    }

    method MissingAccount(lines: seq<Line>, locked: map<Id, Account>) returns (missing: Option<Id>)
      requires locked == Core.LockAccounts(store.Value(), Core.AccountIds(lines))
      ensures missing == (var k := Core.FirstMissing(store.Value(), lines, 0);
                          if k < |lines| then Some(lines[k].accountId) else None)
    {
      for i := 0 to |lines|
        invariant forall k | 0 <= k < i :: lines[k].accountId in store.accounts
      {
        assert lines[i].accountId in Core.AccountIds(lines);
        if lines[i].accountId !in locked {
          return Some(lines[i].accountId);
        }
      }
      missing := None;
    }

    /** A post is the value-level step, so it keeps the ledger invariant. */
    method Post(input: PostInput, ctx: Core.Context) returns (o: Outcome)
      requires Inv(store.Value())
      requires FreshTransactionId(store.Value(), input.idempotencyKey, Core.PostTransaction(input, ctx).id)
      modifies store
      ensures (store.Value(), o) == Core.Post(old(store.Value()), input, ctx)
      ensures Inv(store.Value())
    {
      hide Inv, Core.Build, Core.Persist, Core.PostTransaction, FreshTransactionId;
      LedgerSafety.PostKeepsInv(store.Value(), input, ctx);
      var found := store.FindByIdempotencyKey(input.idempotencyKey);
      if found.Some? {
        return found.value;
      }
      var debits, bad := AssertBalanced(input.entries);
      if bad.Some? {
        return Refused(bad.value);
      }
      var order := LockOrder.LockOrder(input.entries);
      assert (set a | a in order) == Core.AccountIds(input.entries);
      var locked := store.LockAccounts(order);
      var missing := MissingAccount(input.entries, locked);
      if missing.Some? {
        return Refused(AccountMissing(missing.value));
      }
      var tx := Core.PostTransaction(input, ctx);
      var r := BuildEntries(input.entries, tx, Core.PostMode(input.phase), ctx.entryIds, locked);
      if r.BuildFailed? {
        return Refused(r.error);
      }
      store.Persist(tx, r.entries, r.accounts);
      o := Accepted(tx, r.entries, false);
    }

    method CommitPending(pendingId: Id, options: Core.ResolveOptions, ctx: Core.Context) returns (o: Outcome)
      requires Inv(store.Value()) && FreshTransactionId(store.Value(), options.idempotencyKey, ctx.newId)
      modifies store
      ensures (store.Value(), o) == Core.ResolvePending(old(store.Value()), pendingId, options, true, ctx)
      ensures Inv(store.Value())
    {
      o := ResolvePending(pendingId, options, true, ctx);
    }

    method VoidPending(pendingId: Id, options: Core.ResolveOptions, ctx: Core.Context) returns (o: Outcome)
      requires Inv(store.Value()) && FreshTransactionId(store.Value(), options.idempotencyKey, ctx.newId)
      modifies store
      ensures (store.Value(), o) == Core.ResolvePending(old(store.Value()), pendingId, options, false, ctx)
      ensures Inv(store.Value())
    {
      o := ResolvePending(pendingId, options, false, ctx);
    }

    method ResolvePending(pendingId: Id, options: Core.ResolveOptions, commit: bool, ctx: Core.Context) returns (o: Outcome)
      requires Inv(store.Value()) && FreshTransactionId(store.Value(), options.idempotencyKey, ctx.newId)
      modifies store
      ensures (store.Value(), o) == Core.ResolvePending(old(store.Value()), pendingId, options, commit, ctx)
      ensures Inv(store.Value())
    {
      hide Inv, Core.Build, Core.Persist, Core.ResolutionTransaction, Core.Resolved, Core.Lines, FreshTransactionId;
      LedgerSafety.ResolveKeepsInv(store.Value(), pendingId, options, commit, ctx);
      var found := store.FindByIdempotencyKey(options.idempotencyKey);
      if found.Some? {
        return found.value;
      }
      if pendingId !in store.transactions {
        return Refused(PendingNotFound(pendingId));
      }
      var pending := store.transactions[pendingId];
      if pending.status != StatusPending {
        return Refused(NotPending(pendingId, pending.status));
      }
      var lines := Core.Lines(if pendingId in store.entries then store.entries[pendingId] else []);
      assert lines == Core.Lines(Core.EntriesOf(store.Value(), pendingId));
      var order := LockOrder.LockOrder(lines);
      assert (set a | a in order) == Core.AccountIds(lines);
      var locked := store.LockAccounts(order);
      assert locked == Core.LockAccounts(store.Value(), Core.AccountIds(lines));
      var tx := Core.ResolutionTransaction(pending.(id := pendingId), options, commit, ctx);
      var r := BuildEntries(lines, tx, Core.ResolutionMode(commit), ctx.entryIds, locked);
      if r.BuildFailed? {
        return Refused(r.error);
      }
      store.Persist(tx, r.entries, r.accounts);
      store.Persist(Core.Resolved(pending, commit, ctx.now), [], map[]);
      o := Accepted(tx, r.entries, false);
    }
  }
}
