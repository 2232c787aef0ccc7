/** The ledger's run-level guarantees: the invariant in every reachable store, and when it would be lost. */
module LedgerSafety {
  import opened LedgerTypes
  import opened LedgerEngine
  import opened LedgerSums
  import opened LedgerInvariant
  import opened LedgerPreservation

  // ----- Opening an account -----

  lemma {:induction false} UnknownPosted(j: seq<Entry>, n: nat, d: Direction, a: Id)
    requires n <= |j| && forall i | 0 <= i < |j| :: j[i].line.accountId != a
    ensures PostedOn(j, n, d, a) == 0 && EntryTally(j, n, a) == 0
  {
    if n > 0 {
      UnknownPosted(j, n - 1, d, a);
    }
  }

  lemma {:induction false} UnknownPending(order: seq<Id>, n: nat, s: Store, d: Direction, a: Id)
    requires n <= |order|
    requires forall t, i | t in s.entries && 0 <= i < |s.entries[t]| :: s.entries[t][i].line.accountId != a
    ensures PendingOn(order, n, s, d, a) == 0
  {
    if n > 0 {
      UnknownPending(order, n - 1, s, d, a);
      var lines := Lines(EntriesOf(s, order[n - 1]));
      UntouchedOn(lines, |lines|, d, a);
    }
  }

  lemma {:induction false} FlattenAccounts(s: Store, n: nat)
    requires n <= |s.entryOrder| && EntriesOk(s)
    ensures forall i | 0 <= i < |Flatten(s.entryOrder, n, s.entries)| ::
              Flatten(s.entryOrder, n, s.entries)[i].line.accountId in s.accounts
  {
    if n > 0 {
      FlattenAccounts(s, n - 1);
      var t := s.entryOrder[n - 1];
      if t in s.entries {
        assert forall i | 0 <= i < |s.entries[t]| :: EntryOk(s, s.entries[t][i], t, i, s.entries[t][0].phase);
      }
    }
  }

  /** Open-hold sums read the transactions and entries only, not the accounts. */
  lemma {:induction false} PendingIgnoresAccounts(order: seq<Id>, n: nat, s: Store, s': Store, d: Direction, a: Id)
    requires n <= |order| && s.transactions == s'.transactions && s.entries == s'.entries
    ensures PendingOn(order, n, s, d, a) == PendingOn(order, n, s', d, a)
  {
    if n > 0 {
      PendingIgnoresAccounts(order, n - 1, s, s', d, a);
    }
  }

  lemma OpenKeepsCounters(s: Store, template: AccountTemplate, newId: Id)
    requires EntriesOk(s) && CountersMatch(s)
    requires newId !in s.accounts
    ensures CountersMatch(CreateAccount(s, template, newId))
  {
    var s' := CreateAccount(s, template, newId);
    FlattenAccounts(s, |s.entryOrder|);
    var j := Journal(s);
    forall t, i | t in s.entries && 0 <= i < |s.entries[t]| ensures s.entries[t][i].line.accountId != newId {
      assert EntryOk(s, s.entries[t][i], t, i, s.entries[t][0].phase);
    }
    hide EntriesOk;
    forall a | a in s'.accounts ensures s'.accounts[a].id == a && CounterOk(s', j, s'.accounts[a]) {
      PendingIgnoresAccounts(s.entryOrder, |s.entryOrder|, s, s', Debit, a);
      PendingIgnoresAccounts(s.entryOrder, |s.entryOrder|, s, s', Credit, a);
      if a !in s.accounts {
        UnknownPosted(j, |j|, Debit, a);
        UnknownPosted(j, |j|, Credit, a);
        UnknownPending(s.entryOrder, |s.entryOrder|, s, Debit, a);
        UnknownPending(s.entryOrder, |s.entryOrder|, s, Credit, a);
      } else {
        assert CounterOk(s, j, s.accounts[a]);
      }
    }
  }

  lemma OpenKeepsIndexes(s: Store, template: AccountTemplate, newId: Id)
    requires AccountsIndexed(s) && newId !in s.accounts && newId != NO_ID
    ensures AccountsIndexed(CreateAccount(s, template, newId))
  {
    DistinctAppend(s.accountOrder, newId);
    hide Distinct;
  }

  ghost predicate SameTransactions(s: Store, s': Store) {
    && s'.transactions == s.transactions && s'.entries == s.entries && s'.entryOrder == s.entryOrder
    && s'.byIdempotencyKey == s.byIdempotencyKey
    && s.accounts.Keys <= s'.accounts.Keys
  }

  lemma SameTransactionsKeep(s: Store, s': Store)
    requires TransactionsIndexed(s) && EntriesOk(s) && Phases(s) && SameTransactions(s, s')
    ensures TransactionsIndexed(s') && EntriesOk(s') && Phases(s')
  {
    hide Distinct, Balanced;
    assert forall t | t in s.entries :: PhaseOk(s, t) && PhaseOk(s', t);
  }

  lemma SameResolutions(s: Store, s': Store)
    requires Resolutions(s) && SameTransactions(s, s')
    ensures Resolutions(s')
  {
    assert forall r, t :: Resolves(s', r, t) == Resolves(s, r, t);
    assert forall r, t | Resolves(s, r, t) :: ResolutionOk(s, r, t) && ResolutionOk(s', r, t);
    assert forall t | t in s.entries :: IsHold(s', t) == IsHold(s, t);
    hide Resolves, ResolutionOk, IsHold;
  }

  lemma OpenKeepsRunning(s: Store, template: AccountTemplate, newId: Id)
    requires RunningBalances(s) && newId !in s.accounts
    ensures RunningBalances(CreateAccount(s, template, newId))
  {
    var s' := CreateAccount(s, template, newId);
    var j := Journal(s);
    assert forall i | 0 <= i < |j| :: j[i].line.accountId in s.accounts && RunningPosted(s', j, i) == RunningPosted(s, j, i);
  }

  lemma OpenKeepsSolvent(s: Store, template: AccountTemplate, newId: Id)
    requires Solvent(s)
    ensures Solvent(CreateAccount(s, template, newId))
  {
  }

  lemma OpenKeepsInv(s: Store, template: AccountTemplate, newId: Id)
    requires Inv(s) && newId !in s.accounts && newId != NO_ID
    ensures Inv(CreateAccount(s, template, newId))
  {
    var s' := CreateAccount(s, template, newId);
    assert SameTransactions(s, s');
    hide AccountsIndexed, TransactionsIndexed, EntriesOk, Phases, Resolutions, CountersMatch, Solvent, RunningBalances,
         CreateAccount, SameTransactions;
    OpenKeepsIndexes(s, template, newId);
    SameTransactionsKeep(s, s');
    SameResolutions(s, s');
    OpenKeepsCounters(s, template, newId);
    OpenKeepsSolvent(s, template, newId);
    OpenKeepsRunning(s, template, newId);
  }

  // ----- Steps and runs -----

  /** Opening an account, posting, committing and voiding all keep the invariant. */
  lemma StepKeepsInv(s: Store, action: Action)
    requires Inv(s) && FreshIds(s, action)
    ensures Inv(Step(s, action))
  {
    hide Inv, CreateAccount, Post, ResolvePending;
    match action
    case OpenAccount(template, newId) =>
      OpenKeepsInv(s, template, newId);
    case PostAction(input, ctx) =>
      PostKeepsInv(s, input, ctx);
    case ResolveAction(pendingId, options, commit, ctx) =>
      ResolveKeepsInv(s, pendingId, options, commit, ctx);
  }

  lemma PostKeepsInv(s: Store, input: PostInput, ctx: Context)
    requires Inv(s) && FreshTransactionId(s, input.idempotencyKey, PostTransaction(input, ctx).id)
    ensures Inv(Post(s, input, ctx).0)
  {
    InvTidy(s);
    PostGrows(s, input, ctx);
    hide Inv, Grows, Post;
    var (s', o) := Post(s, input, ctx);
    if NewlyAccepted(o) {
      GrowsKeepsInv(s, s', o.transaction, o.entries, PostMode(input.phase), None);
    }
  }

  lemma InvHoldSound(s: Store, t: Id)
    requires TransactionsIndexed(s) && EntriesOk(s)
    ensures HoldSound(s, t)
  {
    if t in s.entries {
      assert forall i | 0 <= i < |s.entries[t]| :: EntryOk(s, s.entries[t][i], t, i, s.entries[t][0].phase);
    }
  }

  lemma ResolveKeepsInv(s: Store, pendingId: Id, options: ResolveOptions, commit: bool, ctx: Context)
    requires Inv(s) && FreshTransactionId(s, options.idempotencyKey, ctx.newId)
    ensures Inv(ResolvePending(s, pendingId, options, commit, ctx).0)
  {
    InvTidy(s);
    InvHoldSound(s, pendingId);
    ResolveGrows(s, pendingId, options, commit, ctx);
    hide Inv, Grows, ResolvePending;
    var (s', o) := ResolvePending(s, pendingId, options, commit, ctx);
    if NewlyAccepted(o) {
      GrowsKeepsInv(s, s', o.transaction, o.entries, ResolutionMode(commit),
                    Some(Resolved(s.transactions[pendingId], commit, ctx.now)));
    }
  }

  lemma EmptyInv()
    ensures Inv(EMPTY)
  {
    assert Journal(EMPTY) == [];
  }

  lemma {:induction false} RunKeepsInv(s: Store, actions: seq<Action>, n: nat)
    requires n <= |actions| && Inv(s) && FreshRun(s, actions)
    ensures Inv(StoreAfter(s, actions, n))
  {
    hide Inv, Step, FreshIds;
    if n > 0 {
      RunKeepsInv(s, actions, n - 1);
      assert FreshIds(StoreAfter(s, actions, n - 1), actions[n - 1]);
      StepKeepsInv(StoreAfter(s, actions, n - 1), actions[n - 1]);
    }
  }

  /** The invariant holds in every store any run of calls can produce. */
  lemma ReachableInv(s: Store)
    requires Reachable(s)
    ensures Inv(s)
  {
    var actions: seq<Action> :| FreshRun(EMPTY, actions) && s == StoreAfter(EMPTY, actions, |actions|);
    EmptyInv();
    RunKeepsInv(EMPTY, actions, |actions|);
  }

  /** A new id that is not empty is exactly what a newly accepted post needs. */
  lemma PostKeepsInvExactlyWhenFresh(s: Store, input: PostInput, ctx: Context)
    requires Inv(s) && NewlyAccepted(Post(s, input, ctx).1)
    ensures var id := PostTransaction(input, ctx).id;
            Inv(Post(s, input, ctx).0) <==> id != NO_ID && id !in s.transactions
  {
    hide Post;
    InvTidy(s);
    var id := PostTransaction(input, ctx).id;
    if id == NO_ID {
      EmptyIdLosesKey(s, input, ctx);
    } else if id !in s.transactions {
      PostKeepsInv(s, input, ctx);
    } else {
      StaleIdLosesRecord(s, input, ctx);
    }
  }

  /**
   An empty id of the caller's is kept, and although no record has it, the key it is stored under is not
   found again, so a repeat of the call is not recognised as one.
   */
  lemma EmptyIdLosesKey(s: Store, input: PostInput, ctx: Context)
    requires Inv(s) && NewlyAccepted(Post(s, input, ctx).1) && PostTransaction(input, ctx).id == NO_ID
    ensures NO_ID !in s.transactions
    ensures var s' := Post(s, input, ctx).0;
            && NO_ID in s'.transactions && !Inv(s')
            && input.idempotencyKey in s'.byIdempotencyKey && !Replays(s', input.idempotencyKey)
  {
    hide Post, AccountsIndexed, CountersMatch, RunningBalances, Resolutions, Phases, EntriesOk, Solvent;
    InvTidy(s);
    PostWrites(s, input, ctx);
    assert PostTransaction(input, ctx).idempotencyKey == input.idempotencyKey;
    assert NO_ID in Post(s, input, ctx).0.transactions;
    assert !TransactionsIndexed(Post(s, input, ctx).0);
  }

  /** What a newly accepted post writes under its id and its key, fresh or not. */
  lemma PostWrites(s: Store, input: PostInput, ctx: Context)
    requires Tidy(s) && NewlyAccepted(Post(s, input, ctx).1)
    ensures var (s', tx) := (Post(s, input, ctx).0, PostTransaction(input, ctx));
            && s'.transactions == s.transactions[tx.id := tx]
            && s'.byIdempotencyKey == s.byIdempotencyKey[tx.idempotencyKey := tx.id]
            && !Replays(s, tx.idempotencyKey)
  {
    hide Build, LockAccounts, AccountIds, Affordable, Balanced;
    BuildOnStore(s, input.entries, PostTransaction(input, ctx), PostMode(input.phase), ctx.entryIds);
    assert |input.entries| >= 2 by { AtLeastTwo(input.entries); }
  }

  lemma StaleIdLosesRecord(s: Store, input: PostInput, ctx: Context)
    requires Tidy(s) && NewlyAccepted(Post(s, input, ctx).1)
    requires var t := PostTransaction(input, ctx).id;
             && t in s.transactions
             && s.transactions[t].idempotencyKey in s.byIdempotencyKey
             && s.byIdempotencyKey[s.transactions[t].idempotencyKey] == t
    ensures !TransactionsIndexed(Post(s, input, ctx).0)
  {
    hide Post;
    var t := PostTransaction(input, ctx).id;
    var s' := Post(s, input, ctx).0;
    var key := s.transactions[t].idempotencyKey;
    PostWrites(s, input, ctx);
    assert s'.byIdempotencyKey[key] == t && s'.transactions[t].idempotencyKey == input.idempotencyKey;
  }
}
