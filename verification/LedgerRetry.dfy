/** Idempotency of the ledger: what a key names, and what repeated and refused calls amount to. */
module LedgerRetry {
  import opened LedgerTypes
  import opened LedgerEngine
  import opened LedgerSums
  import opened LedgerInvariant
  import opened LedgerPreservation
  import opened LedgerSafety

  function OutcomeOf(s: Store, action: Action): Option<Outcome> {
    match action
    case OpenAccount(_, _) => None
    case PostAction(input, ctx) => Some(Post(s, input, ctx).1)
    case ResolveAction(pendingId, options, commit, ctx) => Some(ResolvePending(s, pendingId, options, commit, ctx).1)
  }

  function KeyOf(action: Action): Option<string> {
    match action
    case OpenAccount(_, _) => None
    case PostAction(input, _) => Some(input.idempotencyKey)
    case ResolveAction(_, options, _, _) => Some(options.idempotencyKey)
  }

  /** Did this call add something: a new account, or a transaction that is not a replay? */
  predicate TookEffect(s: Store, action: Action) {
    match action
    case OpenAccount(template, _) => template.code !in s.accountsByCode
    case _ => NewlyAccepted(OutcomeOf(s, action).value)
  }

  /** What never changes once written: entry lists, key bindings, and a record apart from its status and dates. */
  ghost predicate Extends(s: Store, s': Store) {
    && s.entries.Keys <= s'.entries.Keys && (forall t | t in s.entries :: s'.entries[t] == s.entries[t])
    && s.byIdempotencyKey.Keys <= s'.byIdempotencyKey.Keys
    && (forall k | k in s.byIdempotencyKey :: s'.byIdempotencyKey[k] == s.byIdempotencyKey[k])
    && s.transactions.Keys <= s'.transactions.Keys
    && (forall t | t in s.transactions ::
          && s'.transactions[t].(status := StatusPosted, postedAt := None, voidedAt := None) ==
             s.transactions[t].(status := StatusPosted, postedAt := None, voidedAt := None)
          && (!s.transactions[t].status.StatusPending? ==> s'.transactions[t] == s.transactions[t]))
    && s.accounts.Keys <= s'.accounts.Keys
    && (forall a | a in s.accounts ::
          && s'.accounts[a].normalBalance == s.accounts[a].normalBalance
          && s'.accounts[a].allowsNegative == s.accounts[a].allowsNegative
          && s'.accounts[a].accountType == s.accounts[a].accountType
          && s'.accounts[a].code == s.accounts[a].code)
    && s.entryOrder <= s'.entryOrder
    && s.accountsByCode.Keys <= s'.accountsByCode.Keys
    && (forall c | c in s.accountsByCode :: s'.accountsByCode[c] == s.accountsByCode[c])
  }

  lemma GrowsExtends(s: Store, s': Store, tx: Transaction, es: seq<Entry>, mode: Mode, closed: Option<Transaction>)
    requires Grows(s, s', tx, es, mode, closed) && s.entries.Keys == s.transactions.Keys
    requires closed.Some? ==> exists commit, now :: closed.value == Resolved(s.transactions[closed.value.id], commit, now)
    ensures Extends(s, s')
  {
    hide Affordable, Balanced, ComputeBalances, On, Touches;
  }

  /** A call that did not take effect changed nothing; one that did only added. */
  lemma StepExtends(s: Store, action: Action)
    requires Inv(s) && FreshIds(s, action)
    ensures Extends(s, Step(s, action))
    ensures !TookEffect(s, action) ==> Step(s, action) == s
    ensures TookEffect(s, action) && KeyOf(action).Some? ==>
              KeyOf(action).value !in s.byIdempotencyKey && KeyOf(action).value in Step(s, action).byIdempotencyKey
  {
    hide Inv, CreateAccount, Post, ResolvePending, Extends;
    match action
    case OpenAccount(template, newId) =>
      OpenExtends(s, template, newId);
    case PostAction(input, ctx) =>
      PostExtends(s, input, ctx);
    case ResolveAction(pendingId, options, commit, ctx) =>
      ResolveExtends(s, pendingId, options, commit, ctx);
  }

  lemma OpenExtends(s: Store, template: AccountTemplate, newId: Id)
    requires Inv(s) && newId !in s.accounts
    ensures var s' := CreateAccount(s, template, newId);
            Extends(s, s') && (template.code in s.accountsByCode ==> s' == s)
  {
    assert template.code in s.accountsByCode ==> s.accountsByCode[template.code] != NO_ID;
  }

  lemma PostExtends(s: Store, input: PostInput, ctx: Context)
    requires Inv(s) && FreshTransactionId(s, input.idempotencyKey, PostTransaction(input, ctx).id)
    ensures var (s', o) := Post(s, input, ctx);
            && Extends(s, s')
            && (!NewlyAccepted(o) ==> s' == s)
            && (NewlyAccepted(o) ==>
                  input.idempotencyKey !in s.byIdempotencyKey && input.idempotencyKey in s'.byIdempotencyKey)
  {
    hide Post, Moves, Fits, EntriesOk, CountersMatch, RunningBalances, Resolutions, Phases;
    InvTidy(s);
    PostGrows(s, input, ctx);
    var (s', o) := Post(s, input, ctx);
    if NewlyAccepted(o) {
      GrowsExtends(s, s', o.transaction, o.entries, PostMode(input.phase), None);
    }
  }

  lemma ResolveExtends(s: Store, pendingId: Id, options: ResolveOptions, commit: bool, ctx: Context)
    requires Inv(s) && FreshTransactionId(s, options.idempotencyKey, ctx.newId)
    ensures var (s', o) := ResolvePending(s, pendingId, options, commit, ctx);
            && Extends(s, s')
            && (!NewlyAccepted(o) ==> s' == s)
            && (NewlyAccepted(o) ==>
                  options.idempotencyKey !in s.byIdempotencyKey && options.idempotencyKey in s'.byIdempotencyKey)
  {
    hide ResolvePending, Moves, Fits, AccountsIndexed, EntriesOk, CountersMatch, RunningBalances, Resolutions, Phases;
    InvTidy(s);
    InvHoldSound(s, pendingId);
    ResolveGrows(s, pendingId, options, commit, ctx);
    var (s', o) := ResolvePending(s, pendingId, options, commit, ctx);
    if NewlyAccepted(o) {
      var closed := Resolved(s.transactions[pendingId], commit, ctx.now);
      assert closed.id == pendingId;
      GrowsExtends(s, s', o.transaction, o.entries, ResolutionMode(commit), Some(closed));
    }
  }

  lemma ExtendsTransitive(s1: Store, s2: Store, s3: Store)
    requires Extends(s1, s2) && Extends(s2, s3)
    ensures Extends(s1, s3)
  {
  }

  lemma ExtendsReflexive(s: Store)
    ensures Extends(s, s)
  {
  }

  /** Between any two points of a run the store only grows. */
  lemma {:induction false} ExtendsBetween(s: Store, actions: seq<Action>, i: nat, j: nat)
    requires i <= j <= |actions| && Inv(s) && FreshRun(s, actions)
    ensures Extends(StoreAfter(s, actions, i), StoreAfter(s, actions, j))
    decreases j
  {
    hide Inv, Step, FreshIds, Extends, TookEffect;
    if i == j {
      ExtendsReflexive(StoreAfter(s, actions, i));
    } else {
      ExtendsBetween(s, actions, i, j - 1);
      RunKeepsInv(s, actions, j - 1);
      var before := StoreAfter(s, actions, j - 1);
      assert FreshIds(before, actions[j - 1]);
      StepExtends(before, actions[j - 1]);
      ExtendsTransitive(StoreAfter(s, actions, i), before, Step(before, actions[j - 1]));
    }
  }

  /**
   A key names one transaction and one entry list for ever, and a record that has left PENDING never
   changes again, whatever calls follow.
   */
  lemma RunExtends(s: Store, actions: seq<Action>, n: nat)
    requires n <= |actions| && Inv(s) && FreshRun(s, actions)
    ensures Extends(s, StoreAfter(s, actions, n))
  {
    hide Inv, FreshRun, Extends;
    ExtendsBetween(s, actions, 0, n);
  }

  // ----- Retry erasure -----

  /** The calls among the first `n` that took effect, in order. */
  function Erased(s: Store, actions: seq<Action>, n: nat): seq<Action>
    requires n <= |actions|
  {
    if n == 0 then []
    else
      Erased(s, actions, n - 1) +
      (if TookEffect(StoreAfter(s, actions, n - 1), actions[n - 1]) then [actions[n - 1]] else [])
  }

  lemma {:induction false} StoreAfterPrefix(s: Store, actions: seq<Action>, more: seq<Action>, n: nat)
    requires n <= |actions|
    ensures StoreAfter(s, actions + more, n) == StoreAfter(s, actions, n)
  {
    hide Step;
    if n > 0 {
      StoreAfterPrefix(s, actions, more, n - 1);
    }
  }

  ghost predicate KeysOnce(actions: seq<Action>) {
    forall i, j | 0 <= i < j < |actions| && KeyOf(actions[i]).Some? :: KeyOf(actions[i]) != KeyOf(actions[j])
  }

  ghost predicate KeysSpent(actions: seq<Action>, s: Store) {
    forall i | 0 <= i < |actions| && KeyOf(actions[i]).Some? :: KeyOf(actions[i]).value in s.byIdempotencyKey
  }

  /**
   Dropping every replayed, refused and repeated call leaves the same store, and what is left uses
   each idempotency key once.
   */
  lemma {:induction false} RetryErasure(s: Store, actions: seq<Action>, n: nat)
    requires n <= |actions| && Inv(s) && FreshRun(s, actions)
    ensures var kept := Erased(s, actions, n);
            && StoreAfter(s, kept, |kept|) == StoreAfter(s, actions, n)
            && KeysOnce(kept)
            && KeysSpent(kept, StoreAfter(s, actions, n))
  {
    hide Inv, Step, FreshIds, TookEffect, KeyOf;
    if n > 0 {
      RetryErasure(s, actions, n - 1);
      RunKeepsInv(s, actions, n - 1);
      var before, action := StoreAfter(s, actions, n - 1), actions[n - 1];
      assert FreshIds(before, action);
      StepExtends(before, action);
      var kept := Erased(s, actions, n - 1);
      if TookEffect(before, action) {
        StoreAfterPrefix(s, kept, [action], |kept|);
        assert (kept + [action])[|kept|] == action;
      } else {
        assert kept + [] == kept;
      }
    }
  }
}
