/**
 A hold that is committed later against one direct post, call by call: whatever goes through while the
 hold stands also goes through after the direct post, and both ledgers end with the same counters.
 */
module LedgerDirect {
  import opened LedgerTypes
  import opened LedgerEngine
  import opened LedgerSums
  import opened LedgerInvariant
  import opened LedgerPreservation
  import opened LedgerSafety
  import opened LedgerRetry
  import opened LedgerTwoPhase
  import opened ShadowLedger

  /** The account with the held lines posted instead. */
  function Committed(acc: Account, lines: seq<Line>): Account {
    acc.(counters := Shift(acc.counters, CommitHold, On(lines, |lines|, Debit, acc.id), On(lines, |lines|, Credit, acc.id)))
  }

  /** Same keys, same transactions, same lines, same statuses except for the hold `t`. */
  ghost predicate SameBooks(h: Store, d: Store, t: Id) {
    && d.transactions.Keys == h.transactions.Keys
    && d.entries.Keys == h.entries.Keys
    && d.byIdempotencyKey == h.byIdempotencyKey
    && d.accountsByCode == h.accountsByCode
    && (forall u | u in h.transactions && u != t :: d.transactions[u].status == h.transactions[u].status)
    && (forall u | u in h.entries :: Lines(d.entries[u]) == Lines(h.entries[u]))
  }

  ghost predicate SameAccounts(h: Store, d: Store, lines: seq<Line>) {
    && d.accounts.Keys == h.accounts.Keys
    && forall a | a in h.accounts :: d.accounts[a] == Committed(h.accounts[a], lines)
  }

  /** `h` still holds what `d` has posted. */
  ghost predicate Ahead(h: Store, d: Store, t: Id, lines: seq<Line>) {
    && SameBooks(h, d, t)
    && SameAccounts(h, d, lines)
    && IsOpenHold(h, t) && t in h.entries && Lines(h.entries[t]) == lines
    && AllPositive(lines) && (forall i | 0 <= i < |lines| :: lines[i].accountId in h.accounts)
  }

  // ----- Accounts -----

  /** Posting what was held never lowers an available balance, whatever is applied on top. */
  lemma CommittedHasRoom(acc: Account, lines: seq<Line>, ls: seq<Line>, n: nat, mode: Mode)
    requires AllPositive(lines) && n <= |ls| && !ViolatesOverdraftGuard(After(acc, ls, n, mode))
    ensures !ViolatesOverdraftGuard(After(Committed(acc, lines), ls, n, mode))
  {
    hide On, Touches;
    OnNonNegative(lines, |lines|, Debit, acc.id);
    OnNonNegative(lines, |lines|, Credit, acc.id);
  }

  lemma AffordableToo(h: Store, d: Store, lines: seq<Line>, ls: seq<Line>, mode: Mode)
    requires SameAccounts(h, d, lines) && AllPositive(lines) && Affordable(ls, |ls|, mode, h.accounts)
    ensures Affordable(ls, |ls|, mode, d.accounts)
  {
    hide Committed, After, ViolatesOverdraftGuard;
    forall i | 0 <= i < |ls|
      ensures ls[i].accountId in d.accounts && !ViolatesOverdraftGuard(After(d.accounts[ls[i].accountId], ls, i + 1, mode))
    {
      CommittedHasRoom(h.accounts[ls[i].accountId], lines, ls, i + 1, mode);
    }
  }

  /** Posting the held lines and applying others can be done in either order. */
  lemma CommittedAfter(acc: Account, lines: seq<Line>, ls: seq<Line>, mode: Mode)
    ensures After(Committed(acc, lines), ls, |ls|, mode) == Committed(After(acc, ls, |ls|, mode), lines)
  {
    hide On, Touches;
  }

  lemma AccountsMoveAlike(h: Store, d: Store, h': Store, d': Store, lines: seq<Line>, ls: seq<Line>, mode: Mode)
    requires SameAccounts(h, d, lines)
    requires h'.accounts.Keys == h.accounts.Keys && d'.accounts.Keys == d.accounts.Keys
    requires forall a | a in h.accounts :: h'.accounts[a] == After(h.accounts[a], ls, |ls|, mode)
    requires forall a | a in d.accounts :: d'.accounts[a] == After(d.accounts[a], ls, |ls|, mode)
    ensures SameAccounts(h', d', lines)
  {
    hide Committed, After;
    forall a | a in h'.accounts ensures d'.accounts[a] == Committed(h'.accounts[a], lines) {
      CommittedAfter(h.accounts[a], lines, ls, mode);
    }
  }

  // ----- Books -----

  lemma BooksGrowAlike(h: Store, d: Store, h': Store, d': Store, t: Id, tx: Transaction, tx': Transaction,
                       es: seq<Entry>, es': seq<Entry>, closed: Option<Transaction>, closed': Option<Transaction>)
    requires SameBooks(h, d, t) && Indexes(h, h', tx, es, closed) && Indexes(d, d', tx', es', closed')
    requires tx.id == tx'.id && tx.status == tx'.status && tx.idempotencyKey == tx'.idempotencyKey && Lines(es) == Lines(es')
    requires closed.Some? == closed'.Some?
    requires closed.Some? ==> closed.value.id == closed'.value.id && closed.value.status == closed'.value.status &&
                              closed.value.id in h.transactions
    ensures SameBooks(h', d', t)
  {
    hide Lines;
  }

  // ----- One call -----

  predicate NotRefused(s: Store, action: Action) {
    OutcomeOf(s, action).Some? ==> OutcomeOf(s, action).value.Accepted?
  }

  /** What one call does to the pair. */
  ghost predicate StaysAhead(h: Store, d: Store, action: Action, t: Id, lines: seq<Line>) {
    && FreshIds(d, action) && NotRefused(d, action)
    && (TookEffect(d, action) <==> TookEffect(h, action))
    && Ahead(Step(h, action), Step(d, action), t, lines)
  }

  lemma SameFresh(h: Store, d: Store, t: Id, key: string, id: Id)
    requires SameBooks(h, d, t) && FreshTransactionId(h, key, id)
    ensures FreshTransactionId(d, key, id) && (Replays(h, key) <==> Replays(d, key))
  {
    hide Lines;
  }

  /** What a newly accepted post does, as far as the pair is concerned. */
  lemma PostShape(s: Store, input: PostInput, ctx: Context)
    requires Inv(s) && FreshIds(s, PostAction(input, ctx)) && NewlyAccepted(Post(s, input, ctx).1)
    ensures var (s', o) := Post(s, input, ctx);
            && o.transaction == PostTransaction(input, ctx) && Lines(o.entries) == input.entries
            && Indexes(s, s', o.transaction, o.entries, None)
            && s'.accounts.Keys == s.accounts.Keys
            && (forall a | a in s.accounts ::
                  s'.accounts[a] == After(s.accounts[a], input.entries, |input.entries|, PostMode(input.phase)))
    ensures AllPositive(input.entries) && forall i | 0 <= i < |input.entries| :: input.entries[i].accountId in s.accounts
  {
    hide Inv, Post, Affordable, After, ComputeBalances, Indexes;
    InvKeyed(s);
    PostGrows(s, input, ctx);
    LinesInPlace(s, s, Post(s, input, ctx).1.entries);
  }

  lemma PostStaysAhead(h: Store, d: Store, input: PostInput, ctx: Context, t: Id, lines: seq<Line>)
    requires Inv(h) && Inv(d) && Ahead(h, d, t, lines) && FreshIds(h, PostAction(input, ctx))
    requires NewlyAccepted(Post(h, input, ctx).1) && IsOpenHold(Post(h, input, ctx).0, t)
    ensures NewlyAccepted(Post(d, input, ctx).1) && Ahead(Post(h, input, ctx).0, Post(d, input, ctx).0, t, lines)
  {
    hide Inv, Post, Affordable, Balanced, Lines, After, Committed, PostTransaction, ViolatesOverdraftGuard, LockAccounts;
    InvKeyed(h);
    InvKeyed(d);
    SameFresh(h, d, t, input.idempotencyKey, PostTransaction(input, ctx).id);
    NotReplayed(h, input, ctx);
    PostAccepted(h, input, ctx);
    PostAccepted(d, input, ctx);
    AffordableToo(h, d, lines, input.entries, PostMode(input.phase));
    PostShape(h, input, ctx);
    PostShape(d, input, ctx);
    var (h', o) := Post(h, input, ctx);
    var (d', o') := Post(d, input, ctx);
    BooksGrowAlike(h, d, h', d', t, o.transaction, o'.transaction, o.entries, o'.entries, None, None);
    AccountsMoveAlike(h, d, h', d', lines, input.entries, PostMode(input.phase));
  }

  lemma NotReplayed(s: Store, input: PostInput, ctx: Context)
    requires NewlyAccepted(Post(s, input, ctx).1)
    ensures !Replays(s, input.idempotencyKey)
  {
    hide Build;
  }

  /** What a newly accepted resolution does, as far as the pair is concerned. */
  lemma ResolveShape(s: Store, p: Id, options: ResolveOptions, commit: bool, ctx: Context)
    requires Inv(s) && FreshTransactionId(s, options.idempotencyKey, ctx.newId)
    requires NewlyAccepted(ResolvePending(s, p, options, commit, ctx).1)
    ensures var (s', o) := ResolvePending(s, p, options, commit, ctx);
            && IsOpenHold(s, p) && p in s.entries && s.transactions[p].id == p
            && o.transaction.id == ctx.newId && o.transaction.idempotencyKey == options.idempotencyKey
            && o.transaction.status == ResolutionStatus(commit)
            && Lines(o.entries) == Lines(s.entries[p])
            && Indexes(s, s', o.transaction, o.entries, Some(Resolved(s.transactions[p], commit, ctx.now)))
            && s'.accounts.Keys == s.accounts.Keys
            && (forall a | a in s.accounts ::
                  s'.accounts[a] == After(s.accounts[a], Lines(s.entries[p]), |Lines(s.entries[p])|, ResolutionMode(commit)))
  {
    hide Inv, ResolvePending, Affordable, Balanced, After, ComputeBalances, Indexes;
    InvKeyed(s);
    HoldIsSound(s, p);
    ResolveGrows(s, p, options, commit, ctx);
    ResolutionId(s, p, options, commit, ctx);
  }

  lemma ResolveStaysAhead(h: Store, d: Store, p: Id, options: ResolveOptions, commit: bool, ctx: Context, t: Id, lines: seq<Line>)
    requires Inv(h) && Inv(d) && Ahead(h, d, t, lines) && FreshIds(h, ResolveAction(p, options, commit, ctx))
    requires NewlyAccepted(ResolvePending(h, p, options, commit, ctx).1) && IsOpenHold(ResolvePending(h, p, options, commit, ctx).0, t)
    ensures NewlyAccepted(ResolvePending(d, p, options, commit, ctx).1)
    ensures Ahead(ResolvePending(h, p, options, commit, ctx).0, ResolvePending(d, p, options, commit, ctx).0, t, lines)
  {
    hide Inv, ResolvePending, Lines, After, Committed;
    ResolveShape(h, p, options, commit, ctx);
    assert p != t;
    SameFresh(h, d, t, options.idempotencyKey, ctx.newId);
    assert options.idempotencyKey !in d.byIdempotencyKey;
    ResolveNeverRefused(d, p, options, commit, ctx);
    ResolveShape(d, p, options, commit, ctx);
    var (h', o) := ResolvePending(h, p, options, commit, ctx);
    var (d', o') := ResolvePending(d, p, options, commit, ctx);
    BooksGrowAlike(h, d, h', d', t, o.transaction, o'.transaction, o.entries, o'.entries,
                   Some(Resolved(h.transactions[p], commit, ctx.now)), Some(Resolved(d.transactions[p], commit, ctx.now)));
    AccountsMoveAlike(h, d, h', d', lines, Lines(h.entries[p]), ResolutionMode(commit));
  }

  lemma OpenStaysAhead(h: Store, d: Store, template: AccountTemplate, newId: Id, t: Id, lines: seq<Line>)
    requires Ahead(h, d, t, lines) && newId != NO_ID && newId !in h.accounts
    ensures Ahead(CreateAccount(h, template, newId), CreateAccount(d, template, newId), t, lines)
  {
    hide On, Lines;
    UntouchedOn(lines, |lines|, Debit, newId);
    UntouchedOn(lines, |lines|, Credit, newId);
    var h', d' := CreateAccount(h, template, newId), CreateAccount(d, template, newId);
    assert SameBooks(h', d', t);
    assert SameAccounts(h', d', lines);
  }

  /** A call that goes through while the hold stands, and leaves it standing, goes through after the direct post. */
  lemma CallStaysAhead(h: Store, d: Store, action: Action, t: Id, lines: seq<Line>)
    requires Inv(h) && Inv(d) && Ahead(h, d, t, lines) && FreshIds(h, action)
    requires NotRefused(h, action) && IsOpenHold(Step(h, action), t)
    ensures StaysAhead(h, d, action, t, lines)
  {
    hide Inv, Ahead, Post, ResolvePending, CreateAccount;
    match action
    case OpenAccount(template, newId) =>
      OpenAlike(h, d, template, newId, t, lines);
      OpenStaysAhead(h, d, template, newId, t, lines);
    case PostAction(input, ctx) =>
      KeysAlike(h, d, t, lines, input.idempotencyKey, PostTransaction(input, ctx).id);
      if NewlyAccepted(Post(h, input, ctx).1) {
        PostStaysAhead(h, d, input, ctx, t, lines);
      } else {
        PostReplayed(h, d, input, ctx);
      }
    case ResolveAction(p, options, commit, ctx) =>
      KeysAlike(h, d, t, lines, options.idempotencyKey, ctx.newId);
      if NewlyAccepted(ResolvePending(h, p, options, commit, ctx).1) {
        ResolveStaysAhead(h, d, p, options, commit, ctx, t, lines);
      } else {
        ResolveReplayed(h, d, p, options, commit, ctx);
      }
  }

  lemma OpenAlike(h: Store, d: Store, template: AccountTemplate, newId: Id, t: Id, lines: seq<Line>)
    requires Ahead(h, d, t, lines)
    ensures newId in h.accounts <==> newId in d.accounts
    ensures template.code in h.accountsByCode <==> template.code in d.accountsByCode
  {
    hide Lines, Committed;
  }

  lemma KeysAlike(h: Store, d: Store, t: Id, lines: seq<Line>, key: string, id: Id)
    requires Ahead(h, d, t, lines) && FreshTransactionId(h, key, id)
    ensures FreshTransactionId(d, key, id) && (Replays(h, key) <==> Replays(d, key))
  {
    SameFresh(h, d, t, key, id);
  }

  lemma PostReplayed(h: Store, d: Store, input: PostInput, ctx: Context)
    requires Post(h, input, ctx).1.Accepted? && !NewlyAccepted(Post(h, input, ctx).1)
    requires Replays(h, input.idempotencyKey) <==> Replays(d, input.idempotencyKey)
    ensures Post(h, input, ctx).0 == h && Post(d, input, ctx).0 == d
    ensures Post(d, input, ctx).1.Accepted? && !NewlyAccepted(Post(d, input, ctx).1)
  {
    hide Build;
  }

  lemma ResolveReplayed(h: Store, d: Store, p: Id, options: ResolveOptions, commit: bool, ctx: Context)
    requires var o := ResolvePending(h, p, options, commit, ctx).1; o.Accepted? && !NewlyAccepted(o)
    requires Replays(h, options.idempotencyKey) <==> Replays(d, options.idempotencyKey)
    ensures ResolvePending(h, p, options, commit, ctx).0 == h && ResolvePending(d, p, options, commit, ctx).0 == d
    ensures var o := ResolvePending(d, p, options, commit, ctx).1; o.Accepted? && !NewlyAccepted(o)
  {
    hide Build;
  }

  // ----- The whole run -----

  lemma HeldThenCommitted(acc: Account, lines: seq<Line>)
    ensures After(acc, lines, |lines|, Direct) == Committed(After(acc, lines, |lines|, Hold), lines)
  {
    hide On, Touches;
  }

  /** Right after the hold, the direct post is ahead of it by exactly the hold. */
  lemma StartsAhead(s: Store, input: PostInput, ctx: Context)
    requires Inv(s) && input.phase.PhasePending? && FreshIds(s, PostAction(input, ctx))
    requires NewlyAccepted(Post(s, input, ctx).1)
    ensures NewlyAccepted(Post(s, input.(phase := PhasePosted), ctx).1)
    ensures Ahead(Post(s, input, ctx).0, Post(s, input.(phase := PhasePosted), ctx).0, PostTransaction(input, ctx).id, input.entries)
  {
    hide Inv, Post, After, Committed, Lines;
    var direct := input.(phase := PhasePosted);
    DirectAccepted(s, input, ctx);
    assert PostTransaction(direct, ctx).id == PostTransaction(input, ctx).id;
    PostShape(s, input, ctx);
    PostShape(s, direct, ctx);
    HoldIsOpen(s, input, ctx);
    var (h, o) := Post(s, input, ctx);
    var (d, o') := Post(s, direct, ctx);
    var t := PostTransaction(input, ctx).id;
    assert o'.transaction.id == t && o.transaction.id == t;
    assert SameBooks(h, d, t);
    forall a | a in h.accounts ensures d.accounts[a] == Committed(h.accounts[a], input.entries) {
      HeldThenCommitted(s.accounts[a], input.entries);
    }
  }

  lemma LinesInPlace(s: Store, s': Store, es: seq<Entry>)
    requires s'.accounts.Keys == s.accounts.Keys && Balanced(Lines(es))
    requires forall i | 0 <= i < |es| :: es[i].line.accountId in s.accounts
    ensures AllPositive(Lines(es)) && forall i | 0 <= i < |Lines(es)| :: Lines(es)[i].accountId in s'.accounts
  {
  }

  /** The calls between hold and commit: fresh, none refused, and the hold stands throughout. */
  ghost predicate Meanwhile(h: Store, actions: seq<Action>, t: Id) {
    && FreshRun(h, actions)
    && (forall i | 0 <= i < |actions| :: NotRefused(StoreAfter(h, actions, i), actions[i]))
    && (forall i | 0 <= i <= |actions| :: IsOpenHold(StoreAfter(h, actions, i), t))
  }

  lemma MeanwhileAt(h: Store, actions: seq<Action>, t: Id, i: nat)
    requires Meanwhile(h, actions, t) && i < |actions|
    ensures FreshIds(StoreAfter(h, actions, i), actions[i]) && NotRefused(StoreAfter(h, actions, i), actions[i])
    ensures IsOpenHold(Step(StoreAfter(h, actions, i), actions[i]), t)
  {
    hide Step, FreshIds, NotRefused, IsOpenHold;
    assert StoreAfter(h, actions, i + 1) == Step(StoreAfter(h, actions, i), actions[i]);
    assert IsOpenHold(StoreAfter(h, actions, i + 1), t);
  }

  /** Each call taken with the hold standing is taken after the direct post, with the same effect or none. */
  lemma {:induction false} RunStaysAhead(h: Store, d: Store, actions: seq<Action>, t: Id, lines: seq<Line>, n: nat)
    requires n <= |actions| && Inv(h) && Inv(d) && Ahead(h, d, t, lines) && Meanwhile(h, actions, t)
    ensures Inv(StoreAfter(h, actions, n)) && Inv(StoreAfter(d, actions, n))
    ensures Ahead(StoreAfter(h, actions, n), StoreAfter(d, actions, n), t, lines)
    ensures forall i | 0 <= i < n :: StaysAhead(StoreAfter(h, actions, i), StoreAfter(d, actions, i), actions[i], t, lines)
  {
    hide Inv, Ahead, Meanwhile, Step, FreshIds, NotRefused, TookEffect;
    if n > 0 {
      RunStaysAhead(h, d, actions, t, lines, n - 1);
      MeanwhileAt(h, actions, t, n - 1);
      var x, y := StoreAfter(h, actions, n - 1), StoreAfter(d, actions, n - 1);
      CallStaysAhead(x, y, actions[n - 1], t, lines);
      StepKeepsInv(x, actions[n - 1]);
      StepKeepsInv(y, actions[n - 1]);
    }
  }

  /**
   Hold, calls, commit against the direct post and the same calls: none of the calls is refused after the
   direct post either, each takes effect there exactly when it did before, and every account ends with the
   same four counters.
   */
  lemma CommitCatchesUp(s: Store, input: PostInput, ctx: Context, actions: seq<Action>, options: ResolveOptions, ctx': Context, a: Id)
    requires Inv(s) && input.phase.PhasePending? && FreshIds(s, PostAction(input, ctx)) && NewlyAccepted(Post(s, input, ctx).1)
    requires Meanwhile(Post(s, input, ctx).0, actions, PostTransaction(input, ctx).id)
    requires var held := StoreAfter(Post(s, input, ctx).0, actions, |actions|);
             && options.idempotencyKey !in held.byIdempotencyKey && ctx'.newId != NO_ID && ctx'.newId !in held.transactions
             && a in held.accounts
    ensures NewlyAccepted(Post(s, input.(phase := PhasePosted), ctx).1)
    ensures var h, d := Post(s, input, ctx).0, Post(s, input.(phase := PhasePosted), ctx).0;
            && (forall i | 0 <= i < |actions| ::
                  && NotRefused(StoreAfter(d, actions, i), actions[i])
                  && (TookEffect(StoreAfter(d, actions, i), actions[i]) <==> TookEffect(StoreAfter(h, actions, i), actions[i])))
            && var committed := ResolvePending(StoreAfter(h, actions, |actions|), PostTransaction(input, ctx).id, options, true, ctx').0;
               var direct := StoreAfter(d, actions, |actions|);
               a in committed.accounts && a in direct.accounts && CountersOf(committed, a) == CountersOf(direct, a)
  {
    hide Inv, Post, ResolvePending, Meanwhile, Step, NotRefused, TookEffect, FreshIds, StoreAfter, On, PostTransaction;
    var t, h, d := PostTransaction(input, ctx).id, Post(s, input, ctx).0, Post(s, input.(phase := PhasePosted), ctx).0;
    StartsAhead(s, input, ctx);
    BothSound(s, input, ctx);
    RunStaysAhead(h, d, actions, t, input.entries, |actions|);
    var held := StoreAfter(h, actions, |actions|);
    ResolveNeverRefused(held, t, options, true, ctx');
    ResolutionMoves(held, t, options, true, ctx', a);
    SameId(held, a);
  }

  lemma BothSound(s: Store, input: PostInput, ctx: Context)
    requires Inv(s) && FreshIds(s, PostAction(input, ctx))
    ensures Inv(Post(s, input, ctx).0) && Inv(Post(s, input.(phase := PhasePosted), ctx).0)
  {
    hide Inv, Post;
    StepKeepsInv(s, PostAction(input, ctx));
    assert PostTransaction(input.(phase := PhasePosted), ctx).id == PostTransaction(input, ctx).id;
    StepKeepsInv(s, PostAction(input.(phase := PhasePosted), ctx));
  }

  lemma SameId(s: Store, a: Id)
    requires Inv(s) && a in s.accounts
    ensures s.accounts[a].id == a
  {
    hide Inv;
    InvKeyed(s);
  }
}
