/** The two-phase law: a hold followed by its resolution, with any calls in between. */
module LedgerTwoPhase {
  import opened LedgerTypes
  import opened LedgerEngine
  import opened LedgerSums
  import opened LedgerInvariant
  import opened LedgerPreservation
  import opened LedgerSafety
  import opened LedgerRetry

  /** Resolving never lowers an available balance, so the guard never stops it. */
  lemma ResolutionAffordable(s: Store, lines: seq<Line>, commit: bool)
    requires Keyed(s.accounts) && Solvent(s) && AllPositive(lines)
    requires forall i | 0 <= i < |lines| :: lines[i].accountId in s.accounts
    ensures Affordable(lines, |lines|, ResolutionMode(commit), s.accounts)
  {
    forall i | 0 <= i < |lines|
      ensures !ViolatesOverdraftGuard(After(s.accounts[lines[i].accountId], lines, i + 1, ResolutionMode(commit)))
    {
      var a := lines[i].accountId;
      assert !ViolatesOverdraftGuard(s.accounts[a]);
      OnNonNegative(lines, i + 1, Debit, a);
      OnNonNegative(lines, i + 1, Credit, a);
    }
  }

  /** From any reachable state, committing or voiding an open hold under a new key goes through. */
  lemma ResolveNeverRefused(s: Store, pendingId: Id, options: ResolveOptions, commit: bool, ctx: Context)
    requires Inv(s) && IsOpenHold(s, pendingId) && options.idempotencyKey !in s.byIdempotencyKey
    ensures NewlyAccepted(ResolvePending(s, pendingId, options, commit, ctx).1)
  {
    hide EntriesOk, CountersMatch, RunningBalances, Resolutions, Phases, Affordable, Build;
    var es := s.entries[pendingId];
    InvHoldSound(s, pendingId);
    ResolutionAffordable(s, Lines(es), commit);
    var tx := ResolutionTransaction(s.transactions[pendingId].(id := pendingId), options, commit, ctx);
    BuildOnStore(s, Lines(es), tx, ResolutionMode(commit), ctx.entryIds);
  }

  /** What the calls between `c1` and `c2` did, applied to `c0`. */
  function Carry(c0: Counters, c1: Counters, c2: Counters): Counters {
    Counters(c0.debitsPosted + c2.debitsPosted - c1.debitsPosted, c0.creditsPosted + c2.creditsPosted - c1.creditsPosted,
             c0.debitsPending + c2.debitsPending - c1.debitsPending, c0.creditsPending + c2.creditsPending - c1.creditsPending)
  }

  function CountersOf(s: Store, a: Id): Counters
    requires a in s.accounts
  {
    s.accounts[a].counters
  }

  /** A newly accepted post moves each account's counters by its lines. */
  lemma PostMoves(s: Store, input: PostInput, ctx: Context, a: Id)
    requires Inv(s) && FreshTransactionId(s, input.idempotencyKey, PostTransaction(input, ctx).id)
    requires NewlyAccepted(Post(s, input, ctx).1) && a in s.accounts
    ensures var (s', o) := Post(s, input, ctx);
            && a in s'.accounts
            && CountersOf(s', a) == Shift(CountersOf(s, a), PostMode(input.phase),
                                          On(input.entries, |input.entries|, Debit, a), On(input.entries, |input.entries|, Credit, a))
            && o.transaction.id in s'.entries && Lines(s'.entries[o.transaction.id]) == input.entries
  {
    hide Post, AccountsIndexed, TransactionsIndexed, EntriesOk, CountersMatch, RunningBalances, Resolutions, Phases,
         On, Affordable, Balanced, Fits, ComputeBalances, Touches, Shift;
    InvKeyed(s);
    PostGrows(s, input, ctx);
  }

  lemma InvKeyed(s: Store)
    requires Inv(s)
    ensures Tidy(s) && forall a | a in s.accounts :: s.accounts[a].id == a
  {
    InvTidy(s);
  }

  lemma HoldIsSound(s: Store, t: Id)
    requires Inv(s)
    ensures HoldSound(s, t)
  {
    InvHoldSound(s, t);
  }

  lemma ResolutionId(s: Store, hold: Id, options: ResolveOptions, commit: bool, ctx: Context)
    requires NewlyAccepted(ResolvePending(s, hold, options, commit, ctx).1)
    ensures ResolvePending(s, hold, options, commit, ctx).1.transaction.id == ctx.newId
  {
    hide Build;
  }

  /** A newly accepted resolution moves each account's counters by the hold's lines. */
  lemma ResolutionMoves(s: Store, pendingId: Id, options: ResolveOptions, commit: bool, ctx: Context, a: Id)
    requires Inv(s) && FreshTransactionId(s, options.idempotencyKey, ctx.newId)
    requires NewlyAccepted(ResolvePending(s, pendingId, options, commit, ctx).1) && a in s.accounts
    ensures pendingId in s.entries
    ensures var s' := ResolvePending(s, pendingId, options, commit, ctx).0;
            var lines := Lines(s.entries[pendingId]);
            && a in s'.accounts
            && CountersOf(s', a) == Shift(CountersOf(s, a), ResolutionMode(commit),
                                          On(lines, |lines|, Debit, a), On(lines, |lines|, Credit, a))
  {
    hide ResolvePending, AccountsIndexed, TransactionsIndexed, EntriesOk, CountersMatch, RunningBalances, Resolutions, Phases,
         On, Affordable, Balanced, ComputeBalances, Touches, Shift;
    InvKeyed(s);
    InvHoldSound(s, pendingId);
    ResolveGrows(s, pendingId, options, commit, ctx);
  }

  /**
   Hold, then anything at all, then commit: the four counters end where one direct post of the same
   lines, plus whatever happened in between, would put them. Hold then void: as if never held.
   */
  lemma TwoPhaseLaw(s0: Store, input: PostInput, ctx: Context, between: seq<Action>,
                    options: ResolveOptions, commit: bool, ctx': Context, a: Id)
    requires Inv(s0) && a in s0.accounts && input.phase.PhasePending?
    requires FreshTransactionId(s0, input.idempotencyKey, PostTransaction(input, ctx).id)
    requires NewlyAccepted(Post(s0, input, ctx).1)
    requires FreshRun(Post(s0, input, ctx).0, between)
    requires var s2 := StoreAfter(Post(s0, input, ctx).0, between, |between|);
             && IsOpenHold(s2, PostTransaction(input, ctx).id)
             && options.idempotencyKey !in s2.byIdempotencyKey
             && ctx'.newId !in s2.transactions && ctx'.newId != NO_ID
    ensures var s1 := Post(s0, input, ctx).0;
            var s2 := StoreAfter(s1, between, |between|);
            var s3 := ResolvePending(s2, PostTransaction(input, ctx).id, options, commit, ctx').0;
            && a in s1.accounts && a in s2.accounts && a in s3.accounts
            && var c := Carry(CountersOf(s0, a), CountersOf(s1, a), CountersOf(s2, a));
               CountersOf(s3, a) ==
               if commit
               then Shift(c, Direct, On(input.entries, |input.entries|, Debit, a), On(input.entries, |input.entries|, Credit, a))
               else c
  {
    hide Inv, Post, ResolvePending, On, Step, FreshIds, FreshRun, StoreAfter, PostTransaction;
    var s1 := Post(s0, input, ctx).0;
    var s2 := StoreAfter(s1, between, |between|);
    var t := PostTransaction(input, ctx).id;
    PostKeepsInv(s0, input, ctx);
    RunKeepsInv(s1, between, |between|);
    PostMoves(s0, input, ctx, a);
    PostRecords(s0, input, ctx);
    RunKeeps(s1, between, t, a);
    ResolveNeverRefused(s2, t, options, commit, ctx');
    ResolutionMoves(s2, t, options, commit, ctx', a);
  }

  lemma RunKeeps(s: Store, actions: seq<Action>, t: Id, a: Id)
    requires Inv(s) && FreshRun(s, actions) && t in s.entries && a in s.accounts
    ensures var s' := StoreAfter(s, actions, |actions|);
            t in s'.entries && s'.entries[t] == s.entries[t] && a in s'.accounts
  {
    hide Inv, FreshRun, StoreAfter;
    RunExtends(s, actions, |actions|);
  }

  lemma PostRecords(s: Store, input: PostInput, ctx: Context)
    requires NewlyAccepted(Post(s, input, ctx).1)
    ensures Post(s, input, ctx).1.transaction == PostTransaction(input, ctx)
  {
  }

  // ----- With nothing in between: one direct post -----

  /** Posting outright demands no more of a balance than holding does. */
  lemma HoldAffordsDirect(s: Store, lines: seq<Line>)
    requires AllPositive(lines) && Affordable(lines, |lines|, Hold, s.accounts) && Keyed(s.accounts)
    ensures Affordable(lines, |lines|, Direct, s.accounts)
  {
    forall i | 0 <= i < |lines|
      ensures !ViolatesOverdraftGuard(After(s.accounts[lines[i].accountId], lines, i + 1, Direct))
    {
      var a := lines[i].accountId;
      assert !ViolatesOverdraftGuard(After(s.accounts[a], lines, i + 1, Hold));
      OnNonNegative(lines, i + 1, Debit, a);
      OnNonNegative(lines, i + 1, Credit, a);
    }
  }

  /** Where a hold is accepted, so is the direct post of the same lines. */
  lemma DirectAccepted(s: Store, input: PostInput, ctx: Context)
    requires Inv(s) && input.phase.PhasePending? && NewlyAccepted(Post(s, input, ctx).1)
    ensures NewlyAccepted(Post(s, input.(phase := PhasePosted), ctx).1)
  {
    InvKeyed(s);
    hide Inv, Affordable, Build;
    var lines := input.entries;
    var direct := input.(phase := PhasePosted);
    BuildOnStore(s, lines, PostTransaction(input, ctx), Hold, ctx.entryIds);
    HoldAffordsDirect(s, lines);
    BuildOnStore(s, lines, PostTransaction(direct, ctx), Direct, ctx.entryIds);
  }

  /** Hold and commit leave the same four counters as one direct post of the same lines. */
  lemma HoldCommitIsDirectPost(s: Store, input: PostInput, ctx: Context, options: ResolveOptions, ctx': Context, a: Id)
    requires Inv(s) && a in s.accounts && input.phase.PhasePending?
    requires FreshTransactionId(s, input.idempotencyKey, PostTransaction(input, ctx).id)
    requires NewlyAccepted(Post(s, input, ctx).1)
    requires var s1 := Post(s, input, ctx).0;
             && options.idempotencyKey !in s1.byIdempotencyKey
             && ctx'.newId !in s1.transactions && ctx'.newId != NO_ID
    ensures var held := Post(s, input, ctx).0;
            var committed := ResolvePending(held, PostTransaction(input, ctx).id, options, true, ctx').0;
            var direct := Post(s, input.(phase := PhasePosted), ctx).0;
            a in committed.accounts && a in direct.accounts && CountersOf(committed, a) == CountersOf(direct, a)
  {
    hide Inv, Post, ResolvePending, On;
    var direct := input.(phase := PhasePosted);
    DirectAccepted(s, input, ctx);
    assert PostTransaction(direct, ctx).id == PostTransaction(input, ctx).id;
    PostMoves(s, direct, ctx, a);
    PostMoves(s, input, ctx, a);
    HoldIsOpen(s, input, ctx);
    TwoPhaseLaw(s, input, ctx, [], options, true, ctx', a);
  }

  lemma HoldIsOpen(s: Store, input: PostInput, ctx: Context)
    requires input.phase.PhasePending? && NewlyAccepted(Post(s, input, ctx).1)
    ensures IsOpenHold(Post(s, input, ctx).0, PostTransaction(input, ctx).id)
  {
  }
}
