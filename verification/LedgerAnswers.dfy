/** What the ledger answers: to a call that goes through, and to every later call under its key. */
module LedgerAnswers {
  import opened LedgerTypes
  import opened LedgerEngine
  import opened LedgerSums
  import opened LedgerInvariant
  import opened LedgerPreservation
  import opened LedgerSafety
  import opened LedgerRetry
  import opened LedgerTwoPhase

  // ----- The first answer -----

  /** The i-th entry is the i-th line asked for, numbered, in the given phase, on the transaction's date. */
  predicate EntersLines(tx: Transaction, es: seq<Entry>, lines: seq<Line>, phase: Phase, ctx: Context) {
    && |es| == |lines|
    && forall i | 0 <= i < |es| ::
         && es[i].line == lines[i] && es[i].phase == phase && es[i].sequence == i
         && es[i].transactionId == tx.id && es[i].effectiveAt == tx.effectiveAt && es[i].id == ctx.entryIds(i)
  }

  lemma BuiltEnters(s: Store, lines: seq<Line>, tx: Transaction, mode: Mode, ctx: Context)
    requires Keyed(s.accounts) && (forall i | 0 <= i < |lines| :: lines[i].accountId in s.accounts)
    requires Build(lines, |lines|, tx, mode, ctx.entryIds, LockAccounts(s, AccountIds(lines))).Built?
    ensures var es := Build(lines, |lines|, tx, mode, ctx.entryIds, LockAccounts(s, AccountIds(lines))).entries;
            EntersLines(tx, es, lines, EntryPhaseOf(mode), ctx)
  {
    hide Build, LockAccounts, AccountIds, ComputeBalances, Affordable, LedgerSums.After;
    BuildOnStore(s, lines, tx, mode, ctx.entryIds);
  }

  /** A post that goes through answers what was asked for, on the date asked for or else today. */
  lemma PostAnswers(s: Store, input: PostInput, ctx: Context)
    requires Inv(s) && NewlyAccepted(Post(s, input, ctx).1)
    ensures var o := Post(s, input, ctx).1;
            var tx := o.transaction;
            && EntersLines(tx, o.entries, input.entries, input.phase, ctx)
            && tx.kind == input.kind && tx.idempotencyKey == input.idempotencyKey && tx.pendingTransactionId.None?
            && (input.id.Some? ==> tx.id == input.id.value) && (input.id.None? ==> tx.id == ctx.newId)
            && (input.effectiveAt.Some? ==> tx.effectiveAt == input.effectiveAt.value)
            && (input.effectiveAt.None? ==> tx.effectiveAt == ctx.now)
            && (input.phase.PhasePending? ==> tx.status.StatusPending? && tx.postedAt.None? && tx.voidedAt.None?)
            && (input.phase.PhasePosted? ==>
                  tx.status.StatusPosted? && tx.postedAt == Some(tx.effectiveAt) && tx.voidedAt.None?)
  {
    hide Inv, Build, LockAccounts, AccountIds, EntersLines;
    InvKeyed(s);
    BuiltEnters(s, input.entries, PostTransaction(input, ctx), PostMode(input.phase), ctx);
  }

  /**
   A resolution that goes through enters the hold's lines again, as POSTED or VOID, dated now; the hold
   keeps everything but its status and the date of the verdict.
   */
  lemma ResolveAnswers(s: Store, pendingId: Id, options: ResolveOptions, commit: bool, ctx: Context)
    requires Inv(s) && FreshIds(s, ResolveAction(pendingId, options, commit, ctx))
    requires NewlyAccepted(ResolvePending(s, pendingId, options, commit, ctx).1)
    ensures pendingId in s.transactions && pendingId in s.entries
    ensures var (s', o) := ResolvePending(s, pendingId, options, commit, ctx);
            var tx, hold := o.transaction, s.transactions[pendingId];
            && EntersLines(tx, o.entries, Lines(s.entries[pendingId]), if commit then PhasePosted else PhaseVoid, ctx)
            && tx.id == ctx.newId && tx.idempotencyKey == options.idempotencyKey && tx.effectiveAt == ctx.now
            && tx.pendingTransactionId == Some(pendingId) && tx.amountCents == hold.amountCents
            && tx.kind == (if options.kind.Some? then options.kind.value else hold.kind)
            && tx.status == (if commit then StatusPosted else StatusVoided)
            && tx.postedAt == (if commit then Some(ctx.now) else None)
            && tx.voidedAt == (if commit then None else Some(ctx.now))
            && pendingId in s'.transactions
            && s'.transactions[pendingId] ==
               if commit then hold.(status := StatusPosted, postedAt := Some(ctx.now))
               else hold.(status := StatusVoided, voidedAt := Some(ctx.now))
  {
    hide Inv, Build, LockAccounts, AccountIds, EntersLines, Persist;
    InvKeyed(s);
    HoldIsSound(s, pendingId);
    var lines := Lines(s.entries[pendingId]);
    var tx := ResolutionTransaction(s.transactions[pendingId], options, commit, ctx);
    assert s.transactions[pendingId].(id := pendingId) == s.transactions[pendingId];
    BuiltEnters(s, lines, tx, ResolutionMode(commit), ctx);
    ClosedAs(s, pendingId, options, commit, ctx);
  }

  lemma ClosedAs(s: Store, pendingId: Id, options: ResolveOptions, commit: bool, ctx: Context)
    requires Inv(s) && FreshIds(s, ResolveAction(pendingId, options, commit, ctx))
    requires NewlyAccepted(ResolvePending(s, pendingId, options, commit, ctx).1)
    ensures pendingId in s.transactions
    ensures var s' := ResolvePending(s, pendingId, options, commit, ctx).0;
            pendingId in s'.transactions && s'.transactions[pendingId] == Resolved(s.transactions[pendingId], commit, ctx.now)
  {
    hide Inv, ResolvePending, Moves;
    InvKeyed(s);
    HoldIsSound(s, pendingId);
    ResolveGrows(s, pendingId, options, commit, ctx);
  }

  /** The store keeps what was answered, under the key it was asked with. */
  ghost predicate OnRecord(s: Store, key: string, tx: Transaction, es: seq<Entry>) {
    && key in s.byIdempotencyKey && s.byIdempotencyKey[key] == tx.id && tx.id != NO_ID
    && tx.id in s.transactions && s.transactions[tx.id] == tx
    && tx.id in s.entries && s.entries[tx.id] == es
  }

  lemma PostOnRecord(s: Store, input: PostInput, ctx: Context)
    requires Inv(s) && FreshIds(s, PostAction(input, ctx)) && NewlyAccepted(Post(s, input, ctx).1)
    ensures var (s', o) := Post(s, input, ctx); OnRecord(s', input.idempotencyKey, o.transaction, o.entries)
  {
    hide Inv, Post, Moves, Fits;
    InvKeyed(s);
    PostGrows(s, input, ctx);
  }

  lemma ResolveOnRecord(s: Store, pendingId: Id, options: ResolveOptions, commit: bool, ctx: Context)
    requires Inv(s) && FreshIds(s, ResolveAction(pendingId, options, commit, ctx))
    requires NewlyAccepted(ResolvePending(s, pendingId, options, commit, ctx).1)
    ensures var (s', o) := ResolvePending(s, pendingId, options, commit, ctx);
            OnRecord(s', options.idempotencyKey, o.transaction, o.entries)
  {
    hide Inv, ResolvePending, Moves, Fits;
    InvKeyed(s);
    HoldIsSound(s, pendingId);
    ResolveGrows(s, pendingId, options, commit, ctx);
  }

  lemma StepOnRecord(s: Store, action: Action)
    requires Inv(s) && FreshIds(s, action) && KeyOf(action).Some? && TookEffect(s, action)
    ensures var o := OutcomeOf(s, action).value; OnRecord(Step(s, action), KeyOf(action).value, o.transaction, o.entries)
  {
    hide Inv, Post, ResolvePending, OnRecord;
    match action
    case PostAction(input, ctx) => PostOnRecord(s, input, ctx);
    case ResolveAction(pendingId, options, commit, ctx) => ResolveOnRecord(s, pendingId, options, commit, ctx);
  }

  // ----- Later answers -----

  /** The same transaction, which may meanwhile have been resolved. */
  predicate SameRecord(tx: Transaction, later: Transaction) {
    && later.(status := tx.status, postedAt := tx.postedAt, voidedAt := tx.voidedAt) == tx
    && (!tx.status.StatusPending? ==> later == tx)
  }

  predicate Repeats(first: Outcome, later: Option<Outcome>)
    requires first.Accepted?
  {
    && later.Some? && later.value.Accepted? && later.value.replayed
    && later.value.entries == first.entries
    && SameRecord(first.transaction, later.value.transaction)
  }

  /** What is on record is answered to whatever is asked under the key. */
  lemma RecordAnswers(s: Store, s': Store, first: Outcome, action: Action)
    requires first.Accepted? && KeyOf(action).Some? && OnRecord(s, KeyOf(action).value, first.transaction, first.entries)
    requires Extends(s, s')
    ensures Repeats(first, OutcomeOf(s', action))
  {
    hide Build, BalanceError, FirstMissing;
    var key, t := KeyOf(action).value, first.transaction.id;
    assert s'.byIdempotencyKey[key] == t && t in s'.transactions && s'.entries[t] == first.entries;
    assert SameRecord(first.transaction, s'.transactions[t]);
  }

  /**
   In every run, once a call goes through under a key, every later post or resolution under that key, with
   whatever arguments and after whatever calls, answers that same transaction with those same entries.
   */
  lemma RepeatedAnswer(s: Store, actions: seq<Action>, i: nat, j: nat)
    requires Inv(s) && FreshRun(s, actions) && i < j < |actions|
    requires KeyOf(actions[i]).Some? && KeyOf(actions[j]) == KeyOf(actions[i])
    requires TookEffect(StoreAfter(s, actions, i), actions[i])
    ensures var first := OutcomeOf(StoreAfter(s, actions, i), actions[i]).value;
            Repeats(first, OutcomeOf(StoreAfter(s, actions, j), actions[j]))
  {
    hide Inv, Step, FreshIds, Extends, OnRecord, OutcomeOf, KeyOf, Repeats;
    var before := StoreAfter(s, actions, i);
    RunKeepsInv(s, actions, i);
    assert FreshIds(before, actions[i]);
    StepOnRecord(before, actions[i]);
    ExtendsBetween(s, actions, i + 1, j);
    EffectAnswers(before, actions[i]);
    RecordAnswers(StoreAfter(s, actions, i + 1), StoreAfter(s, actions, j), OutcomeOf(before, actions[i]).value, actions[j]);
  }

  lemma EffectAnswers(s: Store, action: Action)
    requires KeyOf(action).Some? && TookEffect(s, action)
    ensures OutcomeOf(s, action).Some? && OutcomeOf(s, action).value.Accepted? && !OutcomeOf(s, action).value.replayed
  {
  }
}
