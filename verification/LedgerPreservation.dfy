/** Every action keeps the ledger invariant, so every reachable store has it. */
module LedgerPreservation {
  import opened LedgerTypes
  import opened LedgerEngine
  import opened LedgerSums
  import opened LedgerInvariant

  // ----- The common shape of an accepted call -----

  /** Transaction `tx` with entries `es` joins the indexes; a resolution also rewrites the hold it closes. */
  ghost predicate Indexes(s: Store, s': Store, tx: Transaction, es: seq<Entry>, closed: Option<Transaction>) {
    && tx.id !in s.transactions && tx.id != NO_ID && tx.idempotencyKey !in s.byIdempotencyKey
    && s'.transactions == (if closed.Some?
                           then s.transactions[tx.id := tx][closed.value.id := closed.value]
                           else s.transactions[tx.id := tx])
    && s'.entries == s.entries[tx.id := es]
    && s'.entryOrder == s.entryOrder + [tx.id]
    && s'.byIdempotencyKey == s.byIdempotencyKey[tx.idempotencyKey := tx.id]
    && s'.accountOrder == s.accountOrder
    && s'.accountsByCode == s.accountsByCode
  }

  /** The entries are sound and every account's counters moved by the lines that name it. */
  ghost predicate Moves(s: Store, s': Store, tx: Transaction, es: seq<Entry>, mode: Mode) {
    && s'.accounts.Keys == s.accounts.Keys
    && (forall a | a in s.accounts :: s'.accounts[a] == After(s.accounts[a], Lines(es), |es|, mode))
    && Balanced(Lines(es))
    && Affordable(Lines(es), |es|, mode, s.accounts)
    && (forall i | 0 <= i < |es| ::
          && EntryOk(s, es[i], tx.id, i, EntryPhaseOf(mode))
          && es[i].resultingPostedCents ==
             ComputeBalances(After(s.accounts[es[i].line.accountId], Lines(es), i + 1, mode)).posted)
  }

  /** How the new record's status, mode and hold fit together. */
  ghost predicate Fits(s: Store, tx: Transaction, es: seq<Entry>, mode: Mode, closed: Option<Transaction>) {
    match closed
    case None =>
      && tx.pendingTransactionId.None?
      && ((mode.Hold? && tx.status.StatusPending?) || (mode.Direct? && tx.status.StatusPosted?))
    case Some(c) =>
      && IsOpenHold(s, c.id) && c.id in s.entries && c.id != tx.id
      && c.idempotencyKey == s.transactions[c.id].idempotencyKey
      && c.pendingTransactionId == s.transactions[c.id].pendingTransactionId
      && c.status == tx.status
      && tx.pendingTransactionId == Some(c.id)
      && Lines(es) == Lines(s.entries[c.id])
      && ((mode.CommitHold? && tx.status.StatusPosted?) || (mode.VoidHold? && tx.status.StatusVoided?))
  }

  /** The store `s'` is `s` after one newly accepted call. */
  ghost predicate Grows(s: Store, s': Store, tx: Transaction, es: seq<Entry>, mode: Mode, closed: Option<Transaction>) {
    Indexes(s, s', tx, es, closed) && Moves(s, s', tx, es, mode) && Fits(s, tx, es, mode, closed)
  }

  lemma {:induction false} UntouchedOn(lines: seq<Line>, n: nat, d: Direction, a: Id)
    requires n <= |lines|
    requires forall i | 0 <= i < n :: lines[i].accountId != a
    ensures On(lines, n, d, a) == 0 && Touches(lines, n, a) == 0
  {
    if n > 0 {
      UntouchedOn(lines, n - 1, d, a);
    }
  }

  lemma AfterUntouched(acc: Account, lines: seq<Line>, mode: Mode)
    requires acc.id !in AccountIds(lines)
    ensures After(acc, lines, |lines|, mode) == acc
  {
    forall i | 0 <= i < |lines| ensures lines[i].accountId != acc.id {
      assert lines[i].accountId in AccountIds(lines);
    }
    UntouchedOn(lines, |lines|, Debit, acc.id);
    UntouchedOn(lines, |lines|, Credit, acc.id);
  }

  /** Building on the locked copies and writing them back moves exactly the named accounts. */
  lemma BuildOnStore(s: Store, lines: seq<Line>, tx: Transaction, mode: Mode, entryIds: nat -> Id)
    requires Keyed(s.accounts) && forall i | 0 <= i < |lines| :: lines[i].accountId in s.accounts
    ensures var r := Build(lines, |lines|, tx, mode, entryIds, LockAccounts(s, AccountIds(lines)));
            && (r.Built? <==> Affordable(lines, |lines|, mode, s.accounts))
            && (r.Built? ==>
                  && BuiltAs(r, lines, |lines|, tx, mode, entryIds, LockAccounts(s, AccountIds(lines)))
                  && r.accounts.Keys <= s.accounts.Keys
                  && (forall a | a in s.accounts ::
                        (s.accounts + r.accounts)[a] == After(s.accounts[a], lines, |lines|, mode))
                  && Lines(r.entries) == lines
                  && (forall i | 0 <= i < |lines| ::
                        r.entries[i] == EntryAt(lines, i, tx, mode, entryIds(i), s.accounts)))
  {
    hide After, On, Touches, ViolatesOverdraftGuard, ComputeBalances;
    var locked := LockAccounts(s, AccountIds(lines));
    BuildSpec(lines, |lines|, tx, mode, entryIds, locked);
    forall i | 0 <= i < |lines| ensures lines[i].accountId in locked {
      assert lines[i].accountId in AccountIds(lines);
    }
    forall a | a in s.accounts && a !in locked ensures After(s.accounts[a], lines, |lines|, mode) == s.accounts[a] {
      AfterUntouched(s.accounts[a], lines, mode);
    }
  }

  /** What `persist` makes of a successful build. */
  lemma PersistMoves(s: Store, lines: seq<Line>, tx: Transaction, mode: Mode, entryIds: nat -> Id, s': Store)
    requires Keyed(s.accounts) && Balanced(lines)
    requires forall i | 0 <= i < |lines| :: lines[i].accountId in s.accounts
    requires var r := Build(lines, |lines|, tx, mode, entryIds, LockAccounts(s, AccountIds(lines)));
             r.Built? && s'.accounts == s.accounts + r.accounts
    ensures var r := Build(lines, |lines|, tx, mode, entryIds, LockAccounts(s, AccountIds(lines)));
            Lines(r.entries) == lines && Moves(s, s', tx, r.entries, mode)
  {
    hide LedgerSums.After, On, Touches, ViolatesOverdraftGuard, ComputeBalances, Build, Balanced;
    BuildOnStore(s, lines, tx, mode, entryIds);
  }

  /** The little of the invariant that the next two lemmas need. */
  ghost predicate Tidy(s: Store) {
    && Keyed(s.accounts)
    && s.entries.Keys == s.transactions.Keys
    && (forall k | k in s.byIdempotencyKey :: Replays(s, k))
  }

  lemma InvTidy(s: Store)
    requires AccountsIndexed(s) && TransactionsIndexed(s)
    ensures Tidy(s)
  {
  }

  predicate NewlyAccepted(o: Outcome) {
    o.Accepted? && !o.replayed
  }

  /** A post either changes nothing or adds its transaction. */
  lemma PostGrows(s: Store, input: PostInput, ctx: Context)
    requires Tidy(s)
    requires FreshTransactionId(s, input.idempotencyKey, PostTransaction(input, ctx).id)
    ensures var (s', o) := Post(s, input, ctx);
            && (!NewlyAccepted(o) ==> s' == s)
            && (NewlyAccepted(o) ==>
                  && o.transaction == PostTransaction(input, ctx)
                  && Lines(o.entries) == input.entries
                  && Grows(s, s', o.transaction, o.entries, PostMode(input.phase), None))
  {
    hide Moves, Build, Balanced;
    var (s', o) := Post(s, input, ctx);
    if NewlyAccepted(o) {
      PersistMoves(s, input.entries, PostTransaction(input, ctx), PostMode(input.phase), ctx.entryIds, s');
      assert |input.entries| >= 2;
    }
  }

  /** The two `persist` calls of a resolution, as one change of the indexes. */
  lemma PersistTwice(s: Store, tx: Transaction, es: seq<Entry>, accounts: map<Id, Account>, closed: Transaction)
    requires es != [] && tx.id != NO_ID && tx.id !in s.transactions && tx.id !in s.entries
    requires tx.idempotencyKey !in s.byIdempotencyKey
    ensures var s' := Persist(Persist(s, tx, es, accounts), closed, [], map[]);
            && s'.accounts == s.accounts + accounts
            && Indexes(s, s', tx, es, Some(closed))
  {
  }

  predicate HoldSound(s: Store, t: Id) {
    t in s.transactions && t in s.entries ==>
      && s.transactions[t].id == t
      && Balanced(Lines(s.entries[t]))
      && forall i | 0 <= i < |s.entries[t]| :: s.entries[t][i].line.accountId in s.accounts
  }

  lemma AtLeastTwo(lines: seq<Line>)
    requires Balanced(lines)
    ensures |lines| >= 2
  {
  }

  /** A resolution either changes nothing or adds its transaction and closes the hold. */
  lemma ResolveGrows(s: Store, pendingId: Id, options: ResolveOptions, commit: bool, ctx: Context)
    requires Tidy(s) && HoldSound(s, pendingId)
    requires FreshTransactionId(s, options.idempotencyKey, ctx.newId)
    ensures var (s', o) := ResolvePending(s, pendingId, options, commit, ctx);
            && (!NewlyAccepted(o) ==> s' == s)
            && (NewlyAccepted(o) ==>
                  && IsOpenHold(s, pendingId)
                  && o.transaction.status == ResolutionStatus(commit)
                  && o.transaction.idempotencyKey == options.idempotencyKey
                  && Grows(s, s', o.transaction, o.entries, ResolutionMode(commit),
                           Some(Resolved(s.transactions[pendingId], commit, ctx.now))))
  {
    hide Moves, Build, LockAccounts, AccountIds, Persist, Indexes, Balanced, Affordable;
    var (s', o) := ResolvePending(s, pendingId, options, commit, ctx);
    if NewlyAccepted(o) {
      var pending := s.transactions[pendingId];
      var lines := Lines(s.entries[pendingId]);
      assert pending.(id := pendingId) == pending;
      var tx := ResolutionTransaction(pending, options, commit, ctx);
      var r := Build(lines, |lines|, tx, ResolutionMode(commit), ctx.entryIds, LockAccounts(s, AccountIds(lines)));
      BuildOnStore(s, lines, tx, ResolutionMode(commit), ctx.entryIds);
      AtLeastTwo(lines);
      PersistTwice(s, tx, r.entries, r.accounts, Resolved(pending, commit, ctx.now));
      PersistMoves(s, lines, tx, ResolutionMode(commit), ctx.entryIds, s');
    }
  }

  // ----- Each part of the invariant is kept -----

  lemma KeepsAccountsIndexed(s: Store, s': Store, tx: Transaction, es: seq<Entry>, mode: Mode, closed: Option<Transaction>)
    requires AccountsIndexed(s) && Indexes(s, s', tx, es, closed) && Moves(s, s', tx, es, mode)
    ensures AccountsIndexed(s')
  {
    assert forall a | a in s.accounts :: s'.accounts[a].id == s.accounts[a].id && s'.accounts[a].code == s.accounts[a].code;
    hide Affordable, LedgerSums.After, Balanced, ComputeBalances, Distinct;
  }

  lemma KeepsTransactionsIndexed(s: Store, s': Store, tx: Transaction, es: seq<Entry>, mode: Mode, closed: Option<Transaction>)
    requires TransactionsIndexed(s) && Indexes(s, s', tx, es, closed) && Fits(s, tx, es, mode, closed)
    ensures TransactionsIndexed(s')
  {
    hide Distinct, Lines;
    DistinctAppend(s.entryOrder, tx.id);
    assert s'.entries.Keys == s'.transactions.Keys;
  }

  lemma DistinctAppend(ids: seq<Id>, x: Id)
    requires Distinct(ids) && x !in ids
    ensures Distinct(ids + [x])
  {
  }

  lemma KeepsEntries(s: Store, s': Store, tx: Transaction, es: seq<Entry>, mode: Mode, closed: Option<Transaction>)
    requires EntriesOk(s) && Grows(s, s', tx, es, mode, closed)
    ensures EntriesOk(s')
  {
    hide LedgerSums.After, Affordable, ComputeBalances, Balanced;
  }

  /** The only resolution a call adds is its own. */
  lemma NewResolutions(s: Store, s': Store, tx: Transaction, es: seq<Entry>, mode: Mode, closed: Option<Transaction>, r: Id, t: Id)
    requires Indexes(s, s', tx, es, closed) && Fits(s, tx, es, mode, closed)
    ensures Resolves(s', r, t) <==> Resolves(s, r, t) || (closed.Some? && r == tx.id && t == closed.value.id)
  {
  }

  lemma KeepsPhases(s: Store, s': Store, tx: Transaction, es: seq<Entry>, mode: Mode, closed: Option<Transaction>)
    requires Phases(s) && Indexes(s, s', tx, es, closed) && Fits(s, tx, es, mode, closed)
    requires es != [] && es[0].phase == EntryPhaseOf(mode)
    ensures Phases(s')
  {
    assert s'.entries.Keys == s'.transactions.Keys;
    assert forall t | t in s.entries :: t != tx.id && PhaseOk(s, t);
  }

  lemma KeepsResolutions(s: Store, s': Store, tx: Transaction, es: seq<Entry>, mode: Mode, closed: Option<Transaction>)
    requires Phases(s) && Resolutions(s) && Indexes(s, s', tx, es, closed) && Fits(s, tx, es, mode, closed)
    requires es != [] && es[0].phase == EntryPhaseOf(mode)
    ensures Resolutions(s')
  {
    hide Indexes, Fits, ResolutionOk, IsHold, Resolves, Phases;
    assert s'.entries.Keys == s'.transactions.Keys by {
      SameKeys(s, s', tx, es, mode, closed);
    }
    forall r, t | Resolves(s', r, t) ensures r in s'.entries && ResolutionOk(s', r, t) {
      ResolutionKept(s, s', tx, es, mode, closed, r, t);
    }
    forall r1, r2, t | Resolves(s', r1, t) && Resolves(s', r2, t) ensures r1 == r2 {
      OneResolution(s, s', tx, es, mode, closed, r1, r2, t);
    }
    forall t | t in s'.entries && IsHold(s', t) && !s'.transactions[t].status.StatusPending?
      ensures exists r :: Resolves(s', r, t)
    {
      ClosedHoldHasResolution(s, s', tx, es, mode, closed, t);
    }
  }

  lemma SameKeys(s: Store, s': Store, tx: Transaction, es: seq<Entry>, mode: Mode, closed: Option<Transaction>)
    requires s.entries.Keys == s.transactions.Keys && Indexes(s, s', tx, es, closed) && Fits(s, tx, es, mode, closed)
    ensures s'.entries.Keys == s'.transactions.Keys
  {
    hide Lines;
  }

  lemma OneResolution(s: Store, s': Store, tx: Transaction, es: seq<Entry>, mode: Mode, closed: Option<Transaction>,
                      r1: Id, r2: Id, t: Id)
    requires Resolutions(s) && Indexes(s, s', tx, es, closed) && Fits(s, tx, es, mode, closed)
    requires Resolves(s', r1, t) && Resolves(s', r2, t)
    ensures r1 == r2
  {
    NewResolutions(s, s', tx, es, mode, closed, r1, t);
    NewResolutions(s, s', tx, es, mode, closed, r2, t);
    hide Indexes, Lines, IsHold;
    assert Resolves(s, r1, t) ==> ResolutionOk(s, r1, t);
    assert Resolves(s, r2, t) ==> ResolutionOk(s, r2, t);
  }

  lemma ClosedHoldHasResolution(s: Store, s': Store, tx: Transaction, es: seq<Entry>, mode: Mode, closed: Option<Transaction>, t: Id)
    requires Resolutions(s) && Indexes(s, s', tx, es, closed) && Fits(s, tx, es, mode, closed)
    requires es != [] && es[0].phase == EntryPhaseOf(mode)
    requires t in s'.entries && t in s'.transactions && IsHold(s', t) && !s'.transactions[t].status.StatusPending?
    ensures exists r :: Resolves(s', r, t)
  {
    if closed.Some? && t == closed.value.id {
      assert Resolves(s', tx.id, t);
    } else {
      assert t in s.entries;
      var r :| Resolves(s, r, t);
      NewResolutions(s, s', tx, es, mode, closed, r, t);
    }
  }

  lemma ResolutionKept(s: Store, s': Store, tx: Transaction, es: seq<Entry>, mode: Mode, closed: Option<Transaction>, r: Id, t: Id)
    requires Phases(s) && Resolutions(s) && Indexes(s, s', tx, es, closed) && Fits(s, tx, es, mode, closed)
    requires es != [] && es[0].phase == EntryPhaseOf(mode)
    requires Resolves(s', r, t)
    ensures r in s'.entries && ResolutionOk(s', r, t)
  {
    if Resolves(s, r, t) {
      assert ResolutionOk(s, r, t) && PhaseOk(s, t);
    } else {
      assert closed.Some? && PhaseOk(s, closed.value.id);
    }
  }

  /** A new call's entries land at the end of the journal. */
  lemma JournalGrows(s: Store, s': Store, tx: Transaction, es: seq<Entry>, closed: Option<Transaction>)
    requires TransactionsIndexed(s) && Indexes(s, s', tx, es, closed)
    ensures Journal(s') == Journal(s) + es
  {
    var n := |s.entryOrder|;
    assert forall i | 0 <= i < n :: s.entryOrder[i] in s.entries && s.entryOrder[i] != tx.id;
    FlattenFrame(s.entryOrder, s'.entryOrder, n, s.entries, s'.entries);
    assert s'.entryOrder[n] == tx.id;
  }

  /** What the open-hold sum gains when `x` goes through in the given mode. */
  function PendingGain(mode: Mode, x: int): int {
    match mode
    case Hold => x
    case Direct => 0
    case CommitHold => -x
    case VoidHold => -x
  }

  lemma HeldChange(s: Store, s': Store, tx: Transaction, es: seq<Entry>, mode: Mode, closed: Option<Transaction>, d: Direction, a: Id)
    requires s.entries.Keys == s.transactions.Keys
    requires Indexes(s, s', tx, es, closed) && Fits(s, tx, es, mode, closed)
    ensures HeldBy(s', tx.id, d, a) == if mode.Hold? then On(Lines(es), |es|, d, a) else 0
    ensures closed.Some? ==>
              HeldBy(s', closed.value.id, d, a) == 0 && HeldBy(s, closed.value.id, d, a) == On(Lines(es), |es|, d, a)
    ensures forall t | t in s.entries && (closed.None? || t != closed.value.id) :: HeldBy(s', t, d, a) == HeldBy(s, t, d, a)
    ensures closed.Some? <==> mode.CommitHold? || mode.VoidHold?
  {
    hide On;
  }

  /** A hold adds its lines to the open-hold sum, a resolution takes them out, a direct post does neither. */
  lemma PendingGrows(s: Store, s': Store, tx: Transaction, es: seq<Entry>, mode: Mode, closed: Option<Transaction>, d: Direction, a: Id)
    requires TransactionsIndexed(s) && Indexes(s, s', tx, es, closed) && Fits(s, tx, es, mode, closed)
    ensures PendingOn(s'.entryOrder, |s'.entryOrder|, s', d, a) ==
            PendingOn(s.entryOrder, |s.entryOrder|, s, d, a) + PendingGain(mode, On(Lines(es), |es|, d, a))
  {
    HeldChange(s, s', tx, es, mode, closed, d, a);
    assert s'.entryOrder == s.entryOrder + [tx.id];
    assert closed.Some? ==> closed.value.id in s.entryOrder;
    hide TransactionsIndexed, Indexes, Fits, HeldBy, On, PendingOn;
    PendingChange(s, s', s.entryOrder, tx.id, if closed.Some? then Some(closed.value.id) else None, d, a);
  }

  lemma PendingChange(s: Store, s': Store, order: seq<Id>, last: Id, closed: Option<Id>, d: Direction, a: Id)
    requires Distinct(order)
    requires forall t | t in order && closed != Some(t) :: HeldBy(s', t, d, a) == HeldBy(s, t, d, a)
    requires closed.Some? ==> closed.value in order && HeldBy(s', closed.value, d, a) == 0
    ensures PendingOn(order + [last], |order| + 1, s', d, a) ==
            PendingOn(order, |order|, s, d, a) + HeldBy(s', last, d, a)
            - (if closed.Some? then HeldBy(s, closed.value, d, a) else 0)
  {
    hide HeldBy;
    PendingOnFrame(order, order + [last], |order|, s', s', d, a);
    if closed.None? {
      PendingOnFrame(order, order, |order|, s, s', d, a);
    } else {
      var k :| 0 <= k < |order| && order[k] == closed.value;
      PendingOnClose(order, |order|, s, s', k, d, a);
    }
  }

  lemma KeepsCounters(s: Store, s': Store, tx: Transaction, es: seq<Entry>, mode: Mode, closed: Option<Transaction>)
    requires TransactionsIndexed(s) && CountersMatch(s) && Grows(s, s', tx, es, mode, closed)
    ensures CountersMatch(s')
  {
    JournalGrows(s, s', tx, es, closed);
    forall a | a in s'.accounts ensures s'.accounts[a].id == a && CounterOk(s', Journal(s'), s'.accounts[a]) {
      assert s'.accounts[a] == After(s.accounts[a], Lines(es), |es|, mode);
      CounterKept(s, s', tx, es, mode, closed, s.accounts[a]);
    }
  }

  lemma CounterKept(s: Store, s': Store, tx: Transaction, es: seq<Entry>, mode: Mode, closed: Option<Transaction>, acc: Account)
    requires TransactionsIndexed(s) && Indexes(s, s', tx, es, closed) && Fits(s, tx, es, mode, closed)
    requires forall i | 0 <= i < |es| :: es[i].phase == EntryPhaseOf(mode)
    requires CounterOk(s, Journal(s), acc)
    ensures CounterOk(s', Journal(s) + es, After(acc, Lines(es), |es|, mode))
  {
    hide TransactionsIndexed, Indexes, Fits, PendingOn, On, Touches, PostedOn, EntryTally;
    PendingGrows(s, s', tx, es, mode, closed, Debit, acc.id);
    PendingGrows(s, s', tx, es, mode, closed, Credit, acc.id);
    PostedOnAppend(Journal(s), es, |es|, Debit, acc.id, EntryPhaseOf(mode));
    PostedOnAppend(Journal(s), es, |es|, Credit, acc.id, EntryPhaseOf(mode));
  }

  lemma KeepsSolvent(s: Store, s': Store, tx: Transaction, es: seq<Entry>, mode: Mode)
    requires Keyed(s.accounts) && Solvent(s) && Moves(s, s', tx, es, mode)
    ensures Solvent(s')
  {
    hide LedgerSums.After, ViolatesOverdraftGuard, Affordable, ComputeBalances, Balanced;
    forall a | a in s'.accounts ensures !ViolatesOverdraftGuard(s'.accounts[a]) {
      AffordableKeepsSolvent(Lines(es), |es|, mode, s.accounts, a);
    }
  }

  lemma KeepsRunning(s: Store, s': Store, tx: Transaction, es: seq<Entry>, mode: Mode, closed: Option<Transaction>)
    requires TransactionsIndexed(s) && CountersMatch(s) && RunningBalances(s) && Grows(s, s', tx, es, mode, closed)
    ensures RunningBalances(s')
  {
    hide Moves, Fits, CountersMatch, TransactionsIndexed, RunningPosted, Flatten;
    var j := Journal(s);
    JournalGrows(s, s', tx, es, closed);
    MovesKeepAccounts(s, s', tx, es, mode);
    forall i | 0 <= i < |j + es|
      ensures (j + es)[i].line.accountId in s'.accounts
      ensures (j + es)[i].resultingPostedCents == RunningPosted(s', j + es, i)
    {
      if i < |j| {
        RunningOld(s, s', tx, es, mode, i);
      } else {
        RunningNew(s, s', tx, es, mode, i - |j|);
      }
    }
  }

  lemma MovesKeepAccounts(s: Store, s': Store, tx: Transaction, es: seq<Entry>, mode: Mode)
    requires Moves(s, s', tx, es, mode)
    ensures s'.accounts.Keys == s.accounts.Keys
  {
  }

  lemma RunningOld(s: Store, s': Store, tx: Transaction, es: seq<Entry>, mode: Mode, i: nat)
    requires RunningBalances(s) && Moves(s, s', tx, es, mode) && i < |Journal(s)|
    ensures var j := Journal(s) + es;
            j[i].line.accountId in s'.accounts && j[i].resultingPostedCents == RunningPosted(s', j, i)
  {
    hide Affordable, ComputeBalances, Balanced, PostedOn, Flatten, On, Touches, Shift;
    var j := Journal(s);
    var a := j[i].line.accountId;
    assert j[i].resultingPostedCents == RunningPosted(s, j, i);
    assert s'.accounts[a].normalBalance == s.accounts[a].normalBalance;
    PostedOnPrefix(j, es, i + 1, Debit, a);
    PostedOnPrefix(j, es, i + 1, Credit, a);
  }

  lemma RunningNew(s: Store, s': Store, tx: Transaction, es: seq<Entry>, mode: Mode, i: nat)
    requires CountersMatch(s) && Moves(s, s', tx, es, mode) && i < |es|
    ensures var j := Journal(s) + es;
            && j[|Journal(s)| + i].line.accountId in s'.accounts
            && j[|Journal(s)| + i].resultingPostedCents == RunningPosted(s', j, |Journal(s)| + i)
  {
    hide Affordable, Balanced, PostedOn, Flatten, On, Touches, EntryTally, PendingOn;
    assert EntryOk(s, es[i], tx.id, i, EntryPhaseOf(mode));
    var a := es[i].line.accountId;
    assert CounterOk(s, Journal(s), s.accounts[a]);
    assert forall k | 0 <= k < |es| :: es[k].phase == EntryPhaseOf(mode);
    PostedOnAppend(Journal(s), es, i + 1, Debit, a, EntryPhaseOf(mode));
    PostedOnAppend(Journal(s), es, i + 1, Credit, a, EntryPhaseOf(mode));
  }

  // ----- The invariant over whole runs -----

  lemma GrowsKeepsInv(s: Store, s': Store, tx: Transaction, es: seq<Entry>, mode: Mode, closed: Option<Transaction>)
    requires Inv(s) && Grows(s, s', tx, es, mode, closed)
    ensures Inv(s')
  {
    assert |es| >= 2 && EntryOk(s, es[0], tx.id, 0, EntryPhaseOf(mode));
    KeepsAccountsIndexed(s, s', tx, es, mode, closed);
    KeepsTransactionsIndexed(s, s', tx, es, mode, closed);
    KeepsEntries(s, s', tx, es, mode, closed);
    KeepsPhases(s, s', tx, es, mode, closed);
    KeepsResolutions(s, s', tx, es, mode, closed);
    KeepsCounters(s, s', tx, es, mode, closed);
    KeepsSolvent(s, s', tx, es, mode);
    KeepsRunning(s, s', tx, es, mode, closed);
  }
}
