/** What every accepted ledger call keeps, hence what holds in every reachable store. */
module LedgerInvariant {
  import opened LedgerTypes
  import opened LedgerEngine
  import opened LedgerSums

  // ----- Runs -----

  datatype Action =
    | OpenAccount(template: AccountTemplate, newId: Id)
    | PostAction(input: PostInput, ctx: Context)
    | ResolveAction(pendingId: Id, options: ResolveOptions, commit: bool, ctx: Context)

  function Step(s: Store, action: Action): Store {
    match action
    case OpenAccount(template, newId) => CreateAccount(s, template, newId)
    case PostAction(input, ctx) => Post(s, input, ctx).0
    case ResolveAction(pendingId, options, commit, ctx) => ResolvePending(s, pendingId, options, commit, ctx).0
  }

  predicate FreshTransactionId(s: Store, key: string, id: Id) {
    Replays(s, key) || (id != NO_ID && id !in s.transactions)
  }

  /** `newId` never repeats an id, and a caller that brings its own id brings a new one. */
  predicate FreshIds(s: Store, action: Action) {
    match action
    case OpenAccount(_, newId) => newId != NO_ID && newId !in s.accounts
    case PostAction(input, ctx) => FreshTransactionId(s, input.idempotencyKey, PostTransaction(input, ctx).id)
    case ResolveAction(_, options, _, ctx) => FreshTransactionId(s, options.idempotencyKey, ctx.newId)
  }

  /** The store after the first `n` actions. */
  function StoreAfter(s: Store, actions: seq<Action>, n: nat): Store
    requires n <= |actions|
  {
    if n == 0 then s else Step(StoreAfter(s, actions, n - 1), actions[n - 1])
  }

  ghost predicate FreshRun(s: Store, actions: seq<Action>) {
    forall i | 0 <= i < |actions| :: FreshIds(StoreAfter(s, actions, i), actions[i])
  }

  ghost predicate Reachable(s: Store) {
    exists actions: seq<Action> :: FreshRun(EMPTY, actions) && s == StoreAfter(EMPTY, actions, |actions|)
  }

  // ----- The invariant -----

  ghost predicate AccountsIndexed(s: Store) {
    && Keyed(s.accounts)
    && Distinct(s.accountOrder)
    && (forall a | a in s.accountOrder :: a in s.accounts)
    && (forall a | a in s.accounts ::
          && a in s.accountOrder
          && a != NO_ID
          && s.accounts[a].code in s.accountsByCode
          && s.accountsByCode[s.accounts[a].code] == a)
    && (forall c | c in s.accountsByCode ::
          s.accountsByCode[c] in s.accounts && s.accounts[s.accountsByCode[c]].code == c)
  }

  /** Keys and transactions are in one-to-one correspondence, and each has its entry list. */
  ghost predicate TransactionsIndexed(s: Store) {
    && Distinct(s.entryOrder)
    && (forall t | t in s.entryOrder :: t in s.entries)
    && (forall t | t in s.entries :: t in s.entryOrder)
    && s.entries.Keys == s.transactions.Keys
    && (forall t | t in s.transactions ::
          && t != NO_ID
          && s.transactions[t].id == t
          && s.transactions[t].idempotencyKey in s.byIdempotencyKey
          && s.byIdempotencyKey[s.transactions[t].idempotencyKey] == t)
    && (forall k | k in s.byIdempotencyKey ::
          s.byIdempotencyKey[k] in s.transactions && s.transactions[s.byIdempotencyKey[k]].idempotencyKey == k)
  }

  predicate EntryOk(s: Store, e: Entry, t: Id, i: int, phase: Phase) {
    e.transactionId == t && e.phase == phase && e.sequence == i && e.line.accountId in s.accounts
  }

  /** One transaction's entries balance and share the phase its record calls for. */
  ghost predicate EntriesOk(s: Store) {
    forall t | t in s.entries ::
      && Balanced(Lines(s.entries[t]))
      && forall i | 0 <= i < |s.entries[t]| :: EntryOk(s, s.entries[t][i], t, i, s.entries[t][0].phase)
  }

  predicate IsHold(s: Store, t: Id)
    requires t in s.entries
  {
    s.entries[t] != [] && s.entries[t][0].phase.PhasePending?
  }

  predicate Resolves(s: Store, r: Id, t: Id) {
    r in s.transactions && s.transactions[r].pendingTransactionId == Some(t)
  }

  /** A resolution repeats its hold's lines, and the hold carries its verdict. */
  predicate ResolutionOk(s: Store, r: Id, t: Id)
    requires Resolves(s, r, t) && r in s.entries
  {
    && t in s.transactions && t in s.entries && IsHold(s, t)
    && !s.transactions[t].status.StatusPending?
    && s.transactions[r].status == s.transactions[t].status
    && Lines(s.entries[r]) == Lines(s.entries[t])
    && s.entries[r] != []
    && s.entries[r][0].phase == (if s.transactions[r].status.StatusPosted? then PhasePosted else PhaseVoid)
  }

  /** A record's status and pending reference agree with the phase of its entries. */
  predicate PhaseOk(s: Store, t: Id)
    requires t in s.transactions && t in s.entries
  {
    && (IsHold(s, t) ==> s.transactions[t].pendingTransactionId.None?)
    && (s.transactions[t].status.StatusPending? ==> IsHold(s, t))
    && (!IsHold(s, t) && s.transactions[t].pendingTransactionId.None? ==>
          s.entries[t] != [] && s.entries[t][0].phase.PhasePosted? && s.transactions[t].status.StatusPosted?)
  }

  ghost predicate Phases(s: Store) {
    s.entries.Keys == s.transactions.Keys && forall t | t in s.entries :: PhaseOk(s, t)
  }

  /** Each hold has no resolution while it is open and exactly one afterwards. */
  ghost predicate Resolutions(s: Store) {
    && s.entries.Keys == s.transactions.Keys
    && (forall r, t | Resolves(s, r, t) :: ResolutionOk(s, r, t))
    && (forall r1, r2, t | Resolves(s, r1, t) && Resolves(s, r2, t) :: r1 == r2)
    && (forall t | t in s.entries && IsHold(s, t) && !s.transactions[t].status.StatusPending? ::
          exists r :: Resolves(s, r, t))
  }

  /** The counters of `acc` are the sums its journal calls for. */
  predicate CounterOk(s: Store, j: seq<Entry>, acc: Account) {
    && acc.counters.debitsPosted == PostedOn(j, |j|, Debit, acc.id)
    && acc.counters.creditsPosted == PostedOn(j, |j|, Credit, acc.id)
    && acc.counters.debitsPending == PendingOn(s.entryOrder, |s.entryOrder|, s, Debit, acc.id)
    && acc.counters.creditsPending == PendingOn(s.entryOrder, |s.entryOrder|, s, Credit, acc.id)
    && acc.entryCount == acc.version == EntryTally(j, |j|, acc.id)
  }

  ghost predicate CountersMatch(s: Store) {
    forall a | a in s.accounts :: s.accounts[a].id == a && CounterOk(s, Journal(s), s.accounts[a])
  }

  ghost predicate Solvent(s: Store) {
    forall a | a in s.accounts :: !ViolatesOverdraftGuard(s.accounts[a])
  }

  /** The signed POSTED entries of the entry's account up to and including the `i`-th of the journal. */
  function RunningPosted(s: Store, j: seq<Entry>, i: nat): int
    requires i < |j| && j[i].line.accountId in s.accounts
  {
    var a := j[i].line.accountId;
    if s.accounts[a].normalBalance.CreditNormal?
    then PostedOn(j, i + 1, Credit, a) - PostedOn(j, i + 1, Debit, a)
    else PostedOn(j, i + 1, Debit, a) - PostedOn(j, i + 1, Credit, a)
  }

  /** Every entry's balance snapshot is the prefix sum of its account's POSTED entries. */
  ghost predicate RunningBalances(s: Store) {
    var j := Journal(s);
    forall i | 0 <= i < |j| ::
      j[i].line.accountId in s.accounts && j[i].resultingPostedCents == RunningPosted(s, j, i)
  }

  ghost predicate Inv(s: Store) {
    && AccountsIndexed(s)
    && TransactionsIndexed(s)
    && EntriesOk(s)
    && Phases(s)
    && Resolutions(s)
    && CountersMatch(s)
    && Solvent(s)
    && RunningBalances(s)
  }
}
