/**
 The pure core of packages/ledger/src/engine.ts and the value of
 packages/ledger/src/memory-store.ts: what one call does to the store.
 */
module LedgerEngine {
  import opened LedgerTypes

  // ----- The store as a value -----

  /**
   The five maps of the in-memory store. A JavaScript Map iterates in insertion order, and both
   `allAccounts` and `allEntries` expose that order, so the two iterated maps carry it.
   */
  datatype Store = Store(
    accounts: map<Id, Account>,
    accountOrder: seq<Id>,
    accountsByCode: map<string, Id>,
    transactions: map<Id, Transaction>,
    entries: map<Id, seq<Entry>>,
    entryOrder: seq<Id>,
    byIdempotencyKey: map<string, Id>)

  const EMPTY := Store(map[], [], map[], map[], map[], [], map[])

  datatype AccountTemplate = AccountTemplate(code: string, accountType: AccountType, allowsNegative: bool)

  function NewAccount(t: AccountTemplate, id: Id): Account {
    Account(id, t.code, t.accountType, NormalBalanceFor(t.accountType), t.allowsNegative, Counters(0, 0, 0, 0), 0, 0)
  }

  function CreateAccount(s: Store, t: AccountTemplate, newId: Id): Store {
    if t.code in s.accountsByCode && s.accountsByCode[t.code] != NO_ID then s
    else s.(accounts := s.accounts[newId := NewAccount(t, newId)],
            accountOrder := if newId in s.accounts then s.accountOrder else s.accountOrder + [newId],
            accountsByCode := s.accountsByCode[t.code := newId])
  }

  function Persist(s: Store, tx: Transaction, entries: seq<Entry>, accounts: map<Id, Account>): Store {
    var s1 := s.(transactions := s.transactions[tx.id := tx], accounts := s.accounts + accounts);
    if entries == [] then s1
    else s1.(entries := s.entries[tx.id := entries],
             entryOrder := if tx.id in s.entries then s.entryOrder else s.entryOrder + [tx.id],
             byIdempotencyKey := s.byIdempotencyKey[tx.idempotencyKey := tx.id])
  }

  function EntriesOf(s: Store, t: Id): seq<Entry> {
    if t in s.entries then s.entries[t] else []
  }

  /** The locked copies: the requested accounts that exist. */
  function LockAccounts(s: Store, ids: set<Id>): map<Id, Account> {
    map a | a in ids && a in s.accounts :: s.accounts[a]
  }

  // ----- assertBalanced -----

  /** The amounts on side `d` among the first `n` lines. */
  function SideSum(lines: seq<Line>, n: nat, d: Direction): int
    requires n <= |lines|
  {
    if n == 0 then 0
    else SideSum(lines, n - 1, d) + (if lines[n - 1].direction == d then lines[n - 1].amountCents else 0)
  }

  function Total(lines: seq<Line>, d: Direction): int {
    SideSum(lines, |lines|, d)
  }

  predicate AllPositive(lines: seq<Line>) {
    forall i | 0 <= i < |lines| :: lines[i].amountCents > 0
  }

  predicate Balanced(lines: seq<Line>) {
    |lines| >= 2 && AllPositive(lines) && Total(lines, Debit) == Total(lines, Credit)
  }

  /** The error `assertBalanced` throws: length first, then the first bad amount, then the sums. */
  function BalanceError(lines: seq<Line>): (r: Option<LedgerError>)
    ensures r.None? <==> Balanced(lines)
  {
    if |lines| < 2 then Some(TooFewEntries)
    else
      var k := FirstNonPositive(lines, 0);
      if k < |lines| then Some(NonPositiveAmount(lines[k].amountCents))
      else if Total(lines, Debit) != Total(lines, Credit) then
        Some(Unbalanced(Total(lines, Debit), Total(lines, Credit)))
      else None
  }

  function FirstNonPositive(lines: seq<Line>, from: nat): (k: nat)
    requires from <= |lines|
    ensures from <= k <= |lines|
    ensures forall i | from <= i < k :: lines[i].amountCents > 0
    ensures k < |lines| ==> lines[k].amountCents <= 0
    decreases |lines| - from
  {
    if from == |lines| || lines[from].amountCents <= 0 then from else FirstNonPositive(lines, from + 1)
  }

  // ----- deltaFor and resolveDelta -----

  /** Which delta function `buildEntries` was handed. */
  datatype Mode = Hold | Direct | CommitHold | VoidHold

  function Delta(mode: Mode, line: Line): Counters {
    var x := line.amountCents;
    match (mode, line.direction)
    case (Hold, Debit) => Counters(0, 0, x, 0)
    case (Hold, Credit) => Counters(0, 0, 0, x)
    case (Direct, Debit) => Counters(x, 0, 0, 0)
    case (Direct, Credit) => Counters(0, x, 0, 0)
    case (CommitHold, Debit) => Counters(x, 0, -x, 0)
    case (CommitHold, Credit) => Counters(0, x, 0, -x)
    case (VoidHold, Debit) => Counters(0, 0, -x, 0)
    case (VoidHold, Credit) => Counters(0, 0, 0, -x)
  }

  function EntryPhaseOf(mode: Mode): Phase {
    match mode
    case Hold => PhasePending
    case Direct => PhasePosted
    case CommitHold => PhasePosted
    case VoidHold => PhaseVoid
  }

  function ApplyDelta(a: Account, d: Counters): Account {
    a.(counters := Counters(a.counters.debitsPosted + d.debitsPosted, a.counters.creditsPosted + d.creditsPosted,
                            a.counters.debitsPending + d.debitsPending, a.counters.creditsPending + d.creditsPending),
       entryCount := a.entryCount + 1,
       version := a.version + 1)
  }

  // ----- buildEntries -----

  datatype BuildResult = Built(accounts: map<Id, Account>, entries: seq<Entry>) | BuildFailed(error: LedgerError)

  function BuildOne(r: BuildResult, line: Line, index: nat, tx: Transaction, mode: Mode, entryId: Id): BuildResult
    requires r.Built?
  {
    if line.accountId !in r.accounts then BuildFailed(AccountMissing(line.accountId))
    else
      var before := r.accounts[line.accountId];
      var after := ApplyDelta(before, Delta(mode, line));
      if ViolatesOverdraftGuard(after) then
        BuildFailed(InsufficientFunds(line.accountId, line.amountCents, ComputeBalances(before).available))
      else
        Built(r.accounts[line.accountId := after],
              r.entries + [Entry(entryId, tx.id, line, EntryPhaseOf(mode), index,
                                 ComputeBalances(after).posted, tx.effectiveAt)])
  }

  /** The loop of `buildEntries` over the first `n` lines; `entryIds(i)` is the i-th id that `newId` hands out. */
  function Build(lines: seq<Line>, n: nat, tx: Transaction, mode: Mode, entryIds: nat -> Id, accounts: map<Id, Account>)
    : BuildResult
    requires n <= |lines|
  {
    if n == 0 then Built(accounts, [])
    else
      var r := Build(lines, n - 1, tx, mode, entryIds, accounts);
      if r.BuildFailed? then r else BuildOne(r, lines[n - 1], n - 1, tx, mode, entryIds(n - 1))
  }

  // ----- post and resolvePending -----

  /** What the surroundings supply to one call: the clock, and the ids `newId` would mint. */
  datatype Context = Context(now: Instant, newId: Id, entryIds: nat -> Id)

  function AccountIds(lines: seq<Line>): set<Id> {
    set i | 0 <= i < |lines| :: lines[i].accountId
  }

  function PostTransaction(input: PostInput, ctx: Context): Transaction {
    var effectiveAt := if input.effectiveAt.Some? then input.effectiveAt.value else ctx.now;
    Transaction(
      if input.id.Some? then input.id.value else ctx.newId,
      input.kind,
      if input.phase.PhasePending? then StatusPending else StatusPosted,
      Total(input.entries, Debit),
      input.idempotencyKey,
      None,
      effectiveAt,
      if input.phase.PhasePosted? then Some(effectiveAt) else None,
      None)
  }

  function PostMode(phase: PostPhase): Mode {
    if phase.PhasePending? then Hold else Direct
  }

  function Replay(s: Store, key: string): Outcome
    requires key in s.byIdempotencyKey && s.byIdempotencyKey[key] in s.transactions
  {
    Accepted(s.transactions[s.byIdempotencyKey[key]], EntriesOf(s, s.byIdempotencyKey[key]), true)
  }

  /** The lookup tests the found id for truth, so an empty id counts as absent. */
  predicate Replays(s: Store, key: string) {
    && key in s.byIdempotencyKey
    && s.byIdempotencyKey[key] != NO_ID
    && s.byIdempotencyKey[key] in s.transactions
  }

  function Post(s: Store, input: PostInput, ctx: Context): (Store, Outcome) {
    if Replays(s, input.idempotencyKey) then (s, Replay(s, input.idempotencyKey))
    else
      var bad := BalanceError(input.entries);
      if bad.Some? then (s, Refused(bad.value))
      else
        var missing := FirstMissing(s, input.entries, 0);
        if missing < |input.entries| then (s, Refused(AccountMissing(input.entries[missing].accountId)))
        else
          var tx := PostTransaction(input, ctx);
          Finish(s, tx, Build(input.entries, |input.entries|, tx, PostMode(input.phase), ctx.entryIds,
                              LockAccounts(s, AccountIds(input.entries))))
  }

  function FirstMissing(s: Store, lines: seq<Line>, from: nat): (k: nat)
    requires from <= |lines|
    ensures from <= k <= |lines|
    ensures forall i | from <= i < k :: lines[i].accountId in s.accounts
    ensures k < |lines| ==> lines[k].accountId !in s.accounts
    decreases |lines| - from
  {
    if from == |lines| || lines[from].accountId !in s.accounts then from else FirstMissing(s, lines, from + 1)
  }

  function Finish(s: Store, tx: Transaction, r: BuildResult): (Store, Outcome) {
    if r.BuildFailed? then (s, Refused(r.error))
    else (Persist(s, tx, r.entries, r.accounts), Accepted(tx, r.entries, false))
  }

  function Lines(entries: seq<Entry>): (lines: seq<Line>)
    ensures |lines| == |entries|
    ensures forall i | 0 <= i < |lines| :: lines[i] == entries[i].line
  {
    seq(|entries|, i requires 0 <= i < |entries| => entries[i].line)
  }

  datatype ResolveOptions = ResolveOptions(idempotencyKey: string, kind: Option<TransactionKind>)

  function ResolutionStatus(commit: bool): Status {
    if commit then StatusPosted else StatusVoided
  }

  function ResolutionMode(commit: bool): Mode {
    if commit then CommitHold else VoidHold
  }

  function ResolutionTransaction(pending: Transaction, options: ResolveOptions, commit: bool, ctx: Context): Transaction {
    Transaction(
      ctx.newId,
      if options.kind.Some? then options.kind.value else pending.kind,
      ResolutionStatus(commit),
      pending.amountCents,
      options.idempotencyKey,
      Some(pending.id),
      ctx.now,
      if commit then Some(ctx.now) else None,
      if commit then None else Some(ctx.now))
  }

  function Resolved(pending: Transaction, commit: bool, now: Instant): Transaction {
    pending.(status := ResolutionStatus(commit),
             postedAt := if commit then Some(now) else pending.postedAt,
             voidedAt := if commit then pending.voidedAt else Some(now))
  }

  function ResolvePending(s: Store, pendingId: Id, options: ResolveOptions, commit: bool, ctx: Context): (Store, Outcome) {
    if Replays(s, options.idempotencyKey) then (s, Replay(s, options.idempotencyKey))
    else if pendingId !in s.transactions then (s, Refused(PendingNotFound(pendingId)))
    else
      var pending := s.transactions[pendingId];
      if !pending.status.StatusPending? then (s, Refused(NotPending(pendingId, pending.status)))
      else
        var lines := Lines(EntriesOf(s, pendingId));
        var tx := ResolutionTransaction(pending.(id := pendingId), options, commit, ctx);
        var r := Build(lines, |lines|, tx, ResolutionMode(commit), ctx.entryIds, LockAccounts(s, AccountIds(lines)));
        if r.BuildFailed? then (s, Refused(r.error))
        else
          (Persist(Persist(s, tx, r.entries, r.accounts), Resolved(pending, commit, ctx.now), [], map[]),
           Accepted(tx, r.entries, false))
  }
}
