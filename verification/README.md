# A verified model of the banking connector

A Dafny 4.11 model of the parts of the connector that must not get money wrong, with machine-checked
proofs. Check everything with `dafny verify dfyconfig.toml`.

- **The double-entry, two-phase ledger.** Posts, holds, commits and voids over four materialised
  counters per account, idempotent by key. `LedgerTypes` and `LedgerEngine` say what one call does to
  the store as a value; `MemoryStore` has the store and the engine as objects, each method proved
  against that value; `LedgerInvariant`, `LedgerPreservation` and `LedgerSafety` hold the invariant and
  its proof; `LedgerEquation`, `LedgerAudit`, `LedgerRecords`, `LedgerRetry`, `LedgerAnswers`,
  `LedgerRefusals`, `LedgerTwoPhase`, `LedgerDirect`, `LockOrder` and `Movements` hold what follows from it.
- **The service on top of it.** `ShadowLedger`, `NoDoubleSpend`, `CustomerAccounts` and `Race` for the
  money operations; `Reconciler`, `ReconcilerSafety` and `ReconcilerAnswers` for payments whose outcome is
  unknown.
- **The HTTP idempotency protocol.** `Idempotency`, `IdempotencyRepository`, `IdempotencySafety`,
  `IdempotencyReplay`, `IdempotencyUnknown`, and the request fingerprint in `JsonText`, `CanonicalJson`,
  `CanonicalTies`, `JsonReader` and `RequestFingerprint`.
- **Smaller pieces.** The bank calendar (`CivilDates`, `Easter`, `Computus`, `BankCalendar`, `ClosedDays`,
  `BusinessDays`, `BusinessCalendar`), statement paging (`Statement`, `StatementPaging`,
  `StatementAnswers`), Base32 (`Base32`) and the promise-chain mutex (`KeyedMutex`). `Sequences` has filters, stable sorting and sums; `Witnesses` has
  concrete runs in which the conditions below fail.

What the surroundings supply is a parameter: the clock, the ids of `newId`, the provider's answers, the
digest and signature functions, upper-casing and key comparison tables. Where a result needs something
of them it says so in a `requires`: ids are fresh (`FreshIds`, `Legal`), executors report or die within
their lease and a record in execution is not swept (`TimelyRun`), nobody uses a resolver key for something
else (`Disciplined`), the key comparison is consistent (`Consistent`) and tells the three keys of the
fingerprint payload apart (`PayloadKeysApart`), unpacking undoes packing (`CodecOk`).

Where the code does less than one might expect, the exact condition is proved:

- A caller-supplied transaction id that is in use overwrites a record, and an empty one, which is kept,
  leaves its key unrecognised; an id that is new and not empty is necessary and sufficient
  (`LedgerSafety.PostKeepsInvExactlyWhenFresh`). Both happen: `Witnesses.StaleIdIsAccepted`,
  `Witnesses.EmptyIdPostsTwice`.
- `complete` and `release` do not look at the lease, so a second handler can run beside the first
  exactly when the first outlives its lease (`IdempotencyReplay.SecondExecutorExactlyAfterLease`, and a
  run in `Witnesses.TwoHandlersRun`). The comment at
  apps/api/src/persistence/idempotency.repository.ts:74 says only the sweeper deletes rows; `release`
  does too, and the model follows the code.
- A decisive answer is refused when another service resolved the hold under its own key, even with the
  same verdict (`ReconcilerSafety.AcceptedExactlyWhen`); so it goes when the webhook settles first
  (`Witnesses.SettledAnswerIsRefused`).
- With every status change it applies the resolver sends an event, SETTLED for a settled answer and FAILED
  for any other. It tells the truth exactly when the answer is final
  (`ReconcilerSafety.NoticesTrueExactlyWhenFinal`); for "processing", which the status tables let follow
  "unknown", FAILED goes out while the hold still stands (`ReconcilerAnswers.NonFinalIsToldFailed`).
- `canonicalJson` hides the order of members exactly for values in which no object has two different
  keys that compare equal (`CanonicalTies.OrderBlindExactlyWhenTieFree`); `localeCompare` can call two
  different keys equal. Equal texts always mean equal values, whatever the comparison.
- Going back, `businessDaysBetween` is one less than the days added when the start is not a business day
  (`BusinessDays.DistanceOfAdded`).
- `decodeBase32` accepts padding or trailing white space, but not padding followed by white space
  (`Base32.AcceptedExactlyWithoutBoth`).

## Model

| member | source | states |
|---|---|---|
| LedgerEngine.BalanceError | packages/ledger/src/engine.ts:69-93 | no error exactly for at least two lines, all positive, with equal debit and credit totals |
| MemoryStore.Engine.AssertBalanced | packages/ledger/src/engine.ts:69-93 | the loop reports the same first error, and on success the common total of both sides |
| MemoryStore.Engine.BuildEntries | packages/ledger/src/engine.ts:296-334 | the loop over locked copies is the recursive build, failing at the first missing or overdrawn account |
| LedgerSums.BuildSpec | packages/ledger/src/engine.ts:100-136 | a build succeeds exactly when every line finds its account and leaves it not overdrawn, and then each account moves by the sums of its lines and each entry snapshots the posted balance |
| LedgerSums.AffordableKeepsSolvent | packages/ledger/src/balances.ts:39-42 | an account that no line leaves overdrawn is not overdrawn at the end |
| MemoryStore.InMemoryLedgerStore.constructor | packages/ledger/src/memory-store.ts:35-37 | seeding the chart of accounts gives a store that satisfies the ledger invariant |
| MemoryStore.InMemoryLedgerStore.CreateAccount | packages/ledger/src/memory-store.ts:50-82 | opens one account per code, with the template's code, type and guard and nothing on it; a known code changes nothing and returns the account it names |
| MemoryStore.InMemoryLedgerStore.OpenCustomerAccounts | packages/ledger/src/memory-store.ts:84-94 | two different accounts, under the customer's two codes, new or as they were |
| MemoryStore.InMemoryLedgerStore.LockAccounts | packages/ledger/src/memory-store.ts:114-123 | copies exactly the requested accounts that exist |
| MemoryStore.InMemoryLedgerStore.FindByIdempotencyKey | packages/ledger/src/memory-store.ts:125-133 | answers a replay exactly when the key names a transaction, with that transaction's record and all its entries |
| MemoryStore.InMemoryLedgerStore.Persist | packages/ledger/src/memory-store.ts:143-154 | the whole new store: record, entries and key only with entries, accounts merged |
| MemoryStore.Engine.Post | packages/ledger/src/engine.ts:155-189 | a post is the value-level step and keeps the ledger invariant |
| MemoryStore.Engine.MissingAccount | packages/ledger/src/engine.ts:277-286 | finds the first line whose account does not exist |
| MemoryStore.Engine.CommitPending | packages/ledger/src/engine.ts:197-202 | committing is the value-level resolution and keeps the invariant |
| MemoryStore.Engine.VoidPending | packages/ledger/src/engine.ts:205-210 | voiding is the value-level resolution and keeps the invariant |
| MemoryStore.Engine.ResolvePending | packages/ledger/src/engine.ts:212-275 | replay, missing, not pending, refused or resolved, in that order; both persists as one step; keeps the invariant |
| LedgerPreservation.PostGrows | packages/ledger/src/engine.ts:155-189 | a post changes nothing or adds exactly its transaction, entries, key and counter movements |
| LedgerPreservation.ResolveGrows | packages/ledger/src/engine.ts:212-275 | a resolution changes nothing or adds its transaction, repeats the hold's lines and closes that hold only |
| LedgerPreservation.KeepsCounters | packages/ledger/src/engine.ts:100-136 | posted counters stay the sums of POSTED entries, pending ones the sums over open holds, entryCount the number of entries |
| LedgerPreservation.KeepsRunning | packages/ledger/src/engine.ts:319-330 | each entry's resultingPostedCents stays the prefix sum of its account's signed POSTED entries |
| LedgerPreservation.KeepsResolutions | packages/ledger/src/engine.ts:224-272 | each hold has no resolution while open and exactly one afterwards, with its verdict |
| LedgerPreservation.GrowsKeepsInv | packages/ledger/src/engine.ts:155-334 | every accepted call keeps the whole invariant |
| LedgerSafety.OpenKeepsInv | packages/ledger/src/memory-store.ts:50-82 | opening an account keeps the invariant |
| LedgerSafety.StepKeepsInv | packages/ledger/src/engine.ts:155-334 | every action, accepted, refused or replayed, keeps the invariant |
| LedgerSafety.ReachableInv | packages/ledger/src/engine.ts:155-334 | counters, indexes, solvency, resolutions and running balances hold in every store any run can produce |
| LedgerSafety.PostKeepsInvExactlyWhenFresh | packages/ledger/src/engine.ts:166-167 | a newly accepted post keeps the invariant if and only if its transaction id is new and not empty |
| LedgerSafety.EmptyIdLosesKey | packages/ledger/src/memory-store.ts:125-133 | under an empty caller id the key is stored but not found again |
| Witnesses.StaleIdIsAccepted | packages/ledger/src/engine.ts:166-187 | a reachable store and a post under a used id that is accepted and breaks the invariant |
| Witnesses.EmptyIdPostsTwice | packages/ledger/src/engine.ts:156-187 | a reachable store and a post under an empty id that is accepted twice under one key |
| LedgerRecords.BalancesMeanJournal | packages/ledger/src/balances.ts:10-42 | posted, available and pending as signed sums over the journal and the open holds; available never negative on guarded accounts |
| LedgerRecords.RunKeepsRecords | packages/ledger/src/engine.ts:166-181 | every record's amount is each side's total, and its dates agree with its status |
| LedgerRecords.ResolveRecord | packages/ledger/src/engine.ts:240-269 | a resolution carries the hold's amount, and the closed hold the verdict's date and no other |
| LedgerRecords.BalanceSheet | packages/ledger/src/chart-of-accounts.ts:48-112 | assets and expenses equal liabilities, equity and revenue in every reachable store |
| LedgerAudit.GroupByTransaction | packages/ledger/src/invariants.ts:20-26 | groups entries by transaction, each group in order, keys once and in the order the entries first mention them |
| LedgerAudit.CheckTransactions | packages/ledger/src/invariants.ts:28-41 | reports exactly the unbalanced transactions, with their sums |
| LedgerAudit.CheckLedger | packages/ledger/src/invariants.ts:43-55 | reports exactly a ledger whose totals differ |
| LedgerAudit.CheckCounters | packages/ledger/src/invariants.ts:57-84 | reports exactly the accounts whose posted counters differ from their entries |
| LedgerAudit.CheckAmounts | packages/ledger/src/invariants.ts:86-94 | reports exactly the entries that are not positive |
| LedgerAudit.CheckBalances | packages/ledger/src/invariants.ts:96-109 | reports exactly the guarded accounts with a negative posted balance |
| LedgerAudit.CheckInvariants | packages/ledger/src/invariants.ts:14-112 | reports exactly the violations there are, defined without its loops |
| LedgerEquation.AuditReachable | packages/ledger/src/invariants.ts:14-112 | no violation on any reachable store |
| LedgerEquation.AccountingEquation | packages/ledger/src/balances.ts:10-29 | debit-normal posted balances equal credit-normal ones, and pending debits equal pending credits |
| LedgerRetry.StepExtends | packages/ledger/src/engine.ts:155-189 | a refused or replayed call changes nothing; any call leaves keys, entry lists and closed records as they were |
| LedgerRetry.RunExtends | packages/ledger/src/memory-store.ts:114-154 | over any run a key names one transaction and one entry list for ever |
| LedgerRetry.RetryErasure | packages/ledger/src/engine.ts:217-228 | the store equals the one after only the calls that took effect, which use each key once |
| LedgerAnswers.PostAnswers | packages/ledger/src/engine.ts:155-189 | a post that goes through answers the lines asked for, in order and in the phase asked for, with kind, key, id, status and dates as asked |
| LedgerAnswers.ResolveAnswers | packages/ledger/src/engine.ts:236-275 | a resolution enters the hold's lines again as POSTED or VOID, dated now, and leaves of the hold everything but status and date |
| LedgerAnswers.RepeatedAnswer | packages/ledger/src/engine.ts:153-157 | in every run, after a call goes through, every later post or resolution under its key, whatever lies between, answers the same transaction (apart from status and dates) with the same entries, as a replay |
| LedgerRefusals.PostRefusals | packages/ledger/src/engine.ts:69-334 | which error a post is refused with: the first reason in a fixed order, with the first offending line and the balance it met; otherwise accepted |
| LedgerRefusals.ResolveRefusals | packages/ledger/src/engine.ts:217-230 | a resolution is refused for an unknown or no longer pending transaction and for nothing else |
| LedgerTwoPhase.ResolveNeverRefused | packages/ledger/src/engine.ts:212-275 | resolving an open hold under a new key is never stopped by the guard |
| LedgerTwoPhase.TwoPhaseLaw | packages/ledger/src/engine.ts:112-136 | hold, any calls, commit: the counters of a direct post; hold, any calls, void: as if never held |
| LedgerTwoPhase.DirectAccepted | packages/ledger/src/balances.ts:31-42 | where a hold is accepted, so is the direct post of the same lines |
| LedgerTwoPhase.HoldCommitIsDirectPost | packages/ledger/src/engine.ts:124-136 | hold and commit leave the same four counters as one direct post |
| LedgerDirect.CallStaysAhead | packages/ledger/src/engine.ts:296-334 | a call that goes through while a hold stands goes through after the direct post, with the same effect |
| LedgerDirect.CommitCatchesUp | packages/ledger/src/engine.ts:112-136 | hold, calls, commit and direct post, same calls: none is refused there either, and all four counters of every account end equal |
| LockOrder.LockOrder | packages/ledger/src/engine.ts:95-98 | exactly the accounts of the lines, each once, strictly increasing |
| LockOrder.NoDeadlock | packages/db/src/ledger-store.ts:46-57 | no reachable state of transactions taking locks one by one has a cycle of waits |
| LockOrder.AlwaysProceeds | packages/db/src/ledger-store.ts:46-57 | while a transaction is unfinished, some transaction can take a step |
| Movements.Movements | apps/api/src/ledger/shadow-ledger.service.ts:356-401 | one item per posted transaction of the window and no other, with its kind, net amount and lowest entry, in entry order |
| Movements.MovementsTotal | apps/api/src/ledger/memory-ledger-store.ts:82-95 | the items add up to the POSTED entries of the window |
| Movements.MovementsAreBalance | apps/api/src/ledger/shadow-ledger.service.ts:356-401 | over a window that covers everything they add up to the posted balance |
| ShadowLedger.AcceptedExactlyWhenAllowed | apps/api/src/ledger/shadow-ledger.service.ts:96-315 | under a new key each money operation is accepted exactly when its condition on balances holds |
| ShadowLedger.CallAnswers | apps/api/src/ledger/shadow-ledger.service.ts:96-315 | the record of an accepted call tells which operation it was; only an authorisation is a hold; a settlement or release names its hold |
| NoDoubleSpend.PostEffect | apps/api/src/ledger/shadow-ledger.service.ts:96-315 | what each posting operation does to every customer's available balance |
| NoDoubleSpend.ResolveEffect | apps/api/src/ledger/shadow-ledger.service.ts:160-190 | settling leaves available balances alone, voiding gives the hold back |
| NoDoubleSpend.StepKeepsShadow | apps/api/src/ledger/shadow-ledger.service.ts:78-315 | every operation keeps store and history in agreement |
| NoDoubleSpend.NoDoubleSpend | apps/api/src/ledger/shadow-ledger.service.ts:96-315 | over any interleaving, available is money in minus out minus settled minus outstanding holds, and never negative; no hold is both settled and voided |
| NoDoubleSpend.SeededIsBlank | packages/ledger/src/memory-store.ts:35-37 | the freshly seeded store is a ledger the no-double-spend result starts from |
| CustomerAccounts.OpenEffect | packages/ledger/src/memory-store.ts:50-82 | opening under a new code adds one account of the template's code, type, normal side and guard, all balances zero; under a known code nothing |
| CustomerAccounts.AccountsKeepTemplate | packages/ledger/src/memory-store.ts:50-82 | whatever calls follow, an account keeps the code, type and guard of the template it was opened with |
| CustomerAccounts.NoDoubleSpendForOpened | apps/api/src/ledger/shadow-ledger.service.ts:78-315 | no double spend for every account the run itself opens from a guarded Liability template |
| CustomerAccounts.CodesApart | packages/ledger/src/chart-of-accounts.ts:114-138 | codes of different customers, of one customer's two accounts and of the chart never coincide |
| CustomerAccounts.ChartIs | packages/ledger/src/chart-of-accounts.ts:48-112 | four-digit codes whose first digit tells the type; only the external world may go negative |
| CustomerAccounts.CustomersNeverOverdrawn | apps/api/src/ledger/shadow-ledger.service.ts:78-315 | from the seeded ledger, for every customer the service opens accounts for: both stay open and guarded, their available balance is what their history says, and never negative |
| Race.RaceForBalance | packages/ledger/src/engine.ts:296-334 | of any number of equal authorisations racing for a balance, exactly as many as it covers go through |
| Reconciler.KeysApart | apps/api/src/pix/operation-reconciler.ts:219-233 | resolver keys of different operations or verdicts never coincide |
| ReconcilerSafety.NextKeepsInv | apps/api/src/pix/operation-reconciler.ts:65-117 | every step of every call in flight keeps calls and marks backed by resolutions |
| ReconcilerSafety.ResolveHoldBacked | apps/api/src/pix/operation-reconciler.ts:214-233 | what the ledger gives a call, first time or replay, is the resolution of its hold with its verdict |
| ReconcilerSafety.MarksAreTrue | apps/api/src/pix/operation-reconciler.ts:202-278 | in every run the mark says SETTLED, FAILED or SUBMITTED as the answer did; with a hold, SETTLED (FAILED) exactly when the resolution the call was given committed (voided) it, its only one |
| ReconcilerSafety.ResolvedAtMostOnce | packages/ledger/src/engine.ts:212-275 | in every run a hold is committed or voided at most once and never both |
| ReconcilerSafety.HoldStands | apps/api/src/pix/operation-reconciler.ts:106-116 | a hold stands until a settled or failed answer about it arrives or another service resolves it |
| ReconcilerSafety.AcceptedExactlyWhen | apps/api/src/pix/operation-reconciler.ts:219-233 | a decisive answer goes through exactly when the hold is open or this operation already resolved it so |
| ReconcilerSafety.NoticesTrueExactlyWhenFinal | apps/api/src/pix/operation-reconciler.ts:247-259 | in every run SETTLED goes out exactly for settled answers, and an event about an operation with a hold says what became of that hold exactly when the answer was final |
| ReconcilerAnswers.MarksComeFromAnswers | apps/api/src/pix/operation-reconciler.ts:95-116 | in every run every mark was written for an answer the provider gave to a call about that operation, and tells it |
| ReconcilerAnswers.FinishWrites | apps/api/src/pix/operation-reconciler.ts:261-267 | the last step writes the answer's verdict into the operation's row, and nothing else |
| ReconcilerAnswers.ChangeWrites | apps/api/src/pix/operation-reconciler.ts:235-259 | an applied status change leaves the transaction's row with the answer, touches no other row and sends one event |
| ReconcilerAnswers.AnswerLands | apps/api/src/pix/operation-reconciler.ts:202-278 | an answer brought to its end: transaction row, operation row and hold all carry its verdict, the hold by one resolution and no other |
| ReconcilerAnswers.BookedFor | apps/api/src/pix/operation-reconciler.ts:219-233 | a settled answer is booked as a settlement and a failed one as a release, under the operation's own key |
| ReconcilerAnswers.LedgerLeftAlone | apps/api/src/pix/operation-reconciler.ts:218-219 | without a hold, an empty id counting as none, or without a final answer, the ledger is left alone and the call goes on |
| ReconcilerAnswers.NonFinalIsToldFailed | apps/api/src/pix/operation-reconciler.ts:247-251 | for every answer that is not final and is applied, FAILED goes out while the operation is SUBMITTED and the ledger as it was |
| ReconcilerAnswers.LookedUp | apps/api/src/pix/operation-reconciler.ts:76-89 | a call gets past the look-up exactly when there is a transaction whose account the provider knows |
| ReconcilerAnswers.FinalRowsRest | apps/api/src/pix/operation-reconciler.ts:72-74 | once an operation is settled or failed and no call is about it, no later call touches its row, counts an attempt or marks it |
| ReconcilerAnswers.AttemptsAreCounted | apps/api/src/pix/operation-reconciler.ts:95-99 | in every run attempts grow by exactly the calls that went to ask the provider |
| Witnesses.SettledAnswerIsRefused | apps/api/src/webhooks/webhook-apply.service.ts:455-468 | a legal run in which the webhook commits the hold first and the resolver's settled answer is refused and marks nothing |
| IdempotencyRepository.RecordTable.InsertIfFree | apps/api/src/persistence/idempotency.repository.ts:60-70 | inserts exactly when the key is free, does nothing on a conflict, and touches no other key |
| IdempotencyRepository.RecordTable.Find | apps/api/src/persistence/idempotency.repository.ts:82-91 | the row under the unique index |
| IdempotencyRepository.RecordTable.TakeExpired | apps/api/src/persistence/idempotency.repository.ts:101-110 | updates exactly a row in flight whose lease is over, and tells whether there was one |
| IdempotencyRepository.RecordTable.FindById | apps/api/src/persistence/idempotency.repository.ts:112-113 | the row with that id, if it is still there |
| IdempotencyRepository.RecordTable.Renew | apps/api/src/persistence/idempotency.repository.ts:116-121 | moves the lease of that row only, whatever its state |
| IdempotencyRepository.RecordTable.Finish | apps/api/src/persistence/idempotency.repository.ts:123-142 | stores state, status and body in that row only, whoever holds the lease |
| IdempotencyRepository.RecordTable.Delete | apps/api/src/persistence/idempotency.repository.ts:144-146 | removes that row only; nothing when it is gone |
| IdempotencySafety.NextKeepsSound | apps/api/src/idempotency/idempotency.interceptor.ts:104-178 | every step keeps what requests know about records true |
| IdempotencySafety.ExecutionsShareOperation | apps/api/src/idempotency/idempotency.interceptor.ts:114-178 | in every run all executions of a record share operation id and fingerprint, and all but the first reconcile before executing |
| IdempotencySafety.NextKeepsExclusive | apps/api/src/persistence/idempotency.repository.ts:60-146 | nobody takes a living lease or inserts beside an executor |
| IdempotencySafety.AtMostOneExecutor | apps/api/src/idempotency/idempotency.interceptor.ts:104-207 | if executors report or die within their lease, at most one request runs the handler at any time |
| IdempotencyReplay.FinishedRecordAnswers | apps/api/src/idempotency/idempotency.interceptor.ts:141-154 | once finished and until swept: the record stays, no handler runs or answers, and every request that had not read a record yet gets the stored status and body or is refused for another fingerprint |
| IdempotencyReplay.SameResponseForEver | apps/api/src/idempotency/idempotency.interceptor.ts:191-239 | all responses given for one record, the handler's and its replays, are the same |
| IdempotencyReplay.SecondExecutorExactlyAfterLease | apps/api/src/persistence/idempotency.repository.ts:100-146 | a second request can run the handler beside the first exactly when the first has outlived its lease |
| IdempotencyReplay.RetryAfterLease | apps/api/src/idempotency/idempotency.interceptor.ts:157-178 | once the lease is over a repeat of the request runs the handler, under the same record and operation, told to reconcile |
| IdempotencyUnknown.FreedExactlyWhen | apps/api/src/idempotency/idempotency.interceptor.ts:219-241 | a key becomes free exactly when a handler of its record fails transiently, or by the sweeper |
| IdempotencyUnknown.ConclusionStored | apps/api/src/idempotency/idempotency.interceptor.ts:191-238 | a success is stored as COMPLETED and a lasting failure as FAILED, with the handler's own status and body and no lease |
| IdempotencyUnknown.FreedKeyIsClaimed | apps/api/src/persistence/idempotency.repository.ts:72-77 | a request that lost the key to a record that is gone when it looks claims it again and runs afresh |
| IdempotencyUnknown.UnknownIsCarriedOn | apps/api/src/idempotency/idempotency.interceptor.ts:219-224 | in every run, after an unknown outcome and until a handler of the record tells how it ended or it is swept: the record stays but for its lease, and every handler that runs for the key runs for this record and operation and is told to reconcile |
| IdempotencyUnknown.UnknownMakesWait | apps/api/src/idempotency/idempotency.interceptor.ts:157-163 | with timely executors, while the renewed lease lasts no handler runs and every later request is told to wait, or refused for another fingerprint |
| Witnesses.TwoHandlersRun | apps/api/src/idempotency/idempotency.interceptor.ts:104-178 | a run from the start in which an executor outlives its lease and a second handler runs beside it |
| JsonText.QuoteUnique | apps/api/src/idempotency/idempotency.interceptor.ts:301 | a quoted string followed by anything determines the string and the rest |
| JsonText.NumeralUnique | apps/api/src/idempotency/idempotency.interceptor.ts:301 | a numeral followed by a delimiter determines the numeral and the rest |
| CanonicalJson.EqualTextMeansSame | apps/api/src/idempotency/idempotency.interceptor.ts:300-308 | whatever the key comparison, equal texts come from values equal up to member order |
| CanonicalTies.SamePrintsAlike | apps/api/src/idempotency/idempotency.interceptor.ts:303-307 | a value without tied keys prints the same as every value equal to it up to member order at every depth |
| CanonicalTies.TieShows | apps/api/src/idempotency/idempotency.interceptor.ts:303-306 | a value with tied keys has another form, two tied members swapped, that prints differently |
| CanonicalTies.OrderBlindExactlyWhenTieFree | apps/api/src/idempotency/idempotency.interceptor.ts:300-308 | a value prints the same in every member order if and only if no object in it has two keys that compare equal |
| CanonicalTies.Canonical | apps/api/src/idempotency/idempotency.interceptor.ts:300-308 | against a value without tied keys: equal texts exactly for values equal up to member order at every depth |
| CanonicalTies.TiedKeysPrintApart | apps/api/src/idempotency/idempotency.interceptor.ts:305 | two members whose keys compare equal print in the order they come in |
| CanonicalTies.CanonicalExactlyWithoutTies | apps/api/src/idempotency/idempotency.interceptor.ts:303-307 | canonical for all values if and only if no two different keys compare equal |
| JsonReader.ValueBack | apps/api/src/idempotency/idempotency.interceptor.ts:300-308 | a JSON reader gives back the printed value and what follows it, at every depth |
| JsonReader.CanonicalTextReadsBack | apps/api/src/idempotency/idempotency.interceptor.ts:300-308 | canonical text is JSON, and reads back as the same value up to member order, without undefined and with every object's keys in order |
| RequestFingerprint.FingerprintExact | apps/api/src/idempotency/idempotency.interceptor.ts:287-298 | for a request without tied keys, equal fingerprints exactly for the same body, parameters and connection |
| RequestFingerprint.RecognisedExactlyWhenTieFree | apps/api/src/idempotency/idempotency.interceptor.ts:287-298 | a request is recognised in every member order if and only if it has no tied keys |
| Easter.EasterBetween | packages/reconciliation/src/calendar.ts:10-26 | between 22 March and 25 April, for every year |
| Easter.EasterIsSunday | packages/reconciliation/src/calendar.ts:10-26 | a Sunday, for every year |
| Easter.RemaindersArePlain | packages/reconciliation/src/calendar.ts:18-21 | no operand of the remainders is negative, so they are the mathematical ones |
| Computus.SolarMeaning | packages/reconciliation/src/calendar.ts:12-18 | the solar correction grows at exactly the century years that are not leap years |
| Computus.LunarMeaning | packages/reconciliation/src/calendar.ts:15-18 | the lunar correction grows eight times in 2500 years, from 1800 on |
| Computus.FullMoonIsFirst | packages/reconciliation/src/calendar.ts:18 | the full moon is the first fourteenth day of the calendar moon from 21 March on |
| Computus.MoonsApart | packages/reconciliation/src/calendar.ts:21-22 | years of one century with different golden numbers have different full moons, which is what the exceptions are for |
| Computus.EasterFollowsFullMoon | packages/reconciliation/src/calendar.ts:10-26 | for every year Easter is the first Sunday after the ecclesiastical full moon, which is defined by golden number, corrections and epact |
| Computus.EasterDetermined | packages/reconciliation/src/calendar.ts:10-26 | a Sunday within a week after that full moon is Easter: the date is determined |
| CivilDates.Shift | packages/reconciliation/src/calendar.ts:196-200 | a valid date whose day number is that many days away |
| CivilDates.NumberMonotone | packages/reconciliation/src/calendar.ts:102-114 | date order is day-number order |
| BankCalendar.MovableInYear | packages/reconciliation/src/calendar.ts:128-135 | each movable holiday falls in its year, on Monday, Tuesday, Friday and Thursday |
| BankCalendar.MemoLosesNothing | packages/reconciliation/src/calendar.ts:117-139 | a date of the year is in the month-day set exactly when it is a movable holiday |
| BankCalendar.NeverClosedForFive | packages/reconciliation/src/calendar.ts:73-94 | of any five days in a row one is a business day |
| BankCalendar.ClosedForFour | packages/reconciliation/src/calendar.ts:130-135 | four days in a row without a business day do occur |
| BankCalendar.WeekendOnlyIsDense | packages/reconciliation/src/calendar.ts:148-178 | with weekends alone the wait is at most three days |
| ClosedDays.BusinessExactlyWhen | packages/reconciliation/src/calendar.ts:28-40 | in every year a date is a business day exactly when it is no weekend, none of the dated holidays listed by month and day, and none of the four counted from the Sunday after the full moon |
| BusinessCalendar.BrazilianBankCalendar.constructor | packages/reconciliation/src/calendar.ts:69-71 | starts with a sound cache |
| BusinessCalendar.BrazilianBankCalendar.ComputeHolidays | packages/reconciliation/src/calendar.ts:121-135 | the fixed, dated and movable holidays of the year |
| BusinessCalendar.BrazilianBankCalendar.Holidays | packages/reconciliation/src/calendar.ts:117-139 | the cached set is always the computed one, and only its year is added |
| BusinessCalendar.BrazilianBankCalendar.IsBusinessDay | packages/reconciliation/src/calendar.ts:73-80 | weekends and holidays are closed, through the cache |
| BusinessCalendar.BrazilianBankCalendar.AddBusinessDays | packages/reconciliation/src/calendar.ts:82-94 | ends for every date and count, at the day with exactly that many business days in between |
| BusinessCalendar.BrazilianBankCalendar.BusinessDaysBetween | packages/reconciliation/src/calendar.ts:102-114 | counts the business days after the earlier date up to the later one |
| BusinessDays.DistanceOfAdded | packages/reconciliation/src/calendar.ts:82-114 | the distance to the day n business days on is n; going back it is the count, or one less from a closed day |
| BusinessDays.DistanceLaws | packages/reconciliation/src/calendar.ts:102-114 | symmetric, additive along time, and no detour is shorter |
| BusinessDays.AddedUnique | packages/reconciliation/src/calendar.ts:82-94 | the day reached is determined |
| BusinessDays.AddedTwice | packages/reconciliation/src/calendar.ts:82-94 | adding in two goes is adding at once |
| Statement.CursorRoundTrip | apps/api/src/pix/cursor.ts:23-57 | a cursor reads back as itself exactly under the filters it was made for |
| StatementPaging.FoundSpec | apps/api/src/persistence/pix.repositories.ts:169-193 | exactly the matching rows beyond the cursor, strictly descending by date and id |
| StatementPaging.PageSpec | apps/api/src/persistence/pix.repositories.ts:195-202 | the page is the start of what is found, and names its last row exactly when there is more |
| StatementPaging.ZeroLimitEnds | apps/api/src/persistence/pix.repositories.ts:192-202 | a limit of zero, which the HTTP contract already rules out, gives an empty last page |
| StatementPaging.ListContinues | apps/api/src/pix/statement.service.ts:49-79 | through the signed cursor the service asks for what lies beyond the last row received |
| StatementPaging.PagingOverChangingTables | apps/api/src/persistence/pix.repositories.ts:166-203 | whatever changes between pages: strictly descending, no repeats, and every row that matched throughout is returned |
| StatementPaging.PagingOverFixedTable | apps/api/src/pix/statement.service.ts:49-107 | the pages are the statement from the top, each row once, and end exactly when the limits add up to all of it |
| StatementPaging.PagingEnds | apps/api/src/persistence/pix.repositories.ts:166-203 | paging ends with all rows after no more pages than rows |
| StatementAnswers.CursorAcceptedExactly | apps/api/src/pix/cursor.ts:30-57 | a cursor is accepted exactly when it is a payload with its own signature, under the filters in it |
| StatementAnswers.ForgeryRefused | apps/api/src/pix/cursor.ts:38-42 | a payload under any other signature is refused as badly signed |
| StatementAnswers.ListAnswers | apps/api/src/pix/statement.service.ts:49-99 | a request is refused exactly for an unknown account or a cursor that is not accepted |
| StatementAnswers.StatementIsComplete | apps/api/src/pix/statement.service.ts:49-79 | when paging has ended the rows are exactly the account's settled or reversed transactions of the period, both ends included, latest first |
| Base32.OrAdds | packages/crypto/src/totp.ts:79 | where no bit is shared the bitwise or adds |
| Base32.LowBitsIsRemainder | packages/crypto/src/totp.ts:83 | masking the low bits is the remainder, also of a negative number |
| Base32.ReadBits | packages/crypto/src/totp.ts:79-96 | the wrap-around at 32 bits only disturbs bits already written |
| Base32.EncodeBase32 | packages/crypto/src/totp.ts:90-106 | the letters spell the bytes' number followed by zero bits; length is the ceiling of 8n/5 |
| Base32.DecodeBase32 | packages/crypto/src/totp.ts:70-88 | accepts exactly cleaned text in the alphabet, gives its number less the spare bits, else the first foreign character |
| Base32.InAlphabetIsMembership | packages/crypto/src/totp.ts:77-78 | the index test accepts exactly the letters of the alphabet |
| Base32.EncodingUnique | packages/crypto/src/totp.ts:90-106 | the promise determines the text |
| Base32.RoundTrip | packages/crypto/src/totp.ts:70-106 | decoding an encoding gives the bytes back |
| Base32.EncodeThenDecode | packages/crypto/src/totp.ts:70-106 | the two functions in turn, with any padding between, are the identity |
| Base32.AcceptedExactlyWithoutBoth | packages/crypto/src/totp.ts:71 | padding or trailing white space is accepted, not padding followed by white space |
| KeyedMutex.NextKeepsInv | apps/api/src/events/keyed-mutex.ts:15-37 | every call, start, end, settling and return keeps the chain in order and the map pointing at latest calls |
| KeyedMutex.OneTaskPerKey | apps/api/src/events/keyed-mutex.ts:15-20 | at most one task per key runs |
| KeyedMutex.StartsInCallOrder | apps/api/src/events/keyed-mutex.ts:15-28 | tasks of a key start in call order and none is passed over |
| KeyedMutex.NeverStuck | apps/api/src/events/keyed-mutex.ts:18-28 | while a call has not returned, a task of its key runs or a step of its key can be taken |
| KeyedMutex.TailsNeverReject | apps/api/src/events/keyed-mutex.ts:22-28 | however tasks end, no tail ever rejects |
| KeyedMutex.RejectionIsInvisible | apps/api/src/events/keyed-mutex.ts:18-27 | through both handlers, a rejected task affects the others exactly as a successful one |
| KeyedMutex.BothHandlersMatter | apps/api/src/events/keyed-mutex.ts:18-27 | without its second handler a rejection would pass a task over, or reach the map |
| KeyedMutex.EmptyWhenAllReturned | apps/api/src/events/keyed-mutex.ts:30-36 | when every call has returned the map is empty |

## Left out

- Fields that no rule reads: names, owners, currency, external references, descriptions, metadata, account status.
- Ids are given by their place in one string order; `localeCompare` and code-unit order are not told apart on them, and entry ids are not required to be unique.
- `InMemoryLedgerStore.runExclusive`: a ledger call is one atomic step; the same promise chain is proved for `KeyedMutex`.
- The Postgres, Prisma and Redis stores and the SQL functions, apart from the atomic statements named above.
- The idempotency protocol, the resolver and the mutex are steps on values, because their interleavings are the point; only the record table is also an object.
- One clock for all pods: readings may be late but clocks do not drift apart.
- Key format, missing keys, TTL lengths and the error taxonomy of the idempotency interceptor; a handler simply ends in one of its four ways.
- `IdempotencyReplay.FinishedRecordAnswers`: a request that had read an earlier state of the record before it was finished is answered from what it read, or told "in progress".
- The resolver's lookups at the provider (any answer may come back), and the tables that decide whether a status change applies (any may or may not).
- JSON values outside the data model: holes in arrays, dates, functions, big integers; numbers are given by the numeral they print as.
- Dates are triples, and years before 0 follow floor division; the string form and its order agree with this for four-digit years only.
- `CivilDates.Shift`: `Date.UTC` reads the years 0 to 99 as 1900 to 1999; here they are themselves.
- `WeekendOnlyCalendar`'s loops, which are the same as the bank calendar's.
- Upper-casing is a table from characters to strings that leaves capitals, digits, padding and white space alone.
- Rows of a statement are compared by date and id; a row whose date is changed between pages counts as another row.
- The five reconciliation passes, status machines, transfer and worker services, controllers, guards, configuration, TOTP codes and the cryptographic primitives.
