/**
 The ledger's records and its derived balances: packages/ledger/src/types.ts and
 packages/ledger/src/balances.ts.
 */
module LedgerTypes {

  datatype Option<+T> = None | Some(value: T)

  /**
   Ids are strings, of which the ledger uses only equality, order and whether one is empty. An id
   is therefore given by its place in the string order; the empty string comes first.
   */
  type Id = nat
  const NO_ID: Id := 0
  type Instant = int

  datatype AccountType = Asset | Liability | Equity | Revenue | Expense
  datatype NormalBalance = DebitNormal | CreditNormal
  datatype Direction = Debit | Credit
  datatype Phase = PhasePending | PhasePosted | PhaseVoid
  datatype Status = StatusPending | StatusPosted | StatusVoided

  /** `post` takes PENDING or POSTED; VOID entries only come from a resolution. */
  type PostPhase = p: Phase | !p.PhaseVoid? witness PhasePending

  datatype TransactionKind =
    | PixOutAuthorize | PixOutSettle | PixOutVoid | PixInReceive | PixRefundOut | PixRefundIn
    | FeeCharge | FeeReversal | BlockFunds | UnblockFunds | AccountOpeningFunding
    | ManualAdjustment | SuspenseResolution | ReconciliationAdjustment

  /** The four materialised counters of an account; also the shape of a change to them. */
  datatype Counters = Counters(debitsPosted: int, creditsPosted: int, debitsPending: int, creditsPending: int)

  datatype Account = Account(
    id: Id,
    code: string,
    accountType: AccountType,
    normalBalance: NormalBalance,
    allowsNegative: bool,
    counters: Counters,
    entryCount: nat,
    version: nat)

  /** One line of a transaction: always a positive amount, the sign lives in the direction. */
  datatype Line = Line(accountId: Id, direction: Direction, amountCents: int)

  datatype Entry = Entry(
    id: Id,
    transactionId: Id,
    line: Line,
    phase: Phase,
    sequence: nat,
    resultingPostedCents: int,
    effectiveAt: Instant)

  datatype Transaction = Transaction(
    id: Id,
    kind: TransactionKind,
    status: Status,
    amountCents: int,
    idempotencyKey: string,
    pendingTransactionId: Option<Id>,
    effectiveAt: Instant,
    postedAt: Option<Instant>,
    voidedAt: Option<Instant>)

  datatype PostInput = PostInput(
    id: Option<Id>,
    kind: TransactionKind,
    phase: PostPhase,
    idempotencyKey: string,
    entries: seq<Line>,
    effectiveAt: Option<Instant>)

  datatype LedgerError =
    | TooFewEntries
    | NonPositiveAmount(amount: int)
    | Unbalanced(debits: int, credits: int)
    | AccountMissing(accountId: Id)
    | InsufficientFunds(account: Id, requested: int, available: int)
    | PendingNotFound(transactionId: Id)
    | NotPending(pendingId: Id, status: Status)

  /** What a ledger call answers: a result (possibly a replay of an earlier one) or an exception. */
  datatype Outcome =
    | Accepted(transaction: Transaction, entries: seq<Entry>, replayed: bool)
    | Refused(error: LedgerError)

  function NormalBalanceFor(t: AccountType): NormalBalance {
    match t
    case Asset => DebitNormal
    case Expense => DebitNormal
    case Liability => CreditNormal
    case Equity => CreditNormal
    case Revenue => CreditNormal
  }

  // ----- balances.ts -----

  datatype Balances = Balances(posted: int, available: int, pending: int)

  function PostedOf(normal: NormalBalance, c: Counters): int {
    if normal.CreditNormal? then c.creditsPosted - c.debitsPosted else c.debitsPosted - c.creditsPosted
  }

  function ComputeBalances(a: Account): Balances {
    var posted := PostedOf(a.normalBalance, a.counters);
    if a.normalBalance.CreditNormal? then
      Balances(posted, posted - a.counters.debitsPending, a.counters.creditsPending)
    else
      Balances(posted, posted - a.counters.creditsPending, a.counters.debitsPending)
  }

  predicate ViolatesOverdraftGuard(a: Account) {
    !a.allowsNegative && ComputeBalances(a).available < 0
  }
}
