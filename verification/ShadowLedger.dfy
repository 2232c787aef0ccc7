/** The money operations of apps/api/src/ledger/shadow-ledger.service.ts, call by call. */
module ShadowLedger {
  import opened LedgerTypes
  import opened LedgerEngine
  import opened LedgerSums
  import opened LedgerInvariant
  import opened LedgerPreservation
  import opened LedgerRetry
  import opened LedgerTwoPhase
  import LedgerAnswers
  import MemoryStore

  datatype Operation =
    | CreditIn(account: Id, amount: int)
    | RefundIn(account: Id, amount: int)
    | RefundOut(account: Id, amount: int)
    | Adjust(account: Id, amount: int, toCustomer: bool)
    | MoveBlocked(available: Id, blocked: Id, amount: int, unblock: bool)
    | AuthorizeOut(account: Id, amount: int)
    | SettleOut(hold: Id)
    | VoidOut(hold: Id)

  datatype Call = Call(operation: Operation, key: string, ctx: Context)

  // ----- What each operation asks of the engine -----

  function Transfer(debited: Id, credited: Id, amount: int): seq<Line> {
    [Line(debited, Debit, amount), Line(credited, Credit, amount)]
  }

  function LinesFor(operation: Operation, external: Id): seq<Line>
    requires !operation.SettleOut? && !operation.VoidOut?
  {
    match operation
    case CreditIn(a, x) => Transfer(external, a, x)
    case RefundIn(a, x) => Transfer(external, a, x)
    case RefundOut(a, x) => Transfer(a, external, x)
    case Adjust(a, x, toCustomer) => if toCustomer then Transfer(external, a, x) else Transfer(a, external, x)
    case MoveBlocked(available, blocked, x, unblock) =>
      if unblock then Transfer(blocked, available, x) else Transfer(available, blocked, x)
    case AuthorizeOut(a, x) => Transfer(a, external, x)
  }

  function KindFor(operation: Operation): TransactionKind {
    match operation
    case CreditIn(_, _) => PixInReceive
    case RefundIn(_, _) => PixRefundIn
    case RefundOut(_, _) => PixRefundOut
    case Adjust(_, _, _) => ReconciliationAdjustment
    case MoveBlocked(_, _, _, unblock) => if unblock then UnblockFunds else BlockFunds
    case AuthorizeOut(_, _) => PixOutAuthorize
    case SettleOut(_) => PixOutSettle
    case VoidOut(_) => PixOutVoid
  }

  /** The engine action of a call; `post` stamps the clock itself. */
  function ActionFor(call: Call, external: Id): Action {
    match call.operation
    case SettleOut(hold) => ResolveAction(hold, ResolveOptions(call.key, Some(PixOutSettle)), true, call.ctx)
    case VoidOut(hold) => ResolveAction(hold, ResolveOptions(call.key, Some(PixOutVoid)), false, call.ctx)
    case _ =>
      PostAction(PostInput(None, KindFor(call.operation),
                           if call.operation.AuthorizeOut? then PhasePending else PhasePosted,
                           call.key, LinesFor(call.operation, external), Some(call.ctx.now)),
                 call.ctx)
  }

  // ----- The accounts the service works on -----

  /** The external world: the seeded account that may go negative. */
  ghost predicate ExternalSeeded(s: Store, external: Id) {
    && external in s.accounts
    && s.accounts[external].code == MemoryStore.EXTERNAL_WORLD
    && s.accounts[external].normalBalance.DebitNormal?
    && s.accounts[external].allowsNegative
  }

  /** A customer account, available or blocked: a guarded liability. */
  predicate IsCustomer(s: Store, a: Id) {
    a in s.accounts && s.accounts[a].normalBalance.CreditNormal? && !s.accounts[a].allowsNegative
  }

  function Available(s: Store, a: Id): int
    requires a in s.accounts
  {
    ComputeBalances(s.accounts[a]).available
  }

  /** Callers pass the ids of customer accounts; an id that is not open yet is refused by the engine. */
  predicate Addressed(s: Store, operation: Operation) {
    match operation
    case MoveBlocked(available, blocked, _, _) =>
      && (available in s.accounts ==> IsCustomer(s, available))
      && (blocked in s.accounts ==> IsCustomer(s, blocked))
    case SettleOut(_) => true
    case VoidOut(_) => true
    case _ => operation.account in s.accounts ==> IsCustomer(s, operation.account)
  }

  // ----- Exactly when a call goes through -----

  /** The condition, on balances alone, under which an operation with a new key is accepted. */
  predicate Allowed(s: Store, operation: Operation) {
    match operation
    case CreditIn(a, x) => x > 0 && a in s.accounts
    case RefundIn(a, x) => x > 0 && a in s.accounts
    case RefundOut(a, x) => x > 0 && a in s.accounts && x <= Available(s, a)
    case Adjust(a, x, toCustomer) => x > 0 && a in s.accounts && (toCustomer || x <= Available(s, a))
    case MoveBlocked(available, blocked, x, unblock) =>
      && x > 0 && available in s.accounts && blocked in s.accounts
      && x <= Available(s, if unblock then blocked else available)
    case AuthorizeOut(a, x) => x > 0 && a in s.accounts && x <= Available(s, a)
    case SettleOut(hold) => IsOpenHold(s, hold)
    case VoidOut(hold) => IsOpenHold(s, hold)
  }

  lemma TransferBalanced(debited: Id, credited: Id, x: int)
    ensures Balanced(Transfer(debited, credited, x)) <==> x > 0
    ensures forall a ::
              && On(Transfer(debited, credited, x), 1, Debit, a) == (if a == debited then x else 0)
              && On(Transfer(debited, credited, x), 1, Credit, a) == 0
              && On(Transfer(debited, credited, x), 2, Debit, a) == (if a == debited then x else 0)
              && On(Transfer(debited, credited, x), 2, Credit, a) == (if a == credited then x else 0)
  {
    var lines := Transfer(debited, credited, x);
    assert SideSum(lines, 0, Debit) == 0 && SideSum(lines, 0, Credit) == 0;
    assert SideSum(lines, 1, Debit) == x && SideSum(lines, 1, Credit) == 0;
    assert SideSum(lines, 2, Debit) == x && SideSum(lines, 2, Credit) == x;
    forall a
      ensures On(lines, 1, Debit, a) == (if a == debited then x else 0) && On(lines, 1, Credit, a) == 0
      ensures On(lines, 2, Debit, a) == (if a == debited then x else 0)
      ensures On(lines, 2, Credit, a) == (if a == credited then x else 0)
    {
      assert On(lines, 0, Debit, a) == 0 == On(lines, 0, Credit, a);
    }
  }

  /** A transfer clears the guard exactly when its debited account, if guarded, can cover it. */
  lemma TransferAffordable(s: Store, debited: Id, credited: Id, x: int, mode: Mode)
    requires Keyed(s.accounts) && Solvent(s) && x > 0 && debited in s.accounts && credited in s.accounts
    requires mode.Hold? || mode.Direct?
    requires !s.accounts[debited].allowsNegative ==> s.accounts[debited].normalBalance.CreditNormal?
    requires !s.accounts[credited].allowsNegative ==> s.accounts[credited].normalBalance.CreditNormal?
    ensures Affordable(Transfer(debited, credited, x), 2, mode, s.accounts) <==>
            (s.accounts[debited].allowsNegative || x <= Available(s, debited))
  {
    hide On, Touches;
    var lines := Transfer(debited, credited, x);
    TransferBalanced(debited, credited, x);
    var d1 := After(s.accounts[debited], lines, 1, mode);
    var c2 := After(s.accounts[credited], lines, 2, mode);
    assert ViolatesOverdraftGuard(d1) <==> !(s.accounts[debited].allowsNegative || x <= Available(s, debited));
    assert !ViolatesOverdraftGuard(s.accounts[credited]) && !ViolatesOverdraftGuard(s.accounts[debited]);
    assert !ViolatesOverdraftGuard(d1) ==> !ViolatesOverdraftGuard(c2);
    assert lines[0].accountId == debited && lines[1].accountId == credited;
  }

  /** A post under a new key goes through exactly when its lines balance, exist and are affordable. */
  lemma PostAccepted(s: Store, input: PostInput, ctx: Context)
    requires Keyed(s.accounts) && !Replays(s, input.idempotencyKey)
    ensures NewlyAccepted(Post(s, input, ctx).1) <==>
            && Balanced(input.entries)
            && (forall i | 0 <= i < |input.entries| :: input.entries[i].accountId in s.accounts)
            && Affordable(input.entries, |input.entries|, PostMode(input.phase), s.accounts)
  {
    hide Build, Affordable, Balanced, LockAccounts, AccountIds;
    if forall i | 0 <= i < |input.entries| :: input.entries[i].accountId in s.accounts {
      BuildOnStore(s, input.entries, PostTransaction(input, ctx), PostMode(input.phase), ctx.entryIds);
    }
  }

  /** Under a new key, an operation is accepted exactly when its condition on balances holds. */
  lemma AcceptedExactlyWhenAllowed(s: Store, call: Call, external: Id)
    requires Inv(s) && ExternalSeeded(s, external) && Addressed(s, call.operation)
    requires call.key !in s.byIdempotencyKey
    ensures OutcomeOf(s, ActionFor(call, external)).Some?
    ensures NewlyAccepted(OutcomeOf(s, ActionFor(call, external)).value) <==> Allowed(s, call.operation)
  {
    hide Inv, Post, ResolvePending, Affordable, Balanced, Transfer, ComputeBalances;
    InvKeyed(s);
    InvSolvent(s);
    match call.operation
    case SettleOut(hold) => ResolveAccepted(s, hold, ResolveOptions(call.key, Some(PixOutSettle)), true, call.ctx);
    case VoidOut(hold) => ResolveAccepted(s, hold, ResolveOptions(call.key, Some(PixOutVoid)), false, call.ctx);
    case _ =>
      var action := ActionFor(call, external);
      PostAccepted(s, action.input, action.ctx);
      var debited, credited := Ends(call.operation, external);
      var x := call.operation.amount;
      assert action.input.entries == Transfer(debited, credited, x);
      TransferBalanced(debited, credited, x);
      TransferEnds(debited, credited, x);
      if x > 0 && debited in s.accounts && credited in s.accounts {
        TransferAffordable(s, debited, credited, x, PostMode(action.input.phase));
      }
  }

  lemma Ends(operation: Operation, external: Id) returns (debited: Id, credited: Id)
    requires !operation.SettleOut? && !operation.VoidOut?
    ensures LinesFor(operation, external) == Transfer(debited, credited, operation.amount)
    ensures match operation
            case CreditIn(a, _) => debited == external && credited == a
            case RefundIn(a, _) => debited == external && credited == a
            case RefundOut(a, _) => debited == a && credited == external
            case Adjust(a, _, toCustomer) => (debited, credited) == if toCustomer then (external, a) else (a, external)
            case MoveBlocked(available, blocked, _, unblock) =>
              (debited, credited) == if unblock then (blocked, available) else (available, blocked)
            case AuthorizeOut(a, _) => debited == a && credited == external
  {
    debited := LinesFor(operation, external)[0].accountId;
    credited := LinesFor(operation, external)[1].accountId;
  }

  lemma TransferEnds(debited: Id, credited: Id, x: int)
    ensures var lines := Transfer(debited, credited, x);
            |lines| == 2 && lines[0].accountId == debited && lines[1].accountId == credited
  {
  }

  lemma InvSolvent(s: Store)
    requires Inv(s)
    ensures Solvent(s)
  {
  }

  lemma ResolveAccepted(s: Store, hold: Id, options: ResolveOptions, commit: bool, ctx: Context)
    requires Inv(s) && options.idempotencyKey !in s.byIdempotencyKey
    ensures NewlyAccepted(ResolvePending(s, hold, options, commit, ctx).1) <==> IsOpenHold(s, hold)
  {
    if IsOpenHold(s, hold) {
      hide Inv;
      ResolveNeverRefused(s, hold, options, commit, ctx);
    }
  }

  /** The kind under which each operation is booked. */
  predicate BookedAs(operation: Operation, kind: TransactionKind) {
    match kind
    case PixInReceive => operation.CreditIn?
    case PixRefundIn => operation.RefundIn?
    case PixRefundOut => operation.RefundOut?
    case ReconciliationAdjustment => operation.Adjust?
    case BlockFunds => operation.MoveBlocked? && !operation.unblock
    case UnblockFunds => operation.MoveBlocked? && operation.unblock
    case PixOutAuthorize => operation.AuthorizeOut?
    case PixOutSettle => operation.SettleOut?
    case PixOutVoid => operation.VoidOut?
    case _ => false
  }

  /** The record of an accepted call tells which operation it was; only an authorisation is a hold; all are dated now. */
  lemma CallAnswers(s: Store, call: Call, external: Id)
    requires Inv(s) && FreshIds(s, ActionFor(call, external))
    requires NewlyAccepted(OutcomeOf(s, ActionFor(call, external)).value)
    ensures var tx := OutcomeOf(s, ActionFor(call, external)).value.transaction;
            && BookedAs(call.operation, tx.kind) && tx.idempotencyKey == call.key && tx.effectiveAt == call.ctx.now
            && (tx.status.StatusPending? <==> call.operation.AuthorizeOut?)
            && (tx.status.StatusVoided? <==> call.operation.VoidOut?)
            && tx.pendingTransactionId == (match call.operation
                                           case SettleOut(hold) => Some(hold)
                                           case VoidOut(hold) => Some(hold)
                                           case _ => None)
  {
    hide Inv, Post, ResolvePending, LedgerAnswers.EntersLines;
    match ActionFor(call, external)
    case PostAction(input, ctx) => LedgerAnswers.PostAnswers(s, input, ctx);
    case ResolveAction(pendingId, options, commit, ctx) => LedgerAnswers.ResolveAnswers(s, pendingId, options, commit, ctx);
  }
}
