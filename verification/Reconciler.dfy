/**
 apps/api/src/pix/operation-reconciler.ts: resolving payments whose outcome is unknown.

 Any number of `resolve` calls are in flight at once, each advancing one await at a time; a call may
 stop for good between any two steps; the provider answers as it likes; and the rest of the system
 keeps using the ledger and rewriting the rows.
 */
module Reconciler {
  import opened LedgerTypes
  import opened LedgerEngine
  import opened LedgerInvariant
  import opened LedgerPreservation
  import opened LedgerSafety
  import opened LedgerRetry
  import opened LedgerTwoPhase

  datatype OperationStatus = OpPending | OpSubmitted | OpUnknown | OpSettled | OpFailed

  datatype TransactionStatus =
    | Created | TxPending | Processing | Settled | Failed | Cancelled | Reversed | PartiallyReversed | TxUnknown

  datatype OperationRow = OperationRow(status: OperationStatus, attempts: nat)

  datatype TransactionRow = TransactionRow(status: TransactionStatus, hasProviderAccount: bool)

  /**
   What is written once, when a row is created: the provider key of an operation, and the ledger hold
   of the transaction stored under a provider key.
   */
  datatype World = World(providerKey: string -> string, hold: string -> Option<Id>)

  function HoldOf(world: World, op: string): Option<Id> {
    world.hold(world.providerKey(op))
  }

  /** The code tests the stored id for truth, so an empty one counts as no hold. */
  predicate HasHold(world: World, op: string) {
    HoldOf(world, op).Some? && HoldOf(world, op).value != NO_ID
  }

  predicate IsFailure(answer: TransactionStatus) {
    answer.Failed? || answer.Cancelled?
  }

  predicate Decisive(answer: TransactionStatus) {
    answer.Settled? || IsFailure(answer)
  }

  function Verdict(answer: TransactionStatus): OperationStatus {
    if answer.Settled? then OpSettled else if IsFailure(answer) then OpFailed else OpSubmitted
  }

  function SettleKey(op: string): string {
    "pix-out-settle:" + op
  }

  function VoidKey(op: string): string {
    "pix-out-void:" + op
  }

  function ResolverKey(op: string, commit: bool): string {
    if commit then SettleKey(op) else VoidKey(op)
  }

  // ----- The system -----

  /** How far a call has come, and what it has read. */
  datatype Progress =
    | SawOperation(op: string)
    | SawTransaction(op: string)
    | Counted(op: string)
    | Answered(op: string, answer: TransactionStatus)
    | LedgerDone(op: string, answer: TransactionStatus, posted: Option<Id>)
    | StatusDone(op: string, answer: TransactionStatus, posted: Option<Id>)

  /** The last write of a call: what it was answered, the status it gave the operation, and the resolution it got. */
  datatype Mark = Mark(op: string, answer: TransactionStatus, written: OperationStatus, posted: Option<Id>)

  /** What the connector's own customers are told. */
  datatype OutEvent = PixOutSettled | PixOutFailed

  /** An event put in the outbox together with an applied status change, and what it was put there for. */
  datatype Notice = Notice(op: string, answer: TransactionStatus, told: OutEvent, posted: Option<Id>)

  datatype System = System(
    ledger: Store,
    operations: map<string, OperationRow>,
    transactions: map<string, TransactionRow>,
    calls: map<nat, Progress>,
    marks: seq<Mark>,
    outbox: seq<Notice>)

  datatype Event =
    | Begin(call: nat, op: string)
    | LookUpTransaction(call: nat)
    | CountAttempt(call: nat)
    | Receive(call: nat, found: Option<TransactionStatus>)
    | ResolveHold(call: nat, ctx: Context)
    | ChangeStatus(call: nat, applied: bool)
    | Finish(call: nat)
    | Stop(call: nat)
    | OtherLedgerUse(action: Action)
    | WriteOperation(op: string, row: OperationRow)
    | WriteTransaction(key: string, txRow: TransactionRow)

  function At(sys: System, call: nat): Option<Progress> {
    if call in sys.calls then Some(sys.calls[call]) else None
  }

  function Move(sys: System, call: nat, p: Progress): System {
    sys.(calls := sys.calls[call := p])
  }

  function End(sys: System, call: nat): System {
    sys.(calls := sys.calls - {call})
  }

  /** The ledger call of `applyOutcome`, if the answer and the row ask for one. */
  function LedgerCall(world: World, op: string, answer: TransactionStatus, ctx: Context): Option<Action> {
    if HasHold(world, op) && Decisive(answer) then
      Some(ResolveAction(HoldOf(world, op).value,
                         ResolveOptions(ResolverKey(op, answer.Settled?),
                                        Some(if answer.Settled? then PixOutSettle else PixOutVoid)),
                         answer.Settled?, ctx))
    else None
  }

  /** One event; an event that is not enabled changes nothing. */
  function Next(sys: System, event: Event, world: World): System {
    match event
    case Begin(c, op) =>
      if c in sys.calls || op !in sys.operations then sys
      else if !sys.operations[op].status.OpUnknown? && !sys.operations[op].status.OpSubmitted? then sys
      else Move(sys, c, SawOperation(op))
    case LookUpTransaction(c) =>
      (match At(sys, c)
       case Some(SawOperation(op)) =>
         var key := world.providerKey(op);
         if key in sys.transactions && sys.transactions[key].hasProviderAccount
         then Move(sys, c, SawTransaction(op)) else End(sys, c)
       case _ => sys)
    case CountAttempt(c) =>
      (match At(sys, c)
       case Some(SawTransaction(op)) =>
         var sys' := Move(sys, c, Counted(op));
         if op !in sys.operations then sys'
         else sys'.(operations := sys.operations[op := sys.operations[op].(attempts := sys.operations[op].attempts + 1)])
       case _ => sys)
    case Receive(c, found) =>
      (match At(sys, c)
       case Some(Counted(op)) => if found.Some? then Move(sys, c, Answered(op, found.value)) else End(sys, c)
       case _ => sys)
    case ResolveHold(c, ctx) =>
      (match At(sys, c)
       case Some(Answered(op, answer)) =>
         var action := LedgerCall(world, op, answer, ctx);
         if action.None? then Move(sys, c, LedgerDone(op, answer, None))
         else
           var o := OutcomeOf(sys.ledger, action.value);
           var sys' := sys.(ledger := Step(sys.ledger, action.value));
           if o.Some? && o.value.Accepted?
           then Move(sys', c, LedgerDone(op, answer, Some(o.value.transaction.id)))
           else End(sys', c)
       case _ => sys)
    case ChangeStatus(c, applied) =>
      (match At(sys, c)
       case Some(LedgerDone(op, answer, posted)) =>
         var key := world.providerKey(op);
         var sys' := Move(sys, c, StatusDone(op, answer, posted));
         if applied && key in sys.transactions
         then sys'.(transactions := sys.transactions[key := sys.transactions[key].(status := answer)],
                    outbox := sys.outbox + [Notice(op, answer, if answer.Settled? then PixOutSettled else PixOutFailed, posted)])
         else sys'
       case _ => sys)
    case Finish(c) =>
      (match At(sys, c)
       case Some(StatusDone(op, answer, posted)) =>
         if op !in sys.operations then End(sys, c)
         else
           var row := sys.operations[op].(status := Verdict(answer));
           End(sys, c).(operations := sys.operations[op := row], marks := sys.marks + [Mark(op, answer, row.status, posted)])
       case _ => sys)
    case Stop(c) => End(sys, c)
    case OtherLedgerUse(action) => sys.(ledger := Step(sys.ledger, action))
    case WriteOperation(op, row) => sys.(operations := sys.operations[op := row])
    case WriteTransaction(key, row) => sys.(transactions := sys.transactions[key := row])
  }

  /** What an event does to the ledger. */
  function LedgerActionOf(sys: System, event: Event, world: World): Option<Action> {
    match event
    case ResolveHold(c, ctx) =>
      (match At(sys, c)
       case Some(Answered(op, answer)) => LedgerCall(world, op, answer, ctx)
       case _ => None)
    case OtherLedgerUse(action) => Some(action)
    case _ => None
  }

  /** Whoever uses a resolver key uses it for that operation's hold and that verdict. */
  ghost predicate Disciplined(action: Action, world: World) {
    forall op: string, commit: bool :: KeyOf(action) == Some(ResolverKey(op, commit)) ==>
      action.ResolveAction? && HoldOf(world, op) == Some(action.pendingId) && action.commit == commit
  }

  ghost predicate Legal(sys: System, event: Event, world: World) {
    && (var action := LedgerActionOf(sys, event, world); action.Some? ==> FreshIds(sys.ledger, action.value))
    && (event.OtherLedgerUse? ==> Disciplined(event.action, world))
  }

  function SystemAfter(sys: System, events: seq<Event>, n: nat, world: World): System
    requires n <= |events|
  {
    if n == 0 then sys else Next(SystemAfter(sys, events, n - 1, world), events[n - 1], world)
  }

  ghost predicate LegalRun(sys: System, events: seq<Event>, world: World) {
    forall i | 0 <= i < |events| :: Legal(SystemAfter(sys, events, i, world), events[i], world)
  }

  // ----- Keys -----

  lemma KeysApart(a: string, b: string, x: bool, y: bool)
    ensures ResolverKey(a, x) == ResolverKey(b, y) <==> a == b && x == y
  {
    assert SettleKey(a)[8] == 's' && VoidKey(b)[8] == 'v' && SettleKey(b)[8] == 's' && VoidKey(a)[8] == 'v';
    assert SettleKey(a)[15..] == a && SettleKey(b)[15..] == b && VoidKey(a)[13..] == a && VoidKey(b)[13..] == b;
  }

  lemma ResolverDisciplined(world: World, op: string, answer: TransactionStatus, ctx: Context)
    ensures var action := LedgerCall(world, op, answer, ctx); action.Some? ==> Disciplined(action.value, world)
  {
    hide ResolverKey;
    if LedgerCall(world, op, answer, ctx).Some? {
      var action := LedgerCall(world, op, answer, ctx).value;
      forall op': string, commit: bool | KeyOf(action) == Some(ResolverKey(op', commit))
        ensures HoldOf(world, op') == Some(action.pendingId) && action.commit == commit
      {
        KeysApart(op, op', answer.Settled?, commit);
      }
    }
  }

  /** If `key` is used, it names the resolution of `hold` with this status. */
  predicate Names(s: Store, key: string, hold: Option<Id>, status: Status) {
    key in s.byIdempotencyKey ==> hold.Some? && ResolvedBy(s, s.byIdempotencyKey[key], hold.value, status)
  }

  predicate ResolvedBy(s: Store, r: Id, hold: Id, status: Status) {
    Resolves(s, r, hold) && s.transactions[r].id == r && s.transactions[r].status == status && !status.StatusPending?
  }

  ghost predicate KeysMean(s: Store, world: World) {
    forall op: string, commit: bool :: Names(s, ResolverKey(op, commit), HoldOf(world, op), ResolutionStatus(commit))
  }

  /** A resolution, once there, never changes. */
  lemma ResolvedByKept(s: Store, s': Store, r: Id, hold: Id, status: Status)
    requires Extends(s, s') && ResolvedBy(s, r, hold, status)
    ensures ResolvedBy(s', r, hold, status)
  {
  }

  /** After a step, an old key means what it meant, and a new one is the step's own. */
  lemma StepKeys(s: Store, action: Action, key: string)
    requires Inv(s) && FreshIds(s, action) && key in Step(s, action).byIdempotencyKey
    ensures var s' := Step(s, action);
            if key in s.byIdempotencyKey then s'.byIdempotencyKey[key] == s.byIdempotencyKey[key]
            else
              && KeyOf(action) == Some(key)
              && (action.ResolveAction? ==>
                    ResolvedBy(s', s'.byIdempotencyKey[key], action.pendingId, ResolutionStatus(action.commit)))
  {
    hide Inv, CreateAccount, Post, ResolvePending, Moves, Extends;
    InvKeyed(s);
    StepExtends(s, action);
    match action
    case OpenAccount(template, newId) => OpenKeys(s, template, newId);
    case PostAction(input, ctx) => PostGrows(s, input, ctx);
    case ResolveAction(pendingId, options, commit, ctx) =>
      HoldIsSound(s, pendingId);
      ResolveGrows(s, pendingId, options, commit, ctx);
  }

  lemma OpenKeys(s: Store, template: AccountTemplate, newId: Id)
    ensures CreateAccount(s, template, newId).byIdempotencyKey == s.byIdempotencyKey
  {
  }
}
