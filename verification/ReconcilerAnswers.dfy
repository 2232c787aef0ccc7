/** From the provider's answer to the rows: what a call writes is what it was told, and where it lands. */
module ReconcilerAnswers {
  import opened LedgerTypes
  import opened LedgerEngine
  import opened LedgerSums
  import opened LedgerInvariant
  import opened LedgerPreservation
  import opened LedgerRetry
  import LedgerAnswers
  import opened Reconciler
  import opened ReconcilerSafety

  // ----- Every answer acted on was received -----

  /** At step `j` the provider answered a call about `op`. */
  predicate HearsAt(sys: System, events: seq<Event>, j: nat, world: World, op: string, answer: TransactionStatus)
    requires j < |events|
  {
    && events[j].Receive? && events[j].found == Some(answer)
    && At(SystemAfter(sys, events, j, world), events[j].call) == Some(Counted(op))
  }

  predicate Heard(sys: System, events: seq<Event>, n: nat, world: World, op: string, answer: TransactionStatus)
    requires n <= |events|
  {
    exists j :: 0 <= j < n && HearsAt(sys, events, j, world, op, answer)
  }

  /** The call has been answered. */
  predicate HasAnswer(p: Progress) {
    p.Answered? || p.LedgerDone? || p.StatusDone?
  }

  predicate CarriesHeard(sys: System, events: seq<Event>, n: nat, world: World, p: Progress)
    requires n <= |events|
  {
    HasAnswer(p) ==> Heard(sys, events, n, world, p.op, p.answer)
  }

  ghost predicate AllHeard(sys: System, events: seq<Event>, n: nat, world: World, now: System)
    requires n <= |events|
  {
    && (forall c | c in now.calls :: CarriesHeard(sys, events, n, world, now.calls[c]))
    && (forall i | 0 <= i < |now.marks| :: Heard(sys, events, n, world, now.marks[i].op, now.marks[i].answer))
  }

  lemma HeardLater(sys: System, events: seq<Event>, n: nat, world: World)
    requires n < |events|
    ensures forall op, answer | Heard(sys, events, n, world, op, answer) :: Heard(sys, events, n + 1, world, op, answer)
  {
    hide HearsAt;
  }

  /** Where a call's or a mark's answer comes from: from the step before, or it is just coming in. */
  lemma AnswersCarry(sys: System, event: Event, world: World)
    ensures var sys' := Next(sys, event, world);
            && (forall c | c in sys'.calls && HasAnswer(sys'.calls[c]) ::
                  && c in sys.calls && sys.calls[c].op == sys'.calls[c].op
                  && if HasAnswer(sys.calls[c]) then sys.calls[c].answer == sys'.calls[c].answer
                     else sys.calls[c].Counted? && event == Receive(c, Some(sys'.calls[c].answer)))
            && sys.marks <= sys'.marks
            && (forall i | |sys.marks| <= i < |sys'.marks| ::
                  && i == |sys.marks| && event.Finish? && event.call in sys.calls && sys.calls[event.call].StatusDone?
                  && sys.calls[event.call].op == sys'.marks[i].op && sys.calls[event.call].answer == sys'.marks[i].answer)
  {
    hide LedgerCall, OutcomeOf, Step, Verdict;
  }

  lemma {:induction false} RunHeard(sys: System, events: seq<Event>, n: nat, world: World)
    requires n <= |events| && sys.calls == map[] && sys.marks == []
    ensures AllHeard(sys, events, n, world, SystemAfter(sys, events, n, world))
  {
    hide Next;
    if n > 0 {
      RunHeard(sys, events, n - 1, world);
      var before, now := SystemAfter(sys, events, n - 1, world), SystemAfter(sys, events, n, world);
      HeardLater(sys, events, n - 1, world);
      AnswersCarry(before, events[n - 1], world);
      hide Heard, HearsAt;
      forall c | c in now.calls ensures CarriesHeard(sys, events, n, world, now.calls[c]) {
        var p := now.calls[c];
        if HasAnswer(p) {
          if HasAnswer(before.calls[c]) {
            assert CarriesHeard(sys, events, n - 1, world, before.calls[c]);
          } else {
            JustHeard(sys, events, n, world, p.op, p.answer);
          }
        }
      }
    }
  }

  lemma JustHeard(sys: System, events: seq<Event>, n: nat, world: World, op: string, answer: TransactionStatus)
    requires 0 < n <= |events| && HearsAt(sys, events, n - 1, world, op, answer)
    ensures Heard(sys, events, n, world, op, answer)
  {
  }

  /**
   In every run, every mark was written for an answer the provider gave to a call about that operation,
   and says SETTLED for settled, FAILED for failed or cancelled, and SUBMITTED for anything else.
   */
  lemma MarksComeFromAnswers(sys: System, events: seq<Event>, world: World, i: nat)
    requires Quiet(sys, world) && LegalRun(sys, events, world)
    requires i < |SystemAfter(sys, events, |events|, world).marks|
    ensures var m := SystemAfter(sys, events, |events|, world).marks[i];
            Heard(sys, events, |events|, world, m.op, m.answer) && Tells(m.written, m.answer)
  {
    hide Inv, KeysMean, LegalRun, SystemAfter, Heard, Tells, Resolutions, ResolvedOnce;
    RunHeard(sys, events, |events|, world);
    MarksAreTrue(sys, events, world, i);
  }

  // ----- Where an answer lands -----

  /** The last step writes the answer's verdict into the operation's row and nowhere else. */
  lemma FinishWrites(sys: System, c: nat, world: World)
    requires c in sys.calls && sys.calls[c].StatusDone? && sys.calls[c].op in sys.operations
    ensures var p, sys' := sys.calls[c], Next(sys, Finish(c), world);
            && p.op in sys'.operations && Tells(sys'.operations[p.op].status, p.answer)
            && sys'.operations == sys.operations[p.op := sys.operations[p.op].(status := sys'.operations[p.op].status)]
            && sys'.marks == sys.marks + [Mark(p.op, p.answer, sys'.operations[p.op].status, p.posted)]
            && sys'.ledger == sys.ledger && sys'.transactions == sys.transactions && sys'.outbox == sys.outbox
            && sys'.calls == sys.calls - {c}
  {
  }

  /** A status change that is applied leaves the transaction's row with the answer, touches no other, and sends one event. */
  lemma ChangeWrites(sys: System, c: nat, applied: bool, world: World)
    requires c in sys.calls && sys.calls[c].LedgerDone?
    ensures var p, sys' := sys.calls[c], Next(sys, ChangeStatus(c, applied), world);
            var key := world.providerKey(p.op);
            && sys'.calls == sys.calls[c := StatusDone(p.op, p.answer, p.posted)]
            && sys'.operations == sys.operations && sys'.ledger == sys.ledger && sys'.marks == sys.marks
            && sys'.transactions.Keys == sys.transactions.Keys
            && (forall k | k in sys.transactions && (k != key || !applied) :: sys'.transactions[k] == sys.transactions[k])
            && (applied && key in sys.transactions ==>
                  && sys'.transactions[key].status == p.answer
                  && sys'.transactions[key].hasProviderAccount == sys.transactions[key].hasProviderAccount
                  && |sys'.outbox| == |sys.outbox| + 1 && sys.outbox <= sys'.outbox)
            && (!applied || key !in sys.transactions ==> sys'.outbox == sys.outbox)
  {
  }

  /** An answer, brought to its end without interruption. */
  function Landing(c: nat, answer: TransactionStatus, ctx: Context): seq<Event> {
    [Receive(c, Some(answer)), ResolveHold(c, ctx), ChangeStatus(c, true), Finish(c)]
  }

  /** The ledger step of a decisive answer about a hold that is open, or that this operation already resolved so. */
  lemma ResolveLands(sys: System, c: nat, op: string, answer: TransactionStatus, ctx: Context, world: World)
    requires SystemInv(sys, world) && At(sys, c) == Some(Answered(op, answer)) && Legal(sys, ResolveHold(c, ctx), world)
    requires HasHold(world, op) && Decisive(answer) ==>
               || IsOpenHold(sys.ledger, HoldOf(world, op).value)
               || ResolverKey(op, answer.Settled?) in sys.ledger.byIdempotencyKey
    ensures var sys' := Next(sys, ResolveHold(c, ctx), world);
            && SystemInv(sys', world)
            && sys'.operations == sys.operations && sys'.transactions == sys.transactions && sys'.marks == sys.marks
            && c in sys'.calls && sys'.calls[c].LedgerDone? && sys'.calls[c].op == op && sys'.calls[c].answer == answer
            && Backed(sys'.ledger, world, op, answer, sys'.calls[c].posted)
  {
    hide Inv, KeysMean, Step, OutcomeOf, FreshIds, Disciplined, ResolverKey, IsOpenHold, Backed, MarksOk;
    NextKeepsInv(sys, ResolveHold(c, ctx), world);
    if HasHold(world, op) && Decisive(answer) {
      AcceptedExactlyWhen(sys, world, op, answer, ctx);
      ResolutionsAnswer(sys.ledger, LedgerCall(world, op, answer, ctx).value);
    }
    var sys' := Next(sys, ResolveHold(c, ctx), world);
    assert CallOk(sys'.ledger, world, sys'.calls[c]);
  }

  lemma ResolutionsAnswer(s: Store, action: Action)
    ensures action.ResolveAction? ==> OutcomeOf(s, action).Some?
  {
  }

  /**
   What the resolver is for. When the provider answers a call about a stuck operation and nothing stops the
   call: the transaction's row carries the answer, the operation's row says SETTLED, FAILED or SUBMITTED
   accordingly, and if it has a hold, that hold is committed for a settled answer and voided for a failed
   one, by one resolution and no other.
   */
  lemma AnswerLands(sys: System, c: nat, op: string, answer: TransactionStatus, ctx: Context, world: World)
    requires SystemInv(sys, world) && At(sys, c) == Some(Counted(op))
    requires op in sys.operations && world.providerKey(op) in sys.transactions
    requires var action := LedgerCall(world, op, answer, ctx); action.Some? ==> FreshIds(sys.ledger, action.value)
    requires HasHold(world, op) && Decisive(answer) ==>
               || IsOpenHold(sys.ledger, HoldOf(world, op).value)
               || ResolverKey(op, answer.Settled?) in sys.ledger.byIdempotencyKey
    ensures var sys' := SystemAfter(sys, Landing(c, answer, ctx), 4, world);
            && c !in sys'.calls
            && op in sys'.operations && Tells(sys'.operations[op].status, answer)
            && world.providerKey(op) in sys'.transactions && sys'.transactions[world.providerKey(op)].status == answer
            && (HasHold(world, op) && Decisive(answer) ==>
                  var status := if answer.Settled? then StatusPosted else StatusVoided;
                  exists r :: ResolvedOnce(sys'.ledger, HoldOf(world, op).value, r, status))
  {
    hide Inv, KeysMean, Step, OutcomeOf, FreshIds, Disciplined, ResolverKey, IsOpenHold, CallsOk, MarksOk, Tells,
         ResolvedOnce, ResolvedBy, LedgerCall, Resolutions;
    var events := Landing(c, answer, ctx);
    var s1 := Next(sys, events[0], world);
    var s2 := Next(s1, events[1], world);
    var s3 := Next(s2, events[2], world);
    var s4 := Next(s3, events[3], world);
    assert SystemAfter(sys, events, 1, world) == s1;
    assert SystemAfter(sys, events, 2, world) == s2;
    assert SystemAfter(sys, events, 3, world) == s3;
    assert SystemAfter(sys, events, 4, world) == s4;
    hide SystemAfter, Next;
    assert s1 == Move(sys, c, Answered(op, answer)) by { ReceiveMoves(sys, c, op, answer, world); }
    NextKeepsInv(sys, events[0], world);
    ResolveLands(s1, c, op, answer, ctx, world);
    ChangeWrites(s2, c, true, world);
    FinishWrites(s3, c, world);
    if HasHold(world, op) && Decisive(answer) {
      InvResolutions(s2.ledger);
      BackedResolvedOnce(s2.ledger, HoldOf(world, op).value, s2.calls[c].posted.value, ResolutionStatus(answer.Settled?));
    }
  }

  lemma ReceiveMoves(sys: System, c: nat, op: string, answer: TransactionStatus, world: World)
    requires At(sys, c) == Some(Counted(op))
    ensures Next(sys, Receive(c, Some(answer)), world) == Move(sys, c, Answered(op, answer))
  {
  }

  /** What the ledger books for an answer: a settlement or a release, under the operation's own key. */
  lemma BookedFor(s: Store, world: World, op: string, answer: TransactionStatus, ctx: Context)
    requires Inv(s) && HasHold(world, op) && Decisive(answer)
    requires var action := LedgerCall(world, op, answer, ctx).value;
             FreshIds(s, action) && NewlyAccepted(OutcomeOf(s, action).value)
    ensures var tx := OutcomeOf(s, LedgerCall(world, op, answer, ctx).value).value.transaction;
            && tx.kind == (if answer == Settled then PixOutSettle else PixOutVoid)
            && tx.idempotencyKey == (if answer == Settled then "pix-out-settle:" else "pix-out-void:") + op
            && tx.pendingTransactionId == HoldOf(world, op)
  {
    hide Inv, ResolvePending, LedgerAnswers.EntersLines;
    var action := LedgerCall(world, op, answer, ctx).value;
    LedgerAnswers.ResolveAnswers(s, action.pendingId, action.options, action.commit, ctx);
  }

  /** Without a hold, an empty id counting as none, or without a final answer, the ledger is left alone and the call goes on. */
  lemma LedgerLeftAlone(sys: System, c: nat, op: string, answer: TransactionStatus, ctx: Context, world: World)
    requires At(sys, c) == Some(Answered(op, answer))
    requires || HoldOf(world, op) == None || HoldOf(world, op) == Some(NO_ID)
             || (answer != Settled && answer != Failed && answer != Cancelled)
    ensures Next(sys, ResolveHold(c, ctx), world) == sys.(calls := sys.calls[c := LedgerDone(op, answer, None)])
  {
  }

  /**
   The event is wrong for every answer that is not final and is applied, such as "processing" to a payment
   of unknown outcome: FAILED goes out, while the operation is SUBMITTED and the ledger, hold and all, as it was.
   */
  lemma NonFinalIsToldFailed(sys: System, c: nat, op: string, answer: TransactionStatus, ctx: Context, world: World)
    requires At(sys, c) == Some(Counted(op)) && op in sys.operations && world.providerKey(op) in sys.transactions
    requires answer != Settled && answer != Failed && answer != Cancelled
    ensures var sys' := SystemAfter(sys, Landing(c, answer, ctx), 4, world);
            && sys'.ledger == sys.ledger
            && op in sys'.operations && sys'.operations[op].status == OpSubmitted
            && sys'.outbox == sys.outbox + [Notice(op, answer, PixOutFailed, None)]
  {
    hide LedgerCall, OutcomeOf, Step;
    var events := Landing(c, answer, ctx);
    var s1 := Next(sys, events[0], world);
    var s2 := Next(s1, events[1], world);
    var s3 := Next(s2, events[2], world);
    var s4 := Next(s3, events[3], world);
    assert SystemAfter(sys, events, 1, world) == s1;
    assert SystemAfter(sys, events, 2, world) == s2;
    assert SystemAfter(sys, events, 3, world) == s3;
    assert SystemAfter(sys, events, 4, world) == s4;
    ReceiveMoves(sys, c, op, answer, world);
    LedgerLeftAlone(s1, c, op, answer, ctx, world);
  }

  // ----- Only what is stuck is looked at -----

  /** A call gets past the look-up exactly when there is a transaction whose account the provider knows. */
  lemma LookedUp(sys: System, c: nat, op: string, world: World)
    requires At(sys, c) == Some(SawOperation(op))
    ensures var sys' := Next(sys, LookUpTransaction(c), world);
            var key := world.providerKey(op);
            At(sys', c) ==
            if key in sys.transactions && sys.transactions[key].hasProviderAccount then Some(SawTransaction(op)) else None
  {
  }

  /** The operation's row is final and no call is about it. */
  ghost predicate AtRest(sys: System, op: string, status: OperationStatus) {
    && op in sys.operations && sys.operations[op].status == status
    && forall c | c in sys.calls :: sys.calls[c].op != op
  }

  lemma NextAtRest(sys: System, event: Event, world: World, op: string, status: OperationStatus)
    requires AtRest(sys, op, status) && status != OpUnknown && status != OpSubmitted
    requires event.WriteOperation? ==> event.op != op
    ensures var sys' := Next(sys, event, world);
            AtRest(sys', op, status) && sys'.operations[op] == sys.operations[op]
            && forall i | |sys.marks| <= i < |sys'.marks| :: sys'.marks[i].op != op
  {
    hide Step, OutcomeOf, LedgerCall, Verdict;
  }

  /** Once an operation is settled or failed and no call is about it, no later call touches its row, counts an attempt or marks it. */
  lemma {:induction false} FinalRowsRest(sys: System, events: seq<Event>, n: nat, world: World, op: string, status: OperationStatus)
    requires n <= |events| && AtRest(sys, op, status) && status != OpUnknown && status != OpSubmitted
    requires forall i | 0 <= i < |events| && events[i].WriteOperation? :: events[i].op != op
    ensures var now := SystemAfter(sys, events, n, world);
            && AtRest(now, op, status) && now.operations[op] == sys.operations[op] && sys.marks <= now.marks
            && forall i | |sys.marks| <= i < |now.marks| :: now.marks[i].op != op
  {
    hide Next;
    if n > 0 {
      FinalRowsRest(sys, events, n - 1, world, op, status);
      NextAtRest(SystemAfter(sys, events, n - 1, world), events[n - 1], world, op, status);
      AnswersCarry(SystemAfter(sys, events, n - 1, world), events[n - 1], world);
    }
  }

  /** A call about `op` counts its attempt. */
  predicate Counts(sys: System, event: Event, op: string) {
    event.CountAttempt? && At(sys, event.call) == Some(SawTransaction(op))
  }

  function Attempts(sys: System, events: seq<Event>, n: nat, world: World, op: string): nat
    requires n <= |events|
  {
    if n == 0 then 0
    else
      Attempts(sys, events, n - 1, world, op) +
      if Counts(SystemAfter(sys, events, n - 1, world), events[n - 1], op) then 1 else 0
  }

  lemma NextAttempts(sys: System, event: Event, world: World, op: string)
    requires op in sys.operations && (event.WriteOperation? ==> event.op != op)
    ensures var sys' := Next(sys, event, world);
            op in sys'.operations &&
            sys'.operations[op].attempts == sys.operations[op].attempts + if Counts(sys, event, op) then 1 else 0
  {
    hide Step, OutcomeOf, LedgerCall, Verdict;
  }

  /** In every run the row's attempts have grown by the number of calls that went to ask the provider. */
  lemma {:induction false} AttemptsAreCounted(sys: System, events: seq<Event>, n: nat, world: World, op: string)
    requires n <= |events| && op in sys.operations
    requires forall i | 0 <= i < |events| && events[i].WriteOperation? :: events[i].op != op
    ensures var now := SystemAfter(sys, events, n, world);
            && op in now.operations
            && now.operations[op].attempts == sys.operations[op].attempts + Attempts(sys, events, n, world, op)
  {
    hide Next, Counts;
    if n > 0 {
      AttemptsAreCounted(sys, events, n - 1, world, op);
      NextAttempts(SystemAfter(sys, events, n - 1, world), events[n - 1], world, op);
    }
  }
}
