/** Concrete runs in which the exact conditions fail: what goes wrong does happen. */
module Witnesses {
  import opened LedgerTypes
  import opened LedgerEngine
  import opened LedgerSums
  import opened LedgerInvariant
  import opened LedgerPreservation
  import opened LedgerSafety
  import opened LedgerRetry
  import opened LedgerTwoPhase
  import opened ShadowLedger
  import R = Reconciler
  import RS = ReconcilerSafety
  import I = Idempotency
  import S = IdempotencySafety
  import IR = IdempotencyReplay

  // ----- A small ledger -----

  function Ctx(id: Id): Context {
    Context(0, id, (i: nat) => i)
  }

  /** Five cents from account 1 to account 2, under the caller's own id. */
  function Five(id: Id, phase: PostPhase, key: string): PostInput {
    PostInput(Some(id), ManualAdjustment, phase, key, Transfer(1, 2, 5), None)
  }

  const OPENINGS: seq<Action> := [OpenAccount(AccountTemplate("a", Asset, true), 1), OpenAccount(AccountTemplate("b", Asset, true), 2)]

  /** Accounts 1 and 2 are open and may go negative. */
  ghost predicate Roomy(s: Store) {
    && Keyed(s.accounts)
    && 1 in s.accounts && s.accounts[1].allowsNegative
    && 2 in s.accounts && s.accounts[2].allowsNegative
  }

  lemma Opened() returns (s: Store)
    ensures FreshRun(EMPTY, OPENINGS) && s == StoreAfter(EMPTY, OPENINGS, 2)
    ensures Inv(s) && Roomy(s) && s.transactions == map[] && s.byIdempotencyKey == map[]
  {
    var s1 := Step(EMPTY, OPENINGS[0]);
    s := Step(s1, OPENINGS[1]);
    assert StoreAfter(EMPTY, OPENINGS, 0) == EMPTY;
    assert StoreAfter(EMPTY, OPENINGS, 1) == s1;
    assert StoreAfter(EMPTY, OPENINGS, 2) == s;
    EmptyInv();
    hide Inv;
    RunKeepsInv(EMPTY, OPENINGS, 2);
  }

  /** With room on both accounts, any post of five cents under a key that does not replay goes through. */
  lemma FiveAccepted(s: Store, id: Id, phase: PostPhase, key: string, ctx: Context)
    requires Roomy(s) && !Replays(s, key)
    ensures NewlyAccepted(Post(s, Five(id, phase, key), ctx).1)
  {
    hide Post, Balanced;
    TransferBalanced(1, 2, 5);
    PostAccepted(s, Five(id, phase, key), ctx);
  }

  /** After such a post there is still room. */
  lemma FiveLeavesRoom(s: Store, id: Id, phase: PostPhase, key: string, ctx: Context)
    requires Roomy(s) && NewlyAccepted(Post(s, Five(id, phase, key), ctx).1)
    ensures Roomy(Post(s, Five(id, phase, key), ctx).0)
  {
    hide Build, LockAccounts, AccountIds, Affordable;
    var input := Five(id, phase, key);
    BuildOnStore(s, input.entries, PostTransaction(input, ctx), PostMode(phase), ctx.entryIds);
  }

  /** A reachable ledger with one transaction, number 7, under the key "first". */
  lemma OnePosted(phase: PostPhase, key: string) returns (s: Store)
    ensures Reachable(s) && Inv(s) && Roomy(s)
    ensures 7 in s.transactions && s.transactions[7].status == (if phase.PhasePending? then StatusPending else StatusPosted)
    ensures s.transactions.Keys == {7} && s.byIdempotencyKey == map[key := 7]
  {
    hide Inv, Post, FreshRun;
    var s0 := Opened();
    var input := Five(7, phase, key);
    FiveAccepted(s0, 7, phase, key, Ctx(9));
    InvKeyed(s0);
    PostWrites(s0, input, Ctx(9));
    FiveLeavesRoom(s0, 7, phase, key, Ctx(9));
    s := Post(s0, input, Ctx(9)).0;
    StepKeepsInv(s0, PostAction(input, Ctx(9)));
    PostReachable(s0, input, Ctx(9));
  }

  lemma PostReachable(s: Store, input: PostInput, ctx: Context)
    requires FreshRun(EMPTY, OPENINGS) && s == StoreAfter(EMPTY, OPENINGS, 2)
    requires FreshIds(s, PostAction(input, ctx))
    ensures Reachable(Post(s, input, ctx).0)
  {
    hide Post, FreshIds;
    var actions := OPENINGS + [PostAction(input, ctx)];
    StoreAfterPrefix(EMPTY, OPENINGS, [PostAction(input, ctx)], 0);
    StoreAfterPrefix(EMPTY, OPENINGS, [PostAction(input, ctx)], 1);
    StoreAfterPrefix(EMPTY, OPENINGS, [PostAction(input, ctx)], 2);
    assert StoreAfter(EMPTY, actions, 3) == Step(s, actions[2]);
    forall i | 0 <= i < |actions| ensures FreshIds(StoreAfter(EMPTY, actions, i), actions[i]) {
      assert i < 2 ==> FreshIds(StoreAfter(EMPTY, OPENINGS, i), OPENINGS[i]);
    }
  }

  /** A post under an id in use is accepted, and a record is lost. */
  lemma StaleIdIsAccepted() returns (s: Store, input: PostInput, ctx: Context)
    ensures Reachable(s) && PostTransaction(input, ctx).id in s.transactions
    ensures NewlyAccepted(Post(s, input, ctx).1) && !Inv(Post(s, input, ctx).0)
  {
    hide Inv, Post, Reachable;
    s := OnePosted(PhasePosted, "first");
    input, ctx := Five(7, PhasePosted, "second"), Ctx(9);
    FiveAccepted(s, 7, PhasePosted, "second", ctx);
    PostKeepsInvExactlyWhenFresh(s, input, ctx);
  }

  /** A post under an empty id is accepted, and accepted again under the same key: the money moves twice. */
  lemma EmptyIdPostsTwice() returns (s: Store, input: PostInput, ctx: Context)
    ensures Reachable(s) && PostTransaction(input, ctx).id == NO_ID && NO_ID !in s.transactions
    ensures var (s', o) := Post(s, input, ctx);
            NewlyAccepted(o) && !Inv(s') && NewlyAccepted(Post(s', input, ctx).1)
  {
    hide Inv, Post, Reachable;
    s := OnePosted(PhasePosted, "first");
    input, ctx := Five(NO_ID, PhasePosted, "second"), Ctx(9);
    FiveAccepted(s, NO_ID, PhasePosted, "second", ctx);
    EmptyIdLosesKey(s, input, ctx);
    FiveLeavesRoom(s, NO_ID, PhasePosted, "second", ctx);
    FiveAccepted(Post(s, input, ctx).0, NO_ID, PhasePosted, "second", ctx);
  }

  // ----- The webhook settles first -----

  /** Operation "op" and transaction "tx" are the same payment, holding transaction 7. */
  const WORLD := R.World((op: string) => op, (key: string) => Some(7))

  /** The webhook commits the hold under the transaction's own name; then the resolver learns that it settled. */
  const WEBHOOK := ResolveAction(7, ResolveOptions(R.SettleKey("tx"), Some(PixOutSettle)), true, Ctx(8))

  const EVENTS: seq<R.Event> := [
    R.OtherLedgerUse(WEBHOOK), R.Begin(0, "op"), R.LookUpTransaction(0), R.CountAttempt(0),
    R.Receive(0, Some(R.Settled)), R.ResolveHold(0, Ctx(10))]

  function Start(ledger: Store): R.System {
    R.System(ledger, map["op" := R.OperationRow(R.OpUnknown, 0)], map["op" := R.TransactionRow(R.TxUnknown, true)], map[], [], [])
  }

  /** What the resolver works with when the answer has come in. */
  function Waiting(ledger: Store): R.System {
    R.System(ledger, map["op" := R.OperationRow(R.OpUnknown, 1)], map["op" := R.TransactionRow(R.TxUnknown, true)],
             map[0 := R.Answered("op", R.Settled)], [], [])
  }

  lemma StartQuiet(ledger: Store)
    requires Inv(ledger) && ledger.byIdempotencyKey.Keys == {"hold"}
    ensures RS.Quiet(Start(ledger), WORLD)
  {
    hide Inv;
    forall op: string, commit: bool ensures R.ResolverKey(op, commit) != "hold" {
      assert |R.ResolverKey(op, commit)| >= 13;
    }
  }

  lemma WebhookDisciplined()
    ensures R.Disciplined(WEBHOOK, WORLD)
  {
    hide R.ResolverKey;
    assert KeyOf(WEBHOOK) == Some(R.ResolverKey("tx", true)) by {
      WebhookKey();
    }
    forall op: string, commit: bool | KeyOf(WEBHOOK) == Some(R.ResolverKey(op, commit)) ensures commit {
      R.KeysApart("tx", op, true, commit);
    }
  }

  lemma WebhookKey()
    ensures KeyOf(WEBHOOK) == Some(R.ResolverKey("tx", true))
  {
  }

  /** The system after `n` of the first five events, with what the ledger became. */
  function Reached(ledger: Store, n: nat): R.System {
    if n == 0 then Start(ledger)
    else if n == 1 then Start(Step(ledger, WEBHOOK))
    else if n == 2 then R.Move(Start(Step(ledger, WEBHOOK)), 0, R.SawOperation("op"))
    else if n == 3 then R.Move(Start(Step(ledger, WEBHOOK)), 0, R.SawTransaction("op"))
    else if n == 4 then Waiting(Step(ledger, WEBHOOK)).(calls := map[0 := R.Counted("op")])
    else Waiting(Step(ledger, WEBHOOK))
  }

  lemma WebhookEvent(ledger: Store)
    ensures R.Next(Reached(ledger, 0), EVENTS[0], WORLD) == Reached(ledger, 1)
    ensures R.LedgerActionOf(Reached(ledger, 0), EVENTS[0], WORLD) == Some(WEBHOOK)
  {
    hide Step;
  }

  lemma BeginEvent(ledger: Store)
    ensures R.Next(Reached(ledger, 1), EVENTS[1], WORLD) == Reached(ledger, 2)
  {
    hide Step;
  }

  lemma LookUpEvent(ledger: Store)
    ensures R.Next(Reached(ledger, 2), EVENTS[2], WORLD) == Reached(ledger, 3)
  {
    hide Step;
  }

  lemma CountEvent(ledger: Store)
    ensures R.Next(Reached(ledger, 3), EVENTS[3], WORLD) == Reached(ledger, 4)
  {
    hide Step;
  }

  lemma AnswerEvent(ledger: Store)
    ensures R.Next(Reached(ledger, 4), EVENTS[4], WORLD) == Reached(ledger, 5)
  {
    hide Step;
  }

  lemma NoLedgerUse(ledger: Store, n: nat)
    requires 0 < n < 5
    ensures R.LedgerActionOf(Reached(ledger, n), EVENTS[n], WORLD) == None
  {
    hide Step, Reached;
  }

  lemma OneEvent(ledger: Store, n: nat)
    requires n < 5
    ensures R.Next(Reached(ledger, n), EVENTS[n], WORLD) == Reached(ledger, n + 1)
    ensures R.LedgerActionOf(Reached(ledger, n), EVENTS[n], WORLD) == if n == 0 then Some(WEBHOOK) else None
  {
    hide Step, Reached, R.Next, R.LedgerActionOf;
    if n == 0 {
      WebhookEvent(ledger);
    } else {
      NoLedgerUse(ledger, n);
      if n == 1 {
        BeginEvent(ledger);
      } else if n == 2 {
        LookUpEvent(ledger);
      } else if n == 3 {
        CountEvent(ledger);
      } else {
        AnswerEvent(ledger);
      }
    }
  }

  lemma {:induction false} ReachedBy(ledger: Store, n: nat)
    requires n <= 5
    ensures R.SystemAfter(Start(ledger), EVENTS, n, WORLD) == Reached(ledger, n)
  {
    hide Step, R.Next;
    if n == 0 {
      NothingYet(ledger);
    } else {
      hide Reached;
      ReachedBy(ledger, n - 1);
      OneEvent(ledger, n - 1);
    }
  }

  lemma NothingYet(ledger: Store)
    ensures R.SystemAfter(Start(ledger), EVENTS, 0, WORLD) == Start(ledger) == Reached(ledger, 0)
  {
  }

  /** After the webhook: the hold is committed, and only its own two keys are in use. */
  lemma WebhookCommits(ledger: Store)
    requires Inv(ledger) && IsOpenHold(ledger, 7) && ledger.transactions.Keys == {7} && ledger.byIdempotencyKey.Keys == {"hold"}
    ensures FreshIds(ledger, WEBHOOK)
    ensures var s := Step(ledger, WEBHOOK);
            && Inv(s) && s.transactions.Keys == {7, 8} && s.transactions[7].status.StatusPosted?
            && R.SettleKey("op") !in s.byIdempotencyKey
  {
    hide Inv, ResolvePending, Moves;
    var options := WEBHOOK.options;
    assert |R.SettleKey("tx")| == 17;
    assert options.idempotencyKey !in ledger.byIdempotencyKey;
    ResolveNeverRefused(ledger, 7, options, true, Ctx(8));
    InvKeyed(ledger);
    HoldIsSound(ledger, 7);
    ResolveGrows(ledger, 7, options, true, Ctx(8));
    ResolutionId(ledger, 7, options, true, Ctx(8));
    StepKeepsInv(ledger, WEBHOOK);
    assert R.SettleKey("op") != R.SettleKey("tx") by {
      assert R.SettleKey("op")[15] == 'o' && R.SettleKey("tx")[15] == 't';
    }
    assert |R.SettleKey("op")| == 17;
  }

  /** The run is legal, and the resolver's settled answer is refused: the call ends and marks nothing. */
  lemma SettledAnswerIsRefused() returns (sys: R.System)
    ensures RS.Quiet(sys, WORLD) && R.LegalRun(sys, EVENTS, WORLD)
    ensures var now := R.SystemAfter(sys, EVENTS, |EVENTS|, WORLD);
            && now.ledger.transactions.Keys == {7, 8} && now.ledger.transactions[7].status.StatusPosted?
            && now.operations["op" := R.OperationRow(R.OpUnknown, 1)] == now.operations
            && now.calls == map[] && now.marks == []
  {
    hide Inv, Step, Reachable, RS.Quiet, R.Disciplined, R.SystemAfter, R.Next, R.LedgerActionOf, FreshIds;
    var ledger := OnePosted(PhasePending, "hold");
    sys := Start(ledger);
    StartQuiet(ledger);
    WebhookCommits(ledger);
    WebhookDisciplined();
    LastRefused(Step(ledger, WEBHOOK));
    LastStep(sys);
    ReachedBy(ledger, 5);
    forall i | 0 <= i < |EVENTS| ensures R.Legal(R.SystemAfter(sys, EVENTS, i, WORLD), EVENTS[i], WORLD) {
      if i < 5 {
        ReachedBy(ledger, i);
        OneEvent(ledger, i);
        OnlyFirst(i);
      }
    }
  }

  lemma LastStep(sys: R.System)
    ensures |EVENTS| == 6
    ensures R.SystemAfter(sys, EVENTS, 6, WORLD) == R.Next(R.SystemAfter(sys, EVENTS, 5, WORLD), EVENTS[5], WORLD)
  {
    hide R.Next;
  }

  lemma OnlyFirst(i: nat)
    requires i < 5
    ensures if i == 0 then EVENTS[i] == R.OtherLedgerUse(WEBHOOK) else !EVENTS[i].OtherLedgerUse?
  {
  }

  lemma LastRefused(ledger: Store)
    requires Inv(ledger) && ledger.transactions.Keys == {7, 8} && ledger.transactions[7].status.StatusPosted?
    requires R.SettleKey("op") !in ledger.byIdempotencyKey
    ensures R.Legal(Waiting(ledger), EVENTS[5], WORLD)
    ensures R.Next(Waiting(ledger), EVENTS[5], WORLD) == Waiting(ledger).(calls := map[])
  {
    hide Inv, Build;
  }

  // ----- An executor that outlives its lease -----

  /** One request claims the key, and its handler takes as long as its lease. */
  lemma ExecutorOutlivesLease() returns (events: seq<I.Event>)
    ensures I.LegalRun(I.INITIAL, events)
    ensures var s := I.StateAfter(I.INITIAL, events, |events|);
            IR.Alone(s, 0) && s.clock >= s.requests[0].until
  {
    events := [I.Arrive(0, "f"), I.TryInsert(0, 0, 1, 2), I.Tick(I.LEASE_SECONDS)];
    var s1 := I.Next(I.INITIAL, events[0]);
    var s2 := I.Next(s1, events[1]);
    var s3 := I.Next(s2, events[2]);
    assert I.StateAfter(I.INITIAL, events, 0) == I.INITIAL;
    assert I.StateAfter(I.INITIAL, events, 1) == s1;
    assert I.StateAfter(I.INITIAL, events, 2) == s2;
    assert I.StateAfter(I.INITIAL, events, 3) == s3;
  }

  /** So a second handler does come to run beside the first, in a run from the start. */
  lemma TwoHandlersRun() returns (s: I.State, events: seq<I.Event>)
    ensures IR.Alone(s, 0) && IR.UndisturbedRun(s, events, 0)
    ensures IR.RunsBeside(I.StateAfter(s, events, |events|), 0)
  {
    var first := ExecutorOutlivesLease();
    s := I.StateAfter(I.INITIAL, first, |first|);
    hide IR.Alone, IR.UndisturbedRun, IR.RunsBeside, I.StateAfter;
    IR.SecondExecutorExactlyAfterLease(s, 0);
    events :| IR.UndisturbedRun(s, events, 0) && IR.RunsBeside(I.StateAfter(s, events, |events|), 0);
  }
}
