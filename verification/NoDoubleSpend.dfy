/** No double spend: a customer's available balance against the history of what was accepted. */
module NoDoubleSpend {
  import opened LedgerTypes
  import opened LedgerEngine
  import opened LedgerSums
  import opened LedgerInvariant
  import opened LedgerPreservation
  import opened LedgerSafety
  import opened LedgerRetry
  import opened LedgerTwoPhase
  import opened ShadowLedger
  import MemoryStore

  // ----- History, told without balances -----

  datatype Event =
    | MoneyIn(account: Id, amount: int)
    | MoneyOut(account: Id, amount: int)
    | HoldPlaced(hold: Id, account: Id, amount: int)
    | HoldSettled(hold: Id)
    | HoldVoided(hold: Id)

  /** What a call adds to the history: nothing if it was refused or replayed. */
  function EventsOf(s: Store, call: Call, external: Id): seq<Event> {
    var o := OutcomeOf(s, ActionFor(call, external));
    if o.None? || !NewlyAccepted(o.value) then []
    else
      match call.operation
      case CreditIn(a, x) => [MoneyIn(a, x)]
      case RefundIn(a, x) => [MoneyIn(a, x)]
      case RefundOut(a, x) => [MoneyOut(a, x)]
      case Adjust(a, x, toCustomer) => if toCustomer then [MoneyIn(a, x)] else [MoneyOut(a, x)]
      case MoveBlocked(available, blocked, x, unblock) =>
        if unblock then [MoneyOut(blocked, x), MoneyIn(available, x)] else [MoneyOut(available, x), MoneyIn(blocked, x)]
      case AuthorizeOut(a, x) => [HoldPlaced(call.ctx.newId, a, x)]
      case SettleOut(hold) => [HoldSettled(hold)]
      case VoidOut(hold) => [HoldVoided(hold)]
  }

  function In(events: seq<Event>, n: nat, a: Id): int
    requires n <= |events|
  {
    if n == 0 then 0
    else In(events, n - 1, a) + (match events[n - 1] case MoneyIn(b, x) => if a == b then x else 0 case _ => 0)
  }

  function Out(events: seq<Event>, n: nat, a: Id): int
    requires n <= |events|
  {
    if n == 0 then 0
    else Out(events, n - 1, a) + (match events[n - 1] case MoneyOut(b, x) => if a == b then x else 0 case _ => 0)
  }

  /** The holds on `a` among the first `n` events that were later settled. */
  function Settled(events: seq<Event>, n: nat, a: Id): int
    requires n <= |events|
  {
    if n == 0 then 0
    else Settled(events, n - 1, a) +
         (match events[n - 1]
          case HoldPlaced(t, b, x) => if a == b && HoldSettled(t) in events then x else 0
          case _ => 0)
  }

  /** The holds on `a` among the first `n` events that nothing has resolved yet. */
  function Outstanding(events: seq<Event>, n: nat, a: Id): int
    requires n <= |events|
  {
    if n == 0 then 0
    else Outstanding(events, n - 1, a) +
         (match events[n - 1]
          case HoldPlaced(t, b, x) => if a == b && HoldSettled(t) !in events && HoldVoided(t) !in events then x else 0
          case _ => 0)
  }

  /** Money in, minus money out, minus settled transfers, minus outstanding holds. */
  function Funds(events: seq<Event>, a: Id): int {
    var n := |events|;
    In(events, n, a) - Out(events, n, a) - Settled(events, n, a) - Outstanding(events, n, a)
  }

  // ----- The same total, event by event -----

  function Worth(events: seq<Event>, e: Event, a: Id): int {
    match e
    case MoneyIn(b, x) => if a == b then x else 0
    case MoneyOut(b, x) => if a == b then -x else 0
    case HoldPlaced(t, b, x) => if a == b && HoldVoided(t) !in events then -x else 0
    case _ => 0
  }

  function WorthUpTo(events: seq<Event>, history: seq<Event>, n: nat, a: Id): int
    requires n <= |history|
  {
    if n == 0 then 0 else WorthUpTo(events, history, n - 1, a) + Worth(events, history[n - 1], a)
  }

  ghost predicate OneFate(events: seq<Event>) {
    forall t :: !(HoldSettled(t) in events && HoldVoided(t) in events)
  }

  lemma {:induction false} FundsAreWorth(events: seq<Event>, n: nat, a: Id)
    requires n <= |events| && OneFate(events)
    ensures In(events, n, a) - Out(events, n, a) - Settled(events, n, a) - Outstanding(events, n, a) ==
            WorthUpTo(events, events, n, a)
  {
    if n > 0 {
      FundsAreWorth(events, n - 1, a);
    }
  }

  lemma {:induction false} WorthFrame(e1: seq<Event>, e2: seq<Event>, h1: seq<Event>, h2: seq<Event>, n: nat, a: Id)
    requires n <= |h1| && n <= |h2|
    requires forall i | 0 <= i < n :: h1[i] == h2[i] && Worth(e1, h1[i], a) == Worth(e2, h2[i], a)
    ensures WorthUpTo(e1, h1, n, a) == WorthUpTo(e2, h2, n, a)
  {
    if n > 0 {
      WorthFrame(e1, e2, h1, h2, n - 1, a);
    }
  }

  /** Adding an event that voids nothing adds its own worth. */
  lemma WorthAppend(events: seq<Event>, e: Event, a: Id)
    requires !e.HoldVoided?
    ensures WorthUpTo(events + [e], events + [e], |events| + 1, a) ==
            WorthUpTo(events, events, |events|, a) + Worth(events, e, a)
  {
    var es := events + [e];
    assert forall t :: HoldVoided(t) in es <==> HoldVoided(t) in events;
    WorthFrame(es, events, es, events, |events|, a);
  }

  ghost predicate PlacedOnce(events: seq<Event>) {
    forall i, j | 0 <= i < j < |events| && events[i].HoldPlaced? && events[j].HoldPlaced? ::
      events[i].hold != events[j].hold
  }

  /** Voiding hold `k` gives its amount back, once. */
  lemma WorthVoid(events: seq<Event>, k: nat, a: Id)
    requires k < |events| && events[k].HoldPlaced? && PlacedOnce(events)
    requires HoldVoided(events[k].hold) !in events
    ensures var es := events + [HoldVoided(events[k].hold)];
            WorthUpTo(es, es, |es|, a) ==
            WorthUpTo(events, events, |events|, a) + (if events[k].account == a then events[k].amount else 0)
  {
    var es := events + [HoldVoided(events[k].hold)];
    WorthVoidUpTo(events, es, k, |events|, a);
    assert es[|events|] == HoldVoided(events[k].hold);
  }

  lemma {:induction false} WorthVoidUpTo(events: seq<Event>, es: seq<Event>, k: nat, n: nat, a: Id)
    requires k < |events| && events[k].HoldPlaced? && PlacedOnce(events) && n <= |events|
    requires HoldVoided(events[k].hold) !in events
    requires es == events + [HoldVoided(events[k].hold)]
    ensures WorthUpTo(es, es, n, a) ==
            WorthUpTo(events, events, n, a) + (if k < n && events[k].account == a then events[k].amount else 0)
  {
    if n > 0 {
      WorthVoidUpTo(events, es, k, n - 1, a);
      assert es[n - 1] == events[n - 1];
      assert forall t :: HoldVoided(t) in es <==> HoldVoided(t) in events || t == events[k].hold;
    }
  }

  // ----- What ties the store to its history -----

  ghost predicate EventOk(s: Store, e: Event, external: Id) {
    match e
    case MoneyIn(b, _) => IsCustomer(s, b)
    case MoneyOut(b, _) => IsCustomer(s, b)
    case HoldPlaced(t, b, x) =>
      && t in s.transactions && t in s.entries && Lines(s.entries[t]) == Transfer(b, external, x)
      && IsCustomer(s, b) && x > 0
    case HoldSettled(t) => t in s.transactions && s.transactions[t].status.StatusPosted?
    case HoldVoided(t) => t in s.transactions && s.transactions[t].status.StatusVoided?
  }

  predicate IsPlaced(events: seq<Event>, t: Id) {
    exists k :: 0 <= k < |events| && events[k].HoldPlaced? && events[k].hold == t
  }

  ghost predicate Logged(s: Store, events: seq<Event>, external: Id) {
    && (forall e | e in events :: EventOk(s, e, external))
    && PlacedOnce(events)
    && (forall t | IsOpenHold(s, t) :: IsPlaced(events, t))
  }

  ghost predicate Tallied(s: Store, events: seq<Event>) {
    forall a | IsCustomer(s, a) :: Available(s, a) == WorthUpTo(events, events, |events|, a)
  }

  ghost predicate ShadowInv(s: Store, events: seq<Event>, external: Id) {
    Inv(s) && ExternalSeeded(s, external) && Logged(s, events, external) && Tallied(s, events)
  }

  lemma EventKept(s: Store, s': Store, e: Event, external: Id)
    requires Extends(s, s') && EventOk(s, e, external)
    ensures EventOk(s', e, external)
  {
  }

  lemma ExternalKept(s: Store, s': Store, external: Id)
    requires Extends(s, s') && ExternalSeeded(s, external)
    ensures ExternalSeeded(s', external)
    ensures forall a | IsCustomer(s, a) :: IsCustomer(s', a)
    ensures forall a | a in s.accounts && IsCustomer(s', a) :: IsCustomer(s, a)
  {
  }

  // ----- Posts -----

  /** What a posting operation does to the available balance of customer `a`. */
  function Change(operation: Operation, a: Id): int
    requires !operation.SettleOut? && !operation.VoidOut?
  {
    match operation
    case CreditIn(b, x) => if a == b then x else 0
    case RefundIn(b, x) => if a == b then x else 0
    case RefundOut(b, x) => if a == b then -x else 0
    case Adjust(b, x, toCustomer) => if a != b then 0 else if toCustomer then x else -x
    case MoveBlocked(available, blocked, x, unblock) =>
      var from, to := if unblock then blocked else available, if unblock then available else blocked;
      (if a == to then x else 0) - (if a == from then x else 0)
    case AuthorizeOut(b, x) => if a == b then -x else 0
  }

  lemma TransferMoves(c: Counters, mode: Mode, debited: Id, credited: Id, x: int, a: Id)
    requires mode.Hold? || mode.Direct?
    ensures var lines := Transfer(debited, credited, x);
            var c' := Shift(c, mode, On(lines, 2, Debit, a), On(lines, 2, Credit, a));
            c'.creditsPosted - c'.debitsPosted - c'.debitsPending ==
            c.creditsPosted - c.debitsPosted - c.debitsPending
            - (if a == debited then x else 0) + (if mode.Direct? && a == credited then x else 0)
  {
    hide On;
    TransferBalanced(debited, credited, x);
  }

  /** A newly accepted post moves every customer's available balance by exactly its change. */
  lemma PostEffect(s: Store, call: Call, external: Id, a: Id)
    requires Inv(s) && ExternalSeeded(s, external) && IsCustomer(s, a)
    requires !call.operation.SettleOut? && !call.operation.VoidOut?
    requires FreshIds(s, ActionFor(call, external)) && NewlyAccepted(OutcomeOf(s, ActionFor(call, external)).value)
    ensures var s' := Step(s, ActionFor(call, external));
            IsCustomer(s', a) && Available(s', a) == Available(s, a) + Change(call.operation, a)
  {
    hide Inv, Post, On, Shift, Extends;
    var action := ActionFor(call, external);
    PostMoves(s, action.input, action.ctx, a);
    StepExtends(s, action);
    StillCustomer(s, Step(s, action), a);
    var debited, credited := Ends(call.operation, external);
    TransferMoves(s.accounts[a].counters, PostMode(action.input.phase), debited, credited, call.operation.amount, a);
    assert a != external;
  }

  lemma StillCustomer(s: Store, s': Store, a: Id)
    requires Extends(s, s') && IsCustomer(s, a)
    ensures IsCustomer(s', a)
  {
  }

  /** The only new transaction is the call's own. */
  lemma NewTransaction(s: Store, call: Call, external: Id, t: Id)
    requires Inv(s) && FreshIds(s, ActionFor(call, external))
    requires OutcomeOf(s, ActionFor(call, external)).Some? && NewlyAccepted(OutcomeOf(s, ActionFor(call, external)).value)
    ensures var s' := Step(s, ActionFor(call, external));
            && (IsOpenHold(s', t) ==> IsOpenHold(s, t) || (call.operation.AuthorizeOut? && t == call.ctx.newId))
            && (match call.operation
                case AuthorizeOut(_, _) =>
                  && call.ctx.newId !in s.transactions && call.ctx.newId in s'.transactions && call.ctx.newId in s'.entries
                  && Lines(s'.entries[call.ctx.newId]) == LinesFor(call.operation, external)
                case SettleOut(hold) => IsOpenHold(s, hold) && hold in s'.transactions && s'.transactions[hold].status.StatusPosted?
                case VoidOut(hold) => IsOpenHold(s, hold) && hold in s'.transactions && s'.transactions[hold].status.StatusVoided?
                case _ => true)
  {
    hide Post, ResolvePending, Moves, AccountsIndexed, EntriesOk, CountersMatch, RunningBalances, Resolutions, Phases;
    InvTidy(s);
    var action := ActionFor(call, external);
    match call.operation
    case SettleOut(hold) =>
      InvHoldSound(s, hold);
      ResolveGrows(s, hold, action.options, true, action.ctx);
    case VoidOut(hold) =>
      InvHoldSound(s, hold);
      ResolveGrows(s, hold, action.options, false, action.ctx);
    case _ =>
      PostGrows(s, action.input, action.ctx);
  }

  /** The events of a post are worth its change. */
  lemma PostWorth(s: Store, call: Call, external: Id, events: seq<Event>, a: Id)
    requires !call.operation.SettleOut? && !call.operation.VoidOut?
    requires NewlyAccepted(OutcomeOf(s, ActionFor(call, external)).value)
    requires call.operation.AuthorizeOut? ==> HoldVoided(call.ctx.newId) !in events
    ensures var es := events + EventsOf(s, call, external);
            WorthUpTo(es, es, |es|, a) == WorthUpTo(events, events, |events|, a) + Change(call.operation, a)
  {
    hide Post;
    var more := EventsOf(s, call, external);
    if |more| == 1 {
      WorthAppend(events, more[0], a);
      assert events + more == events + [more[0]];
    } else {
      WorthAppend(events, more[0], a);
      WorthAppend(events + [more[0]], more[1], a);
      assert events + more == events + [more[0]] + [more[1]];
    }
  }

  lemma PostLogged(s: Store, call: Call, external: Id, events: seq<Event>)
    requires Inv(s) && ExternalSeeded(s, external) && Logged(s, events, external) && Addressed(s, call.operation)
    requires !call.operation.SettleOut? && !call.operation.VoidOut?
    requires FreshIds(s, ActionFor(call, external)) && NewlyAccepted(OutcomeOf(s, ActionFor(call, external)).value)
    requires call.key !in s.byIdempotencyKey
    ensures Logged(Step(s, ActionFor(call, external)), events + EventsOf(s, call, external), external)
    ensures call.operation.AuthorizeOut? ==> HoldVoided(call.ctx.newId) !in events
  {
    hide Inv, Step, OutcomeOf, FreshIds, Extends, PlacedOnce, ComputeBalances;
    var s' := Step(s, ActionFor(call, external));
    var more := EventsOf(s, call, external);
    StepExtends(s, ActionFor(call, external));
    AcceptedExactlyWhenAllowed(s, call, external);
    forall e | e in events ensures EventOk(s', e, external) {
      EventKept(s, s', e, external);
    }
    ExternalKept(s, s', external);
    NewTransaction(s, call, external, call.ctx.newId);
    assert forall e | e in more :: EventOk(s', e, external);
    forall t | IsOpenHold(s', t) ensures IsPlaced(events + more, t) {
      NewTransaction(s, call, external, t);
      PlacedLater(events, more, t);
    }
    PlacedStaysOnce(s, events, more, external);
    assert HoldVoided(call.ctx.newId) in events ==> EventOk(s, HoldVoided(call.ctx.newId), external);
  }

  lemma PlacedLater(events: seq<Event>, more: seq<Event>, t: Id)
    ensures IsPlaced(events, t) || (|more| == 1 && more[0].HoldPlaced? && more[0].hold == t) ==> IsPlaced(events + more, t)
  {
    if IsPlaced(events, t) {
      var k :| 0 <= k < |events| && events[k].HoldPlaced? && events[k].hold == t;
      assert (events + more)[k] == events[k];
    } else if |more| == 1 && more[0].HoldPlaced? && more[0].hold == t {
      assert (events + more)[|events|] == more[0];
    }
  }

  lemma PlacedStaysOnce(s: Store, events: seq<Event>, more: seq<Event>, external: Id)
    requires PlacedOnce(events) && forall e | e in events :: EventOk(s, e, external)
    requires |more| <= 1 || forall e | e in more :: !e.HoldPlaced?
    requires forall e | e in more && e.HoldPlaced? :: e.hold !in s.transactions
    ensures PlacedOnce(events + more)
  {
    var es := events + more;
    forall i, j | 0 <= i < j < |es| && es[i].HoldPlaced? && es[j].HoldPlaced? ensures es[i].hold != es[j].hold {
      if j >= |events| {
        assert es[j] in more;
        if i < |events| {
          assert EventOk(s, es[i], external);
        }
      }
    }
  }

  // ----- Resolutions -----

  /** Settling leaves a customer's available balance alone; voiding gives the hold back. */
  lemma ResolveEffect(s: Store, hold: Id, options: ResolveOptions, commit: bool, ctx: Context, external: Id, b: Id, x: int, a: Id)
    requires Inv(s) && ExternalSeeded(s, external) && IsCustomer(s, a)
    requires FreshTransactionId(s, options.idempotencyKey, ctx.newId)
    requires NewlyAccepted(ResolvePending(s, hold, options, commit, ctx).1)
    requires hold in s.entries && Lines(s.entries[hold]) == Transfer(b, external, x)
    ensures var s' := ResolvePending(s, hold, options, commit, ctx).0;
            IsCustomer(s', a) && Available(s', a) == Available(s, a) + (if !commit && a == b then x else 0)
  {
    hide Inv, ResolvePending, On, Extends, FreshTransactionId;
    ResolutionMoves(s, hold, options, commit, ctx, a);
    ResolveExtends(s, hold, options, commit, ctx);
    StillCustomer(s, ResolvePending(s, hold, options, commit, ctx).0, a);
    TransferBalanced(b, external, x);
    assert a != external;
  }

  lemma ResolveLogged(s: Store, call: Call, external: Id, events: seq<Event>)
    requires Inv(s) && Logged(s, events, external)
    requires call.operation.SettleOut? || call.operation.VoidOut?
    requires FreshIds(s, ActionFor(call, external)) && NewlyAccepted(OutcomeOf(s, ActionFor(call, external)).value)
    ensures Logged(Step(s, ActionFor(call, external)), events + EventsOf(s, call, external), external)
    ensures HoldVoided(call.operation.hold) !in events && IsPlaced(events, call.operation.hold)
  {
    hide Inv, Step, FreshIds, Extends, PlacedOnce, ResolvePending;
    var s' := Step(s, ActionFor(call, external));
    var more := EventsOf(s, call, external);
    StepExtends(s, ActionFor(call, external));
    forall e | e in events ensures EventOk(s', e, external) {
      EventKept(s, s', e, external);
    }
    NewTransaction(s, call, external, call.operation.hold);
    assert forall e | e in more :: EventOk(s', e, external);
    forall t | IsOpenHold(s', t) ensures IsPlaced(events + more, t) {
      NewTransaction(s, call, external, t);
      PlacedLater(events, more, t);
    }
    PlacedStaysOnce(s, events, more, external);
    assert HoldVoided(call.operation.hold) in events ==> EventOk(s, HoldVoided(call.operation.hold), external);
  }

  lemma ResolveTallied(s: Store, call: Call, external: Id, events: seq<Event>, a: Id)
    requires ShadowInv(s, events, external) && IsCustomer(s, a)
    requires call.operation.SettleOut? || call.operation.VoidOut?
    requires FreshIds(s, ActionFor(call, external)) && NewlyAccepted(OutcomeOf(s, ActionFor(call, external)).value)
    ensures var s' := Step(s, ActionFor(call, external));
            var es := events + EventsOf(s, call, external);
            IsCustomer(s', a) && Available(s', a) == WorthUpTo(es, es, |es|, a)
  {
    hide Inv, ResolvePending, IsCustomer, Available, WorthUpTo;
    ResolveLogged(s, call, external, events);
    var hold, commit := call.operation.hold, call.operation.SettleOut?;
    var action := ActionFor(call, external);
    var k :| 0 <= k < |events| && events[k].HoldPlaced? && events[k].hold == hold;
    assert EventOk(s, events[k], external);
    ResolveEffect(s, hold, action.options, commit, call.ctx, external, events[k].account, events[k].amount, a);
    if commit {
      WorthAppend(events, HoldSettled(hold), a);
    } else {
      WorthVoid(events, k, a);
    }
  }

  // ----- Runs -----

  datatype ShadowStep = Open(template: AccountTemplate, newId: Id) | Do(call: Call)

  function ActionOf(step: ShadowStep, external: Id): Action {
    match step
    case Open(template, newId) => OpenAccount(template, newId)
    case Do(call) => ActionFor(call, external)
  }

  function Log(s: Store, step: ShadowStep, external: Id): seq<Event> {
    match step
    case Open(_, _) => []
    case Do(call) => EventsOf(s, call, external)
  }

  predicate StepOk(s: Store, step: ShadowStep, external: Id) {
    && FreshIds(s, ActionOf(step, external))
    && (step.Do? ==> Addressed(s, step.call.operation))
  }

  lemma PostKeeps(s: Store, events: seq<Event>, call: Call, external: Id)
    requires ShadowInv(s, events, external) && StepOk(s, Do(call), external)
    requires !call.operation.SettleOut? && !call.operation.VoidOut?
    requires NewlyAccepted(OutcomeOf(s, ActionFor(call, external)).value) && call.key !in s.byIdempotencyKey
    ensures var s' := Step(s, ActionFor(call, external));
            var es := events + EventsOf(s, call, external);
            Logged(s', es, external) && Tallied(s', es)
  {
    hide Inv, Step, Post, Logged, Available, WorthUpTo, ExternalSeeded, FreshIds, Addressed, EventsOf, Extends;
    PostLogged(s, call, external, events);
    var s' := Step(s, ActionFor(call, external));
    var es := events + EventsOf(s, call, external);
    StepExtends(s, ActionFor(call, external));
    PostKeepsAccounts(s, call, external);
    forall a | IsCustomer(s', a) ensures Available(s', a) == WorthUpTo(es, es, |es|, a) {
      PostEffect(s, call, external, a);
      PostWorth(s, call, external, events, a);
    }
  }

  /** A call opens no account, so its customers were customers before. */
  lemma PostKeepsAccounts(s: Store, call: Call, external: Id)
    requires Inv(s) && ExternalSeeded(s, external) && FreshIds(s, ActionFor(call, external))
    requires OutcomeOf(s, ActionFor(call, external)).Some? && NewlyAccepted(OutcomeOf(s, ActionFor(call, external)).value)
    ensures forall a :: IsCustomer(Step(s, ActionFor(call, external)), a) ==> IsCustomer(s, a)
    ensures ExternalSeeded(Step(s, ActionFor(call, external)), external)
  {
    hide Inv, Extends, Post, ResolvePending, Affordable;
    InvKeyed(s);
    var action := ActionFor(call, external);
    StepExtends(s, action);
    ExternalKept(s, Step(s, action), external);
    match action
    case PostAction(input, ctx) => PostGrows(s, input, ctx);
    case ResolveAction(hold, options, commit, ctx) =>
      HoldIsSound(s, hold);
      ResolveGrows(s, hold, options, commit, ctx);
  }

  lemma ResolveKeeps(s: Store, events: seq<Event>, call: Call, external: Id)
    requires ShadowInv(s, events, external) && FreshIds(s, ActionFor(call, external))
    requires call.operation.SettleOut? || call.operation.VoidOut?
    requires NewlyAccepted(OutcomeOf(s, ActionFor(call, external)).value)
    ensures var s' := Step(s, ActionFor(call, external));
            var es := events + EventsOf(s, call, external);
            Logged(s', es, external) && Tallied(s', es)
  {
    hide Inv, Step, ResolvePending, Logged, Available, WorthUpTo, ExternalSeeded, FreshIds, EventsOf;
    ResolveLogged(s, call, external, events);
    PostKeepsAccounts(s, call, external);
    var s' := Step(s, ActionFor(call, external));
    var es := events + EventsOf(s, call, external);
    forall a | IsCustomer(s', a) ensures Available(s', a) == WorthUpTo(es, es, |es|, a) {
      ResolveTallied(s, call, external, events, a);
    }
  }

  lemma {:induction false} UnknownWorth(s: Store, events: seq<Event>, external: Id, n: nat, a: Id)
    requires n <= |events| && (forall e | e in events :: EventOk(s, e, external)) && a !in s.accounts
    ensures WorthUpTo(events, events, n, a) == 0
  {
    if n > 0 {
      UnknownWorth(s, events, external, n - 1, a);
      assert EventOk(s, events[n - 1], external);
    }
  }

  lemma OpenKeeps(s: Store, events: seq<Event>, template: AccountTemplate, newId: Id, external: Id)
    requires ShadowInv(s, events, external) && newId !in s.accounts && newId != NO_ID
    ensures var s' := CreateAccount(s, template, newId);
            ExternalSeeded(s', external) && Logged(s', events, external) && Tallied(s', events)
  {
    hide Inv, WorthUpTo, PlacedOnce, EventOk, Extends, IsPlaced;
    var s' := CreateAccount(s, template, newId);
    OpenExtends(s, template, newId);
    ExternalKept(s, s', external);
    forall e | e in events ensures EventOk(s', e, external) {
      EventKept(s, s', e, external);
    }
    assert forall t | IsOpenHold(s', t) :: IsOpenHold(s, t);
    UnknownWorth(s, events, external, |events|, newId);
    assert forall a | IsCustomer(s', a) ::
        if a == newId && a !in s.accounts then Available(s', a) == 0
        else IsCustomer(s, a) && Available(s', a) == Available(s, a);
  }

  /** Every step of the service keeps store and history in agreement. */
  lemma StepKeepsShadow(s: Store, events: seq<Event>, step: ShadowStep, external: Id)
    requires ShadowInv(s, events, external) && StepOk(s, step, external)
    ensures ShadowInv(Step(s, ActionOf(step, external)), events + Log(s, step, external), external)
  {
    hide Inv, Logged, Tallied, ExternalSeeded, FreshIds, Extends, Post, ResolvePending, CreateAccount, TookEffect;
    var action := ActionOf(step, external);
    StepKeepsInv(s, action);
    StepExtends(s, action);
    assert events + [] == events;
    match step
    case Open(template, newId) =>
      OpenFresh(s, template, newId);
      OpenKeeps(s, events, template, newId, external);
    case Do(call) =>
      DoCases(s, call, external);
      if NewlyAccepted(OutcomeOf(s, action).value) {
        PostKeepsAccounts(s, call, external);
        if call.operation.SettleOut? || call.operation.VoidOut? {
          ResolveKeeps(s, events, call, external);
        } else {
          PostKeeps(s, events, call, external);
        }
      }
  }

  lemma OpenFresh(s: Store, template: AccountTemplate, newId: Id)
    requires FreshIds(s, OpenAccount(template, newId))
    ensures newId !in s.accounts && newId != NO_ID
  {
  }

  lemma DoCases(s: Store, call: Call, external: Id)
    requires Inv(s) && FreshIds(s, ActionFor(call, external))
    ensures var o := OutcomeOf(s, ActionFor(call, external));
            && o.Some?
            && (TookEffect(s, ActionFor(call, external)) <==> NewlyAccepted(o.value))
            && (NewlyAccepted(o.value) ==> call.key !in s.byIdempotencyKey)
            && (!NewlyAccepted(o.value) ==> EventsOf(s, call, external) == [])
  {
    hide Inv, Post, ResolvePending, FreshIds;
    StepExtends(s, ActionFor(call, external));
  }

  function Actions(steps: seq<ShadowStep>, external: Id): seq<Action> {
    seq(|steps|, i requires 0 <= i < |steps| => ActionOf(steps[i], external))
  }

  /** The history of the first `n` steps. */
  function History(s: Store, steps: seq<ShadowStep>, n: nat, external: Id): seq<Event>
    requires n <= |steps|
  {
    if n == 0 then []
    else History(s, steps, n - 1, external) + Log(StoreAfter(s, Actions(steps, external), n - 1), steps[n - 1], external)
  }

  ghost predicate ShadowRun(s: Store, steps: seq<ShadowStep>, external: Id) {
    forall i | 0 <= i < |steps| :: StepOk(StoreAfter(s, Actions(steps, external), i), steps[i], external)
  }

  /** A ledger that has accounts but no transaction yet. */
  ghost predicate Blank(s: Store, external: Id) {
    Inv(s) && ExternalSeeded(s, external) && s.transactions == map[]
  }

  /** What opening the first `n` accounts of the chart leaves. */
  ghost predicate SeededOk(s: Store, ids: seq<Id>, n: nat)
    requires n <= |ids| && n <= |MemoryStore.SINGLETON_ACCOUNTS|
  {
    && Inv(s) && s.transactions == map[]
    && (forall a | a in s.accounts :: a in ids[..n])
    && (forall c | c in s.accountsByCode :: exists i :: 0 <= i < n && MemoryStore.SINGLETON_ACCOUNTS[i].code == c)
  }

  lemma {:induction false} SeedingKeeps(ids: seq<Id>, n: nat)
    requires n <= |ids| == |MemoryStore.SINGLETON_ACCOUNTS| && Distinct(ids) && NO_ID !in ids
    ensures SeededOk(MemoryStore.Seeded(ids, n), ids, n)
  {
    hide Inv;
    if n == 0 {
      EmptyInv();
    } else {
      SeedingKeeps(ids, n - 1);
      var s, template := MemoryStore.Seeded(ids, n - 1), MemoryStore.SINGLETON_ACCOUNTS[n - 1];
      assert ids[n - 1] !in ids[..n - 1];
      assert ids[..n] == ids[..n - 1] + [ids[n - 1]];
      OpenKeepsInv(s, template, ids[n - 1]);
    }
  }

  /** The freshly seeded store is such a ledger. */
  lemma SeededIsBlank(ids: seq<Id>)
    requires |ids| == |MemoryStore.SINGLETON_ACCOUNTS| && Distinct(ids) && NO_ID !in ids
    ensures Blank(MemoryStore.Seeded(ids, |ids|), ids[|ids| - 1])
  {
    hide Inv, Distinct;
    SeedingKeeps(ids, 9);
    SeedingKeeps(ids, 10);
    ChartCodes();
    assert MemoryStore.EXTERNAL_WORLD !in MemoryStore.Seeded(ids, 9).accountsByCode;
  }

  /** The external world comes last, under a code of its own. */
  lemma ChartCodes()
    ensures var chart := MemoryStore.SINGLETON_ACCOUNTS;
            && |chart| == 10
            && chart[9] == AccountTemplate(MemoryStore.EXTERNAL_WORLD, Asset, true)
            && forall i | 0 <= i < 9 :: chart[i].code != MemoryStore.EXTERNAL_WORLD
  {
    assert forall i | 0 <= i < 9 :: MemoryStore.SINGLETON_ACCOUNTS[i].code[0] != '9';
  }

  lemma BlankShadow(s: Store, external: Id)
    requires Blank(s, external)
    ensures ShadowInv(s, [], external)
  {
    assert s.entries == map[] by {
      assert s.entries.Keys == {};
    }
    assert forall t | t in s.entryOrder :: t in s.entries;
    assert s.entryOrder == [];
    forall a | IsCustomer(s, a) ensures Available(s, a) == 0 {
      assert CounterOk(s, Journal(s), s.accounts[a]);
    }
  }

  lemma {:induction false} RunKeepsShadow(s: Store, steps: seq<ShadowStep>, n: nat, external: Id)
    requires Blank(s, external) && ShadowRun(s, steps, external) && n <= |steps|
    ensures ShadowInv(StoreAfter(s, Actions(steps, external), n), History(s, steps, n, external), external)
  {
    hide ShadowInv, StepOk, Step, Blank, ActionOf, Log;
    if n == 0 {
      BlankShadow(s, external);
    } else {
      RunKeepsShadow(s, steps, n - 1, external);
      var before := StoreAfter(s, Actions(steps, external), n - 1);
      assert StepOk(before, steps[n - 1], external);
      StepKeepsShadow(before, History(s, steps, n - 1, external), steps[n - 1], external);
    }
  }

  lemma LoggedOneFate(s: Store, events: seq<Event>, external: Id)
    requires Logged(s, events, external)
    ensures OneFate(events)
  {
    forall t ensures !(HoldSettled(t) in events && HoldVoided(t) in events) {
      assert HoldSettled(t) in events ==> EventOk(s, HoldSettled(t), external);
      assert HoldVoided(t) in events ==> EventOk(s, HoldVoided(t), external);
    }
  }

  /**
   No double spend: after any interleaving of the service's operations, every customer's available
   balance is money in minus money out minus settled transfers minus outstanding holds, and is never
   negative; and no hold is both settled and voided.
   */
  lemma NoDoubleSpend(s: Store, steps: seq<ShadowStep>, external: Id, a: Id)
    requires Blank(s, external) && ShadowRun(s, steps, external)
    ensures var s' := StoreAfter(s, Actions(steps, external), |steps|);
            var events := History(s, steps, |steps|, external);
            && OneFate(events)
            && (IsCustomer(s', a) ==> Available(s', a) == Funds(events, a) && Available(s', a) >= 0)
  {
    hide Inv, Logged, Blank, ShadowRun;
    RunKeepsShadow(s, steps, |steps|, external);
    var s' := StoreAfter(s, Actions(steps, external), |steps|);
    var events := History(s, steps, |steps|, external);
    LoggedOneFate(s', events, external);
    FundsAreWorth(events, |events|, a);
    InvSolvent(s');
    assert IsCustomer(s', a) ==> !ViolatesOverdraftGuard(s'.accounts[a]);
  }
}
