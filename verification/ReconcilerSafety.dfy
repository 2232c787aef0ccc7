/** What every interleaving of `resolve` calls, stops and other ledger use keeps. */
module ReconcilerSafety {
  import opened LedgerTypes
  import opened LedgerEngine
  import opened LedgerSums
  import opened LedgerInvariant
  import opened LedgerPreservation
  import opened LedgerSafety
  import opened LedgerRetry
  import opened LedgerTwoPhase
  import opened Reconciler

  // ----- The invariant -----

  /**
   A call that acted on a decisive answer about a hold has the id of a resolution of that hold, with that
   verdict; any other call has none.
   */
  predicate Backed(s: Store, world: World, op: string, answer: TransactionStatus, posted: Option<Id>) {
    if HasHold(world, op) && Decisive(answer) then
      posted.Some? && ResolvedBy(s, posted.value, HoldOf(world, op).value, ResolutionStatus(answer.Settled?))
    else posted.None?
  }

  predicate CallOk(s: Store, world: World, p: Progress) {
    match p
    case LedgerDone(op, answer, posted) => Backed(s, world, op, answer, posted)
    case StatusDone(op, answer, posted) => Backed(s, world, op, answer, posted)
    case _ => true
  }

  ghost predicate CallsOk(s: Store, world: World, calls: map<nat, Progress>) {
    forall c | c in calls :: CallOk(s, world, calls[c])
  }

  /** Settled is written as SETTLED, failed or cancelled as FAILED, and whatever else as SUBMITTED. */
  predicate Tells(written: OperationStatus, answer: TransactionStatus) {
    && (answer == Settled ==> written == OpSettled)
    && (answer == Failed || answer == Cancelled ==> written == OpFailed)
    && (answer != Settled && answer != Failed && answer != Cancelled ==> written == OpSubmitted)
  }

  predicate MarkOk(s: Store, world: World, m: Mark) {
    Tells(m.written, m.answer) && Backed(s, world, m.op, m.answer, m.posted)
  }

  ghost predicate MarksOk(s: Store, world: World, marks: seq<Mark>) {
    forall i | 0 <= i < |marks| :: MarkOk(s, world, marks[i])
  }

  predicate NoticeOk(s: Store, world: World, n: Notice) {
    (n.told == PixOutSettled <==> n.answer == Settled) && Backed(s, world, n.op, n.answer, n.posted)
  }

  ghost predicate NoticesOk(s: Store, world: World, outbox: seq<Notice>) {
    forall i | 0 <= i < |outbox| :: NoticeOk(s, world, outbox[i])
  }

  ghost predicate SystemInv(sys: System, world: World) {
    && Inv(sys.ledger)
    && KeysMean(sys.ledger, world)
    && CallsOk(sys.ledger, world, sys.calls)
    && MarksOk(sys.ledger, world, sys.marks)
    && NoticesOk(sys.ledger, world, sys.outbox)
  }

  /** Before any call: a sound ledger in which the resolver's keys have not been misused. */
  ghost predicate Quiet(sys: System, world: World) {
    Inv(sys.ledger) && KeysMean(sys.ledger, world) && sys.calls == map[] && sys.marks == [] && sys.outbox == []
  }

  // ----- Every event keeps it -----

  lemma StepKeepsKeys(s: Store, action: Action, world: World)
    requires Inv(s) && FreshIds(s, action) && KeysMean(s, world) && Disciplined(action, world)
    ensures KeysMean(Step(s, action), world)
  {
    hide Inv, Step, FreshIds, Extends, ResolverKey, ResolvedBy, HoldOf;
    var s' := Step(s, action);
    StepExtends(s, action);
    forall op: string, commit: bool ensures Names(s', ResolverKey(op, commit), HoldOf(world, op), ResolutionStatus(commit)) {
      var key := ResolverKey(op, commit);
      if key in s'.byIdempotencyKey {
        StepKeys(s, action, key);
        assert Names(s, key, HoldOf(world, op), ResolutionStatus(commit));
        if key in s.byIdempotencyKey {
          ResolvedByKept(s, s', s.byIdempotencyKey[key], HoldOf(world, op).value, ResolutionStatus(commit));
        }
      }
    }
  }

  lemma BackedKept(s: Store, s': Store, world: World, op: string, answer: TransactionStatus, posted: Option<Id>)
    requires Extends(s, s') && Backed(s, world, op, answer, posted)
    ensures Backed(s', world, op, answer, posted)
  {
    hide Extends, ResolvedBy;
    if HasHold(world, op) && Decisive(answer) {
      ResolvedByKept(s, s', posted.value, HoldOf(world, op).value, ResolutionStatus(answer.Settled?));
    }
  }

  lemma BackedMark(s: Store, world: World, op: string, answer: TransactionStatus, posted: Option<Id>)
    requires Backed(s, world, op, answer, posted)
    ensures MarkOk(s, world, Mark(op, answer, Verdict(answer), posted))
  {
  }

  /** Using the ledger leaves what calls and marks rely on in place. */
  lemma StepKeepsBacking(sys: System, action: Action, world: World)
    requires SystemInv(sys, world) && FreshIds(sys.ledger, action) && Disciplined(action, world)
    ensures SystemInv(sys.(ledger := Step(sys.ledger, action)), world)
  {
    hide Inv, Step, FreshIds, Extends, KeysMean, Backed, Disciplined;
    var s, s' := sys.ledger, Step(sys.ledger, action);
    StepKeepsInv(s, action);
    StepExtends(s, action);
    StepKeepsKeys(s, action, world);
    forall c | c in sys.calls ensures CallOk(s', world, sys.calls[c]) {
      var p := sys.calls[c];
      if p.LedgerDone? || p.StatusDone? {
        assert CallOk(s, world, p);
        BackedKept(s, s', world, p.op, p.answer, p.posted);
      }
    }
    forall i | 0 <= i < |sys.marks| ensures MarkOk(s', world, sys.marks[i]) {
      var m := sys.marks[i];
      BackedKept(s, s', world, m.op, m.answer, m.posted);
    }
    forall i | 0 <= i < |sys.outbox| ensures NoticeOk(s', world, sys.outbox[i]) {
      var n := sys.outbox[i];
      BackedKept(s, s', world, n.op, n.answer, n.posted);
    }
  }

  lemma AtomicResolve(s: Store, action: Action)
    requires Inv(s) && FreshIds(s, action) && action.ResolveAction?
    requires OutcomeOf(s, action).value.Accepted?
    ensures var s' := Step(s, action);
            var key := action.options.idempotencyKey;
            && key in s'.byIdempotencyKey && s'.byIdempotencyKey[key] == OutcomeOf(s, action).value.transaction.id
            && (key in s.byIdempotencyKey <==> OutcomeOf(s, action).value.replayed)
  {
    hide Inv, Moves, Fits, ResolvePending;
    InvKeyed(s);
    HoldIsSound(s, action.pendingId);
    ResolveGrows(s, action.pendingId, action.options, action.commit, action.ctx);
    ReplayedResolve(s, action.pendingId, action.options, action.commit, action.ctx);
  }

  /** A used key replays and changes nothing; a new one never replays. */
  lemma ReplayedResolve(s: Store, hold: Id, options: ResolveOptions, commit: bool, ctx: Context)
    requires Inv(s)
    ensures var (s', o) := ResolvePending(s, hold, options, commit, ctx);
            if options.idempotencyKey in s.byIdempotencyKey
            then s' == s && o.Accepted? && o.replayed && o.transaction.id == s.byIdempotencyKey[options.idempotencyKey]
            else !(o.Accepted? && o.replayed)
  {
    hide AccountsIndexed, EntriesOk, Phases, Resolutions, CountersMatch, Solvent, RunningBalances, Build;
  }

  /** Whatever the ledger answers to a call, first time or replay, backs the call's next steps. */
  lemma ResolveHoldBacked(sys: System, c: nat, ctx: Context, world: World)
    requires SystemInv(sys, world) && Legal(sys, ResolveHold(c, ctx), world)
    requires At(sys, c).Some? && At(sys, c).value.Answered?
    ensures SystemInv(Next(sys, ResolveHold(c, ctx), world), world)
  {
    hide Inv, Step, FreshIds, Extends, OutcomeOf, Disciplined, ResolverKey;
    var op, answer := sys.calls[c].op, sys.calls[c].answer;
    var action := LedgerCall(world, op, answer, ctx);
    ResolverDisciplined(world, op, answer, ctx);
    if action.Some? {
      StepKeepsBacking(sys, action.value, world);
      var s', o := Step(sys.ledger, action.value), OutcomeOf(sys.ledger, action.value);
      if o.Some? && o.value.Accepted? {
        AtomicResolve(sys.ledger, action.value);
        assert Names(s', ResolverKey(op, answer.Settled?), HoldOf(world, op), ResolutionStatus(answer.Settled?));
        assert Backed(s', world, op, answer, Some(o.value.transaction.id));
      }
    }
  }

  lemma NextKeepsInv(sys: System, event: Event, world: World)
    requires SystemInv(sys, world) && Legal(sys, event, world)
    ensures SystemInv(Next(sys, event, world), world)
  {
    hide Inv, Step, FreshIds, KeysMean, Disciplined, OutcomeOf, Backed, MarkOk;
    match event
    case ResolveHold(c, ctx) =>
      if At(sys, c).Some? && At(sys, c).value.Answered? {
        ResolveHoldBacked(sys, c, ctx, world);
      }
    case OtherLedgerUse(action) => StepKeepsBacking(sys, action, world);
    case Finish(c) =>
      if At(sys, c).Some? && sys.calls[c].StatusDone? {
        assert CallOk(sys.ledger, world, sys.calls[c]);
        BackedMark(sys.ledger, world, sys.calls[c].op, sys.calls[c].answer, sys.calls[c].posted);
      }
    case ChangeStatus(c, _) =>
      assert At(sys, c).Some? ==> CallOk(sys.ledger, world, sys.calls[c]);
    case _ =>
      assert Next(sys, event, world).ledger == sys.ledger && Next(sys, event, world).marks == sys.marks;
      assert Next(sys, event, world).outbox == sys.outbox;
  }

  lemma {:induction false} RunKeepsInv(sys: System, events: seq<Event>, n: nat, world: World)
    requires n <= |events| && Quiet(sys, world) && LegalRun(sys, events, world)
    ensures SystemInv(SystemAfter(sys, events, n, world), world)
  {
    hide Inv, KeysMean, Next, Legal;
    if n > 0 {
      RunKeepsInv(sys, events, n - 1, world);
      NextKeepsInv(SystemAfter(sys, events, n - 1, world), events[n - 1], world);
    }
  }

  // ----- The theorems -----

  /** The hold exists, carries this verdict, and has this one resolution and no other. */
  ghost predicate ResolvedOnce(s: Store, hold: Id, r: Id, status: Status) {
    && hold in s.transactions && s.transactions[hold].status == status
    && r in s.transactions && s.transactions[r].status == status
    && Resolves(s, r, hold)
    && forall r' | Resolves(s, r', hold) :: r' == r
  }

  lemma BackedResolvedOnce(s: Store, hold: Id, r: Id, status: Status)
    requires Resolutions(s) && ResolvedBy(s, r, hold, status)
    ensures ResolvedOnce(s, hold, r, status)
    ensures forall other | other != status :: !ResolvedOnce(s, hold, r, other)
  {
    hide Lines;
    assert ResolutionOk(s, r, hold);
  }

  lemma InvResolutions(s: Store)
    requires Inv(s)
    ensures Resolutions(s)
  {
  }

  /**
   In every run, with any interleaving, stops and answers: the resolver marks an operation SETTLED, FAILED
   or SUBMITTED as the answer says; and an operation with a hold is marked SETTLED exactly when the
   resolution the call was given committed that hold, the only one it ever has, and FAILED exactly when it
   voided it.
   */
  lemma MarksAreTrue(sys: System, events: seq<Event>, world: World, i: nat)
    requires Quiet(sys, world) && LegalRun(sys, events, world)
    requires i < |SystemAfter(sys, events, |events|, world).marks|
    ensures var now := SystemAfter(sys, events, |events|, world);
            var m := now.marks[i];
            && Tells(m.written, m.answer)
            && (HasHold(world, m.op) ==>
                  var hold := HoldOf(world, m.op).value;
                  && (m.written.OpSettled? <==> m.posted.Some? && ResolvedOnce(now.ledger, hold, m.posted.value, StatusPosted))
                  && (m.written.OpFailed? <==> m.posted.Some? && ResolvedOnce(now.ledger, hold, m.posted.value, StatusVoided)))
  {
    hide Inv, KeysMean, Legal, LegalRun, Next, ResolvedOnce, Resolutions, ResolvedBy, SystemAfter;
    var now := SystemAfter(sys, events, |events|, world);
    var m := now.marks[i];
    RunKeepsInv(sys, events, |events|, world);
    assert MarkOk(now.ledger, world, m);
    InvResolutions(now.ledger);
    if HasHold(world, m.op) && Decisive(m.answer) {
      BackedResolvedOnce(now.ledger, HoldOf(world, m.op).value, m.posted.value, ResolutionStatus(m.answer.Settled?));
    }
  }

  /**
   In every run, an event saying SETTLED goes out exactly for a settled answer, and one about an operation
   with a hold says the truth about that hold, SETTLED for committed and FAILED for voided, exactly when
   the answer was final: for any other answer FAILED goes out although nothing failed.
   */
  lemma NoticesTrueExactlyWhenFinal(sys: System, events: seq<Event>, world: World, i: nat)
    requires Quiet(sys, world) && LegalRun(sys, events, world)
    requires i < |SystemAfter(sys, events, |events|, world).outbox|
    ensures var now := SystemAfter(sys, events, |events|, world);
            var n := now.outbox[i];
            && (n.told == PixOutSettled <==> n.answer == Settled)
            && (HasHold(world, n.op) ==>
                  var (hold, status) := (HoldOf(world, n.op).value, if n.told == PixOutSettled then StatusPosted else StatusVoided);
                  n.posted.Some? && ResolvedOnce(now.ledger, hold, n.posted.value, status) <==>
                    n.answer == Settled || n.answer == Failed || n.answer == Cancelled)
  {
    hide Inv, KeysMean, Legal, LegalRun, Next, ResolvedOnce, Resolutions, ResolvedBy, SystemAfter;
    var now := SystemAfter(sys, events, |events|, world);
    var n := now.outbox[i];
    RunKeepsInv(sys, events, |events|, world);
    assert NoticeOk(now.ledger, world, n);
    InvResolutions(now.ledger);
    if HasHold(world, n.op) && Decisive(n.answer) {
      BackedResolvedOnce(now.ledger, HoldOf(world, n.op).value, n.posted.value, ResolutionStatus(n.answer.Settled?));
    }
  }

  /** 1 when the action newly resolves hold `t` this way. */
  function Hit(s: Store, action: Option<Action>, t: Id, commit: bool): nat {
    if && action.Some? && action.value.ResolveAction? && action.value.pendingId == t && action.value.commit == commit
       && NewlyAccepted(OutcomeOf(s, action.value).value)
    then 1 else 0
  }

  /** How often hold `t` is committed (or voided), by anyone, in the first `n` events. */
  function Hits(sys: System, events: seq<Event>, n: nat, world: World, t: Id, commit: bool): nat
    requires n <= |events|
  {
    if n == 0 then 0
    else
      var before := SystemAfter(sys, events, n - 1, world);
      Hits(sys, events, n - 1, world, t, commit) +
      Hit(before.ledger, LedgerActionOf(before, events[n - 1], world), t, commit)
  }

  lemma NextLedger(sys: System, event: Event, world: World)
    ensures var action := LedgerActionOf(sys, event, world);
            Next(sys, event, world).ledger == if action.Some? then Step(sys.ledger, action.value) else sys.ledger
  {
    hide Step, OutcomeOf, LedgerCall;
  }

  /** Neither commit nor void so far, or exactly one of them and the record says which. */
  predicate Fate(s: Store, t: Id, commits: nat, voids: nat) {
    || (commits == 0 && voids == 0)
    || (commits == 1 && voids == 0 && t in s.transactions && s.transactions[t].status.StatusPosted?)
    || (commits == 0 && voids == 1 && t in s.transactions && s.transactions[t].status.StatusVoided?)
  }

  lemma StepFate(s: Store, action: Action, t: Id, commits: nat, voids: nat)
    requires Inv(s) && FreshIds(s, action) && Fate(s, t, commits, voids)
    ensures Fate(Step(s, action), t, commits + Hit(s, Some(action), t, true), voids + Hit(s, Some(action), t, false))
  {
    hide Inv, CreateAccount, Post, ResolvePending, Moves;
    InvKeyed(s);
    StepExtends(s, action);
    if Hit(s, Some(action), t, true) + Hit(s, Some(action), t, false) > 0 {
      HoldIsSound(s, t);
      ResolveGrows(s, t, action.options, action.commit, action.ctx);
    }
  }

  /**
   In every run a hold is committed or voided at most once, and never both, by whatever mix of
   resolvers and other services; and its record tells which.
   */
  lemma {:induction false} ResolvedAtMostOnce(sys: System, events: seq<Event>, n: nat, world: World, t: Id)
    requires n <= |events| && Quiet(sys, world) && LegalRun(sys, events, world)
    ensures Hits(sys, events, n, world, t, true) + Hits(sys, events, n, world, t, false) <= 1
    ensures Fate(SystemAfter(sys, events, n, world).ledger, t,
                 Hits(sys, events, n, world, t, true), Hits(sys, events, n, world, t, false))
  {
    hide Inv, KeysMean, Next, Step, LegalRun, LedgerActionOf, FreshIds, Quiet, Disciplined;
    if n > 0 {
      ResolvedAtMostOnce(sys, events, n - 1, world, t);
      RunKeepsInv(sys, events, n - 1, world);
      var before, event := SystemAfter(sys, events, n - 1, world), events[n - 1];
      var action := LedgerActionOf(before, event, world);
      NextLedger(before, event, world);
      LegalAt(sys, events, n - 1, world);
      if action.Some? {
        StepFate(before.ledger, action.value, t, Hits(sys, events, n - 1, world, t, true),
                 Hits(sys, events, n - 1, world, t, false));
      }
    }
  }

  lemma LegalAt(sys: System, events: seq<Event>, i: nat, world: World)
    requires LegalRun(sys, events, world) && i < |events|
    ensures Legal(SystemAfter(sys, events, i, world), events[i], world)
  {
  }

  // ----- A hold stands until a decisive answer -----

  /** No answer about `t` is on its way to the ledger. */
  ghost predicate Undecided(sys: System, world: World, t: Id) {
    && IsOpenHold(sys.ledger, t)
    && forall c | c in sys.calls && sys.calls[c].Answered? && HoldOf(world, sys.calls[c].op) == Some(t) ::
         !Decisive(sys.calls[c].answer)
  }

  /** The event brings no verdict on `t`: no decisive answer for it, and no one else resolves it. */
  predicate NoVerdict(sys: System, event: Event, world: World, t: Id) {
    match event
    case Receive(c, Some(answer)) =>
      c in sys.calls && sys.calls[c].Counted? && HoldOf(world, sys.calls[c].op) == Some(t) ==> !Decisive(answer)
    case OtherLedgerUse(ResolveAction(hold, _, _, _)) => hold != t
    case _ => true
  }

  lemma StepStands(s: Store, action: Action, t: Id)
    requires Inv(s) && FreshIds(s, action) && IsOpenHold(s, t)
    requires action.ResolveAction? ==> action.pendingId != t
    ensures IsOpenHold(Step(s, action), t)
  {
    hide Inv, Post, ResolvePending, Moves;
    InvKeyed(s);
    match action
    case OpenAccount(template, newId) =>
    case PostAction(input, ctx) => PostGrows(s, input, ctx);
    case ResolveAction(hold, options, commit, ctx) =>
      HoldIsSound(s, hold);
      ResolveGrows(s, hold, options, commit, ctx);
  }

  lemma NextStands(sys: System, event: Event, world: World, t: Id)
    requires SystemInv(sys, world) && Legal(sys, event, world)
    requires Undecided(sys, world, t) && NoVerdict(sys, event, world, t)
    ensures Undecided(Next(sys, event, world), world, t)
  {
    hide Inv, Step, FreshIds, KeysMean, Disciplined, OutcomeOf, CallsOk, MarksOk, IsOpenHold;
    NextLedger(sys, event, world);
    var action := LedgerActionOf(sys, event, world);
    if action.Some? {
      StepStands(sys.ledger, action.value, t);
    }
  }

  /** Until a settled or failed answer about it arrives, or another service resolves it, a hold stands. */
  lemma {:induction false} HoldStands(sys: System, events: seq<Event>, n: nat, world: World, t: Id)
    requires n <= |events| && Quiet(sys, world) && LegalRun(sys, events, world) && IsOpenHold(sys.ledger, t)
    requires forall i | 0 <= i < n :: NoVerdict(SystemAfter(sys, events, i, world), events[i], world, t)
    ensures IsOpenHold(SystemAfter(sys, events, n, world).ledger, t)
    ensures Undecided(SystemAfter(sys, events, n, world), world, t)
  {
    hide Inv, KeysMean, Next, Legal, LegalRun, NoVerdict, IsOpenHold;
    if n > 0 {
      HoldStands(sys, events, n - 1, world, t);
      RunKeepsInv(sys, events, n - 1, world);
      LegalAt(sys, events, n - 1, world);
      NextStands(SystemAfter(sys, events, n - 1, world), events[n - 1], world, t);
    }
  }

  // ----- Exactly when the ledger lets a call through -----

  /**
   A decisive answer is accepted exactly when the hold is still open or this operation itself already
   resolved it this way; in the second case the call is a replay and the ledger does not move. So a
   call stopped after the ledger step can be repeated, and the opposite verdict is always refused.
   */
  lemma AcceptedExactlyWhen(sys: System, world: World, op: string, answer: TransactionStatus, ctx: Context)
    requires SystemInv(sys, world) && HasHold(world, op) && Decisive(answer)
    ensures var action := LedgerCall(world, op, answer, ctx).value;
            var o := OutcomeOf(sys.ledger, action).value;
            var key := ResolverKey(op, answer.Settled?);
            && (o.Accepted? <==> IsOpenHold(sys.ledger, HoldOf(world, op).value) || key in sys.ledger.byIdempotencyKey)
            && (key in sys.ledger.byIdempotencyKey ==>
                  && Step(sys.ledger, action) == sys.ledger
                  && ResolvedBy(sys.ledger, o.transaction.id, HoldOf(world, op).value, ResolutionStatus(answer.Settled?)))
  {
    hide Inv, ResolvePending, ResolverKey, CallsOk, MarksOk, ResolvedBy;
    var action := LedgerCall(world, op, answer, ctx).value;
    ReplayedResolve(sys.ledger, action.pendingId, action.options, action.commit, action.ctx);
    assert Names(sys.ledger, ResolverKey(op, answer.Settled?), HoldOf(world, op), ResolutionStatus(answer.Settled?));
    if ResolverKey(op, answer.Settled?) !in sys.ledger.byIdempotencyKey {
      ResolveAcceptedIffOpen(sys.ledger, action.pendingId, action.options, action.commit, ctx);
    }
  }

  lemma ResolveAcceptedIffOpen(s: Store, hold: Id, options: ResolveOptions, commit: bool, ctx: Context)
    requires Inv(s) && options.idempotencyKey !in s.byIdempotencyKey
    ensures ResolvePending(s, hold, options, commit, ctx).1.Accepted? <==> IsOpenHold(s, hold)
  {
    if IsOpenHold(s, hold) {
      hide Inv, ResolvePending;
      ResolveNeverRefused(s, hold, options, commit, ctx);
    }
  }
}
