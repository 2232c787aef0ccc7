/** What every run of the idempotency protocol keeps, and what timely executors add. */
module IdempotencySafety {
  import opened LedgerTypes
  import opened Idempotency

  // ----- In every run: one operation per record, and reconcile before any re-execution -----

  /** Executions of one record share operation and fingerprint, and all but the first reconcile. */
  ghost predicate OneOperation(es: seq<Execution>) {
    forall i, j | 0 <= i < j < |es| && es[i].recordId == es[j].recordId ::
      && es[i].operationId == es[j].operationId
      && es[i].fingerprint == es[j].fingerprint
      && es[j].reconcileBeforeExecute
  }

  predicate Ran(es: seq<Execution>, id: Id) {
    exists i :: 0 <= i < |es| && es[i].recordId == id
  }

  /** Every execution of record `id` so far was of operation `op` with fingerprint `fp`. */
  predicate RanAs(es: seq<Execution>, id: Id, op: Id, fp: string) {
    forall i | 0 <= i < |es| && es[i].recordId == id :: es[i].operationId == op && es[i].fingerprint == fp
  }

  predicate Known(es: seq<Execution>, r: Record) {
    Ran(es, r.id) && RanAs(es, r.id, r.operationId, r.fingerprint)
  }

  predicate FingerprintRan(es: seq<Execution>, id: Id, fp: string) {
    Ran(es, id) && forall i | 0 <= i < |es| && es[i].recordId == id :: es[i].fingerprint == fp
  }

  /** A request that has passed the fingerprint check carries its record's own fingerprint. */
  predicate PhaseOk(es: seq<Execution>, phase: RequestPhase) {
    match phase
    case Saw(_, snapshot) => Known(es, snapshot)
    case Stealing(fp, id) => FingerprintRan(es, id, fp)
    case Stolen(fp, id, _) => FingerprintRan(es, id, fp)
    case _ => true
  }

  ghost predicate PhasesOk(es: seq<Execution>, requests: map<nat, RequestPhase>) {
    forall p | p in requests :: PhaseOk(es, requests[p])
  }

  ghost predicate Minted(es: seq<Execution>, ids: set<Id>) {
    forall i | 0 <= i < |es| :: es[i].recordId in ids
  }

  ghost predicate Sound(s: State) {
    && OneOperation(s.executions)
    && Minted(s.executions, s.mintedIds)
    && (s.row.Some? ==> Known(s.executions, s.row.value))
    && PhasesOk(s.executions, s.requests)
  }

  /** A new execution that agrees with the earlier ones of its record disturbs nothing known. */
  lemma PhaseOkAppend(es: seq<Execution>, e: Execution, phase: RequestPhase)
    requires PhaseOk(es, phase) && RanAs(es, e.recordId, e.operationId, e.fingerprint)
    ensures PhaseOk(es + [e], phase)
  {
    match phase
    case Saw(_, snapshot) => KnownAppend(es, e, snapshot);
    case Stealing(fp, id) => RanAppend(es, e, id);
    case Stolen(fp, id, _) => RanAppend(es, e, id);
    case _ =>
  }

  lemma RanAppend(es: seq<Execution>, e: Execution, id: Id)
    ensures Ran(es + [e], id) <==> Ran(es, id) || e.recordId == id
  {
    if Ran(es, id) {
      var i :| 0 <= i < |es| && es[i].recordId == id;
      assert (es + [e])[i].recordId == id;
    }
    assert (es + [e])[|es|] == e;
  }

  lemma KnownAppend(es: seq<Execution>, e: Execution, r: Record)
    requires Known(es, r) && RanAs(es, e.recordId, e.operationId, e.fingerprint)
    ensures Known(es + [e], r)
  {
    RanAppend(es, e, r.id);
  }

  lemma ExecuteSound(s: State, p: nat, fp: string, r: Record, until: Instant, reconcile: bool)
    requires Sound(s.(row := None)) && r.id in s.mintedIds
    requires s.row.Some? && s.row.value == r
    requires RanAs(s.executions, r.id, r.operationId, fp) && r.fingerprint == fp
    requires !reconcile ==> !Ran(s.executions, r.id)
    ensures Sound(Execute(s, p, fp, r, until, reconcile))
  {
    var es, e := s.executions, Execution(r.id, r.operationId, fp, reconcile);
    RanAppend(es, e, r.id);
    forall q | q in s.requests ensures PhaseOk(es + [e], s.requests[q]) {
      PhaseOkAppend(es, e, s.requests[q]);
    }
  }

  lemma InsertSound(s: State, p: nat, now: Instant, id: Id, op: Id)
    requires Sound(s) && id !in s.mintedIds && p in s.requests && s.requests[p].Claiming? && s.row.None?
    ensures Sound(Next(s, TryInsert(p, now, id, op)))
  {
    hide Known, OneOperation, PhaseOk, Execute;
    var fp := s.requests[p].fingerprint;
    var r := Insert(s.row, id, op, fp, now).value;
    ExecuteSound(s.(row := Some(r), mintedIds := s.mintedIds + {id}), p, fp, r, now + LEASE_SECONDS, false);
  }

  lemma StolenSound(s: State, p: nat)
    requires Sound(s) && p in s.requests && s.requests[p].Stolen? && Is(s.row, s.requests[p].recordId)
    ensures Sound(Next(s, ReadStolen(p)))
  {
    var fp, r := s.requests[p].fingerprint, s.row.value;
    assert PhaseOk(s.executions, s.requests[p]);
    var i :| 0 <= i < |s.executions| && s.executions[i].recordId == r.id;
    ExecuteSound(s, p, fp, r, s.requests[p].until, true);
  }

  /** Every step keeps what is known about records. */
  lemma NextKeepsSound(s: State, event: Event)
    requires Sound(s) && Legal(s, event)
    ensures Sound(Next(s, event))
  {
    hide OneOperation, Ran, Execute;
    match event
    case TryInsert(p, now, id, op) =>
      if p in s.requests && s.requests[p].Claiming? && s.row.None? {
        InsertSound(s, p, now, id, op);
      }
    case ReadStolen(p) =>
      if p in s.requests && s.requests[p].Stolen? && Is(s.row, s.requests[p].recordId) {
        StolenSound(s, p);
      }
    case Decide(p, now) =>
      if p in s.requests && s.requests[p].Saw? {
        assert PhaseOk(s.executions, s.requests[p]);
      }
    case _ =>
  }

  lemma {:induction false} RunKeepsSound(events: seq<Event>, n: nat)
    requires n <= |events| && LegalRun(INITIAL, events)
    ensures Sound(StateAfter(INITIAL, events, n))
  {
    hide Next, Legal;
    if n > 0 {
      RunKeepsSound(events, n - 1);
      NextKeepsSound(StateAfter(INITIAL, events, n - 1), events[n - 1]);
    }
  }

  /**
   In every run, with any timing, crashes and sweeps: all handler runs of one record carry the same
   operation id and fingerprint, and every one after the first is told to reconcile first.
   */
  lemma ExecutionsShareOperation(events: seq<Event>)
    requires LegalRun(INITIAL, events)
    ensures OneOperation(StateAfter(INITIAL, events, |events|).executions)
  {
    hide LegalRun, Next, OneOperation;
    RunKeepsSound(events, |events|);
  }

  // ----- With timely executors: one at a time -----

  /** Each executor is still within its lease. */
  ghost predicate Timely(s: State) {
    forall p | p in s.requests && Holds(s.requests[p]) :: s.clock < s.requests[p].until
  }

  ghost predicate Idle(s: State) {
    forall p | p in s.requests :: !Holds(s.requests[p])
  }

  /** Executors report or die before their lease ends, and the sweeper spares a record in execution. */
  ghost predicate TimelyRun(s: State, events: seq<Event>) {
    forall i | 0 <= i < |events| ::
      && Legal(StateAfter(s, events, i), events[i])
      && Timely(Next(StateAfter(s, events, i), events[i]))
      && (events[i].Sweep? ==> Idle(StateAfter(s, events, i)))
  }

  /** The executor's record is the row, in flight, under the executor's own lease. */
  predicate Owns(s: State, phase: RequestPhase)
    requires Holds(phase)
  {
    Is(s.row, phase.recordId) && s.row.value.state.InFlight? && s.row.value.lease == Some(phase.until)
  }

  ghost predicate OneExecutor(s: State) {
    forall p, q | p in s.requests && q in s.requests && Holds(s.requests[p]) && Holds(s.requests[q]) :: p == q
  }

  ghost predicate Exclusive(s: State) {
    && OneExecutor(s)
    && Timely(s)
    && (forall p | p in s.requests && Holds(s.requests[p]) :: Owns(s, s.requests[p]))
  }

  /** Nobody can take the lease of a running executor, nor insert beside it. */
  lemma NextKeepsExclusive(s: State, event: Event)
    requires Exclusive(s) && Legal(s, event) && Timely(Next(s, event)) && (event.Sweep? ==> Idle(s))
    ensures Exclusive(Next(s, event))
  {
    var s' := Next(s, event);
    match event
    case Steal(p, now) =>
      if p in s.requests && s.requests[p].Stealing? && CanSteal(s.row, s.requests[p].recordId, now) {
        assert Idle(s);
      }
    case TryInsert(p, now, id, op) =>
      if p in s.requests && s.requests[p].Claiming? && s.row.None? {
        assert Idle(s);
      }
    case EndHandler(p, end, now) =>
      if p in s.requests && s.requests[p].Running? {
        assert Idle(s');
      }
    case _ =>
  }

  lemma InitialExclusive()
    ensures Exclusive(INITIAL)
  {
  }

  lemma {:induction false} RunKeepsExclusive(events: seq<Event>, n: nat)
    requires n <= |events| && TimelyRun(INITIAL, events)
    ensures Exclusive(StateAfter(INITIAL, events, n))
  {
    hide Next, Legal, Timely, Idle, OneExecutor, Exclusive;
    if n == 0 {
      InitialExclusive();
    } else {
      RunKeepsExclusive(events, n - 1);
      var before := StateAfter(INITIAL, events, n - 1);
      NextKeepsExclusive(before, events[n - 1]);
    }
  }

  /** If executors report or die within their lease, at most one request runs the handler at any time. */
  lemma AtMostOneExecutor(events: seq<Event>, n: nat, p: nat, q: nat)
    requires n <= |events| && TimelyRun(INITIAL, events)
    ensures var s := StateAfter(INITIAL, events, n);
            p in s.requests && q in s.requests && s.requests[p].Running? && s.requests[q].Running? ==> p == q
  {
    hide TimelyRun, Next;
    RunKeepsExclusive(events, n);
  }
}
