/** Finished records: what later requests get back, and how exact the lease hypothesis is. */
module IdempotencyReplay {
  import opened LedgerTypes
  import opened Idempotency
  import opened IdempotencySafety

  // ----- A finished record stays and answers for the handler -----

  lemma TerminalIdle(s: State)
    requires Exclusive(s) && s.row.Some? && Terminal(s.row.value)
    ensures Idle(s)
  {
  }

  /** A request that came in after the record was finished has only that record to read. */
  predicate ReadsOnly(phase: RequestPhase, row: Record) {
    match phase
    case Claiming(_) => true
    case Conflicted(_) => true
    case Saw(_, snapshot) => snapshot == row
    case _ => false
  }

  predicate RepliesFrom(reply: Reply, row: Record) {
    reply.answer ==
    if reply.fingerprint == row.fingerprint then Replayed(row.id, row.status, row.body) else KeyReused
  }

  /** The request had already read a record when this one was finished. */
  predicate HadRead(s0: State, p: nat) {
    p in s0.requests && !s0.requests[p].Claiming? && !s0.requests[p].Conflicted?
  }

  /** Since `s0`: same row, no handler run, and who had read nothing sees nothing but the finished record. */
  ghost predicate Settled(s0: State, s: State)
    requires s0.row.Some?
  {
    && s.row == s0.row
    && s.executions == s0.executions
    && Idle(s)
    && s0.replies <= s.replies
    && (forall p | p in s.requests && !HadRead(s0, p) :: ReadsOnly(s.requests[p], s0.row.value))
    && (forall i | |s0.replies| <= i < |s.replies| ::
          && !s.replies[i].answer.Executed?
          && (!HadRead(s0, s.replies[i].request) ==> RepliesFrom(s.replies[i], s0.row.value)))
  }

  lemma NextKeepsSettled(s0: State, s: State, event: Event)
    requires s0.row.Some? && Terminal(s0.row.value) && Settled(s0, s) && !event.Sweep?
    ensures Settled(s0, Next(s, event))
  {
    var s' := Next(s, event);
    assert |s'.replies| <= |s.replies| + 1;
  }

  /**
   Once a record is COMPLETED or FAILED, and until it is swept: the record does not change, no handler
   runs for the key and none answers, and every request that had not read a record by then, later ones
   included, is answered with the stored status and body, or refused if its fingerprint differs.
   */
  lemma {:induction false} FinishedRecordAnswers(s0: State, events: seq<Event>, n: nat)
    requires Exclusive(s0) && s0.row.Some? && Terminal(s0.row.value) && n <= |events|
    requires forall i | 0 <= i < |events| :: !events[i].Sweep?
    ensures Settled(s0, StateAfter(s0, events, n))
  {
    hide Next, Terminal, Exclusive;
    if n == 0 {
      TerminalIdle(s0);
    } else {
      hide Settled;
      FinishedRecordAnswers(s0, events, n - 1);
      NextKeepsSettled(s0, StateAfter(s0, events, n - 1), events[n - 1]);
    }
  }

  // ----- All answers given for one record agree -----

  datatype Response = Response(status: int, body: string)

  /** The response an answer reports for a record, the handler's own or a replay of it. */
  function ResponseIn(answer: Answer): Option<(Id, Response)> {
    match answer
    case Replayed(id, status, body) => Some((id, Response(status, body)))
    case Executed(id, Succeeds(status, result)) => Some((id, Response(status, StoredBody(result))))
    case Executed(id, FailsForGood(status, error)) => Some((id, Response(status, error)))
    case _ => None
  }

  predicate Stores(r: Record, id: Id, v: Response) {
    r.id == id && Terminal(r) && v == Response(r.status, r.body)
  }

  predicate Reported(replies: seq<Reply>, id: Id, v: Response) {
    exists i :: 0 <= i < |replies| && ResponseIn(replies[i].answer) == Some((id, v))
  }

  predicate Remembered(requests: map<nat, RequestPhase>, id: Id, v: Response) {
    exists p :: p in requests && requests[p].Saw? && Stores(requests[p].snapshot, id, v)
  }

  /** Somewhere, response `v` is on record for `id`: in the row, in a reading of it, or in a reply. */
  predicate Testified(s: State, id: Id, v: Response) {
    || (s.row.Some? && Stores(s.row.value, id, v))
    || Remembered(s.requests, id, v)
    || Reported(s.replies, id, v)
  }

  ghost predicate OneResponse(s: State) {
    && (forall id, v, w | Testified(s, id, v) && Testified(s, id, w) :: v == w)
    && (forall id, v | Testified(s, id, v) :: id in s.mintedIds)
    && (forall v | s.row.Some? && !Terminal(s.row.value) :: !Testified(s, s.row.value.id, v))
    && (s.row.Some? ==> s.row.value.id in s.mintedIds)
  }

  lemma ReportedAppend(replies: seq<Reply>, reply: Reply, id: Id, v: Response)
    ensures Reported(replies + [reply], id, v) <==> Reported(replies, id, v) || ResponseIn(reply.answer) == Some((id, v))
  {
    if Reported(replies, id, v) {
      var i :| 0 <= i < |replies| && ResponseIn(replies[i].answer) == Some((id, v));
      assert (replies + [reply])[i] == replies[i];
    }
    assert (replies + [reply])[|replies|] == reply;
  }

  /** Whether this event is where the handler's response for record `id` comes in. */
  predicate Delivers(s: State, event: Event, id: Id, v: Response) {
    && event.EndHandler? && event.request in s.requests && s.requests[event.request].Running?
    && ResponseIn(Executed(s.requests[event.request].recordId, event.end)) == Some((id, v))
  }

  /** A response on record after a step was on record before it, or just came from the handler. */
  lemma Provenance(s: State, event: Event, id: Id, v: Response)
    requires Testified(Next(s, event), id, v)
    ensures Testified(s, id, v) || Delivers(s, event, id, v)
  {
    hide Reported;
    var s' := Next(s, event);
    if s'.replies != s.replies {
      ReportedAppend(s.replies, s'.replies[|s.replies|], id, v);
    }
    if Remembered(s'.requests, id, v) {
      var p :| p in s'.requests && s'.requests[p].Saw? && Stores(s'.requests[p].snapshot, id, v);
      assert p in s.requests && s.requests[p] == s'.requests[p] ==> Remembered(s.requests, id, v);
    }
    if event.Decide? && event.request in s.requests && s.requests[event.request].Saw? {
      assert Terminal(s.requests[event.request].snapshot) ==>
          Remembered(s.requests, s.requests[event.request].snapshot.id,
                     Response(s.requests[event.request].snapshot.status, s.requests[event.request].snapshot.body));
    }
  }

  lemma NextRow(s: State, event: Event)
    requires Exclusive(s)
    ensures var s' := Next(s, event);
            && s.mintedIds <= s'.mintedIds
            && (s'.row.Some? && !(s.row.Some? && s.row.value.id == s'.row.value.id) ==>
                  event.TryInsert? && s'.row.value.id == event.recordId && event.recordId in s'.mintedIds)
            && (s'.row.Some? && s.row.Some? && s.row.value.id == s'.row.value.id && !Terminal(s'.row.value) ==>
                  !Terminal(s.row.value))
            && (event.EndHandler? && event.request in s.requests && s.requests[event.request].Running? ==>
                  Owns(s, s.requests[event.request]))
  {
    hide OneExecutor, Timely;
  }

  lemma DeliveredRow(s: State, event: Event, id: Id, v: Response)
    requires Exclusive(s) && Delivers(s, event, id, v)
    ensures s.row.Some? && s.row.value.id == id && !Terminal(s.row.value)
    ensures Next(s, event).row.Some? && Stores(Next(s, event).row.value, id, v)
  {
    hide OneExecutor, Timely;
    assert Owns(s, s.requests[event.request]);
  }

  /** At most one response ever comes in for a record. */
  lemma NextKeepsOneResponse(s: State, event: Event)
    requires Exclusive(s) && OneResponse(s) && Legal(s, event)
    ensures OneResponse(Next(s, event))
  {
    hide Exclusive, Testified, Next, Delivers, Owns, Terminal;
    var s' := Next(s, event);
    NextRow(s, event);
    forall id, v | Testified(s', id, v) ensures id in s'.mintedIds {
      Provenance(s, event, id, v);
      if Delivers(s, event, id, v) {
        DeliveredRow(s, event, id, v);
      }
    }
    forall id, v, w | Testified(s', id, v) && Testified(s', id, w) ensures v == w {
      Provenance(s, event, id, v);
      Provenance(s, event, id, w);
      if Delivers(s, event, id, v) {
        DeliveredRow(s, event, id, v);
        assert !Testified(s, id, w);
        DeliveredRow(s, event, id, w);
      } else if Delivers(s, event, id, w) {
        DeliveredRow(s, event, id, w);
      }
    }
    forall v | s'.row.Some? && !Terminal(s'.row.value) ensures !Testified(s', s'.row.value.id, v) {
      StillSilent(s, event, v);
    }
  }

  lemma StillSilent(s: State, event: Event, v: Response)
    requires Exclusive(s) && OneResponse(s) && Legal(s, event)
    requires Next(s, event).row.Some? && !Terminal(Next(s, event).row.value)
    ensures !Testified(Next(s, event), Next(s, event).row.value.id, v)
  {
    hide Exclusive, Testified, Next, Delivers, Owns;
    var s' := Next(s, event);
    var id := s'.row.value.id;
    NextRow(s, event);
    if Testified(s', id, v) {
      Provenance(s, event, id, v);
      if Delivers(s, event, id, v) {
        DeliveredRow(s, event, id, v);
      }
    }
  }

  lemma InitialOneResponse()
    ensures OneResponse(INITIAL)
  {
  }

  lemma TimelyLegal(events: seq<Event>, i: nat)
    requires TimelyRun(INITIAL, events) && i < |events|
    ensures Legal(StateAfter(INITIAL, events, i), events[i])
  {
  }

  lemma {:induction false} RunKeepsOneResponse(events: seq<Event>, n: nat)
    requires n <= |events| && TimelyRun(INITIAL, events)
    ensures OneResponse(StateAfter(INITIAL, events, n))
  {
    hide Next, Legal, Timely, Idle, Exclusive, OneResponse, TimelyRun;
    if n == 0 {
      InitialOneResponse();
    } else {
      RunKeepsOneResponse(events, n - 1);
      RunKeepsExclusive(events, n - 1);
      TimelyLegal(events, n - 1);
      NextKeepsOneResponse(StateAfter(INITIAL, events, n - 1), events[n - 1]);
    }
  }

  /**
   With timely executors, all responses ever given for one record are the same: the one its handler
   produced and every replay of it.
   */
  lemma SameResponseForEver(events: seq<Event>, i: nat, j: nat)
    requires TimelyRun(INITIAL, events)
    requires var replies := StateAfter(INITIAL, events, |events|).replies; i < |replies| && j < |replies|
    ensures var replies := StateAfter(INITIAL, events, |events|).replies;
            var a, b := ResponseIn(replies[i].answer), ResponseIn(replies[j].answer);
            a.Some? && b.Some? && a.value.0 == b.value.0 ==> a == b
  {
    hide Next, Legal, Timely, Idle, TimelyRun, StateAfter;
    RunKeepsOneResponse(events, |events|);
    var s := StateAfter(INITIAL, events, |events|);
    var a, b := ResponseIn(s.replies[i].answer), ResponseIn(s.replies[j].answer);
    if a.Some? && b.Some? && a.value.0 == b.value.0 {
      assert Reported(s.replies, a.value.0, a.value.1) && Reported(s.replies, b.value.0, b.value.1);
      assert Testified(s, a.value.0, a.value.1) && Testified(s, b.value.0, b.value.1);
    }
  }

  // ----- The hypothesis is exact: a second executor gets in exactly when the first overruns -----

  /** Time stands still, the record is not swept, and `p` neither reports nor dies. */
  predicate Undisturbed(event: Event, p: nat) {
    && !event.Tick? && !event.Sweep?
    && (event.EndHandler? || event.Crash? ==> event.request != p)
  }

  ghost predicate UndisturbedRun(s: State, events: seq<Event>, p: nat) {
    LegalRun(s, events) && forall i | 0 <= i < |events| :: Undisturbed(events[i], p)
  }

  predicate RunsBeside(s: State, p: nat) {
    p in s.requests && s.requests[p].Running? && exists q :: q != p && q in s.requests && s.requests[q].Running?
  }

  /** `p` is the only executor and its record is the row. */
  ghost predicate Alone(s: State, p: nat) {
    && p in s.requests && s.requests[p].Running? && Owns(s, s.requests[p])
    && forall q | q in s.requests && Holds(s.requests[q]) :: q == p
  }

  lemma NextKeepsAlone(s: State, event: Event, p: nat)
    requires Alone(s, p) && s.clock < s.requests[p].until && Legal(s, event) && Undisturbed(event, p)
    ensures var s' := Next(s, event); Alone(s', p) && s'.requests[p] == s.requests[p] && s'.clock == s.clock
  {
  }

  lemma {:induction false} StaysAlone(s: State, events: seq<Event>, n: nat, p: nat)
    requires Alone(s, p) && s.clock < s.requests[p].until && UndisturbedRun(s, events, p) && n <= |events|
    ensures var s' := StateAfter(s, events, n); Alone(s', p) && s'.requests[p] == s.requests[p] && s'.clock == s.clock
  {
    hide Next, Legal, Owns;
    if n > 0 {
      StaysAlone(s, events, n - 1, p);
      NextKeepsAlone(StateAfter(s, events, n - 1), events[n - 1], p);
    }
  }

  lemma {:induction false} Bounded(ids: set<nat>) returns (bound: nat)
    ensures forall x | x in ids :: x < bound
  {
    if ids == {} {
      bound := 0;
    } else {
      var x :| x in ids;
      var b := Bounded(ids - {x});
      bound := if x < b then b else x + 1;
      assert forall y | y in ids :: y == x || y in ids - {x};
    }
  }

  /** A new request `q` with the fingerprint of the row, all at one moment; `id` is the one it mints in vain. */
  function Retry(s: State, q: nat, id: Id): seq<Event>
    requires s.row.Some?
  {
    [Arrive(q, s.row.value.fingerprint), TryInsert(q, s.clock, id, id), Find(q), Decide(q, s.clock), Steal(q, s.clock),
     ReadStolen(q)]
  }

  /** Once the lease is over, a repeat of the request gets to run and is told to reconcile: no record is stuck. */
  lemma RetryAfterLease(s: State, q: nat, id: Id)
    requires s.row.Some? && s.row.value.state.InFlight? && s.row.value.lease.Some? && s.row.value.lease.value <= s.clock
    requires q !in s.requests && id !in s.mintedIds
    ensures LegalRun(s, Retry(s, q, id)) && |Retry(s, q, id)| == 6
    ensures var (r, s') := (s.row.value, StateAfter(s, Retry(s, q, id), 6));
            && (forall p | p in s.requests :: p in s'.requests && s'.requests[p] == s.requests[p])
            && q in s'.requests && s'.requests[q].Running?
            && s'.executions == s.executions + [Execution(r.id, r.operationId, r.fingerprint, true)]
  {
    hide LegalRun, Retry, Next;
    var events := Retry(s, q, id);
    RetrySteals(s, q, id);
    RetryIsLegal(s, q, id);
    var s4 := StateAfter(s, events, 4);
    assert StateAfter(s, events, 5) == Next(s4, events[4]);
    assert StateAfter(s, events, 6) == Next(Next(s4, events[4]), events[5]);
    StolenRuns(s4, q);
  }

  /** It takes the lease and runs. */
  lemma StolenRuns(s: State, q: nat)
    requires s.row.Some? && q in s.requests && s.requests[q] == Stealing(s.row.value.fingerprint, s.row.value.id)
    requires CanSteal(s.row, s.row.value.id, s.clock)
    ensures var (r, s') := (s.row.value, Next(Next(s, Steal(q, s.clock)), ReadStolen(q)));
            && (forall p | p in s.requests && p != q :: p in s'.requests && s'.requests[p] == s.requests[p])
            && q in s'.requests && s'.requests[q].Running?
            && s'.executions == s.executions + [Execution(r.id, r.operationId, r.fingerprint, true)]
  {
  }

  /** The request after arriving, and after losing the key. */
  lemma RetryConflicts(s: State, q: nat, id: Id)
    requires s.row.Some? && q !in s.requests
    ensures var (events, fp) := (Retry(s, q, id), s.row.value.fingerprint);
            && StateAfter(s, events, 1) == Put(s, q, Claiming(fp))
            && StateAfter(s, events, 2) == Put(s.(mintedIds := s.mintedIds + {id}), q, Conflicted(fp))
  {
    var events := Retry(s, q, id);
    assert StateAfter(s, events, 0) == s;
    assert StateAfter(s, events, 1) == Next(s, events[0]);
    assert StateAfter(s, events, 2) == Next(StateAfter(s, events, 1), events[1]);
    PutTwice(s, q, Claiming(s.row.value.fingerprint), Conflicted(s.row.value.fingerprint));
  }

  lemma PutTwice(s: State, q: nat, a: RequestPhase, b: RequestPhase)
    ensures s.requests[q := a][q := b] == s.requests[q := b]
  {
  }

  /** Then it reads the record and sees that its lease is over. */
  lemma RetrySteals(s: State, q: nat, id: Id)
    requires s.row.Some? && s.row.value.state.InFlight? && s.row.value.lease.Some? && s.row.value.lease.value <= s.clock
    requires q !in s.requests
    ensures var (events, r) := (Retry(s, q, id), s.row.value);
            var minted := s.(mintedIds := s.mintedIds + {id});
            && StateAfter(s, events, 3) == Put(minted, q, Saw(r.fingerprint, r))
            && StateAfter(s, events, 4) == Put(minted, q, Stealing(r.fingerprint, r.id))
            && |events| == 6 && events[4] == Steal(q, s.clock) && events[5] == ReadStolen(q)
  {
    var (events, r) := (Retry(s, q, id), s.row.value);
    RetryConflicts(s, q, id);
    var s2 := StateAfter(s, events, 2);
    assert StateAfter(s, events, 3) == Next(s2, events[2]);
    assert StateAfter(s, events, 4) == Next(StateAfter(s, events, 3), events[3]);
    PutTwice(s, q, Conflicted(r.fingerprint), Saw(r.fingerprint, r));
    PutTwice(s, q, Saw(r.fingerprint, r), Stealing(r.fingerprint, r.id));
  }

  lemma RetryIsLegal(s: State, q: nat, id: Id)
    requires s.row.Some? && s.row.value.state.InFlight? && s.row.value.lease.Some? && s.row.value.lease.value <= s.clock
    requires q !in s.requests && id !in s.mintedIds
    ensures LegalRun(s, Retry(s, q, id))
  {
    hide Next, StateAfter;
    var events := Retry(s, q, id);
    RetryConflicts(s, q, id);
    RetrySteals(s, q, id);
    forall i | 0 <= i < |events| ensures Legal(StateAfter(s, events, i), events[i]) {
      assert i == 0 || i == 1 || i == 2 || i == 3 || i == 4 || i == 5;
    }
  }

  /** A second request can get to run the handler beside `p` exactly when `p` has outlived its lease. */
  lemma SecondExecutorExactlyAfterLease(s: State, p: nat)
    requires Alone(s, p)
    ensures s.clock >= s.requests[p].until <==>
            exists events: seq<Event> :: UndisturbedRun(s, events, p) && RunsBeside(StateAfter(s, events, |events|), p)
  {
    if s.clock >= s.requests[p].until {
      var q := Bounded(s.requests.Keys);
      var id := Bounded(s.mintedIds);
      RetryAfterLease(s, q, id);
      var events := Retry(s, q, id);
      assert UndisturbedRun(s, events, p) && RunsBeside(StateAfter(s, events, |events|), p);
    } else {
      forall events: seq<Event> | UndisturbedRun(s, events, p) ensures !RunsBeside(StateAfter(s, events, |events|), p) {
        StaysAlone(s, events, |events|, p);
      }
    }
  }
}
