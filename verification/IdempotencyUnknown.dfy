/** Operations of unknown outcome: their record stays, and whoever runs next carries on with it. */
module IdempotencyUnknown {
  import opened LedgerTypes
  import opened Idempotency
  import opened IdempotencySafety
  import opened IdempotencyReplay

  /** A handler that ran for record `id` reports. */
  predicate Reports(s: State, event: Event, id: Id) {
    && event.EndHandler? && event.request in s.requests && s.requests[event.request].Running?
    && s.requests[event.request].recordId == id
  }

  /** It reports how the operation ended. */
  predicate Concludes(s: State, event: Event, id: Id) {
    Reports(s, event, id) && !event.end.OutcomeUnknown?
  }

  /** A key becomes free exactly when a handler of its record fails transiently, or by the sweeper. */
  lemma FreedExactlyWhen(s: State, event: Event)
    requires s.row.Some?
    ensures Next(s, event).row.None? <==>
            event.Sweep? || (Reports(s, event, s.row.value.id) && event.end.FailsTransiently?)
  {
  }

  /** A success leaves the record COMPLETED, a lasting failure FAILED, with the handler's own status and body and no lease. */
  lemma ConclusionStored(s: State, event: Event, id: Id)
    requires Is(s.row, id) && Reports(s, event, id) && (event.end.Succeeds? || event.end.FailsForGood?)
    ensures var row := Next(s, event).row;
            && Is(row, id) && row.value.lease.None? && row.value.fingerprint == s.row.value.fingerprint
            && (event.end.Succeeds? ==>
                  row.value.state == Completed && row.value.status == event.end.status &&
                  row.value.body == (match event.end.result case Some(text) => text case None => "null"))
            && (event.end.FailsForGood? ==>
                  row.value.state == FailedForGood && row.value.status == event.end.status && row.value.body == event.end.error)
  {
  }

  /** A request that lost the key to a record that is gone by the time it looks claims the key again, and runs afresh. */
  lemma FreedKeyIsClaimed(s: State, p: nat, now: Instant, id: Id, op: Id)
    requires s.row.None? && p in s.requests && s.requests[p].Conflicted? && now <= s.clock && id !in s.mintedIds
    ensures var (events, fp) := ([Find(p), TryInsert(p, now, id, op)], s.requests[p].fingerprint);
            var s' := StateAfter(s, events, 2);
            && LegalRun(s, events)
            && s'.executions == s.executions + [Execution(id, op, fp, false)]
            && p in s'.requests && s'.requests[p] == Running(fp, id, op, now + 90)
            && s'.row == Some(Record(id, fp, op, InFlight, Some(now + 90), 0, ""))
  {
    var events := [Find(p), TryInsert(p, now, id, op)];
    var s1 := Next(s, events[0]);
    assert StateAfter(s, events, 0) == s;
    assert StateAfter(s, events, 1) == s1;
    assert StateAfter(s, events, 2) == Next(s1, events[1]);
  }

  // ----- In every run -----

  /** All of the record but its lease. */
  predicate SameButLease(r: Record, r': Record) {
    r' == r.(lease := r'.lease)
  }

  /** The record is the row, and every handler run since the first `k` was told to reconcile its operation. */
  ghost predicate CarriedOn(s: State, r: Record, k: nat) {
    && s.row.Some? && SameButLease(r, s.row.value)
    && k <= |s.executions|
    && forall i | k <= i < |s.executions| :: s.executions[i] == Execution(r.id, r.operationId, r.fingerprint, true)
  }

  lemma NextCarriesOn(s: State, event: Event, r: Record, k: nat)
    requires Sound(s) && CarriedOn(s, r, k) && !event.Sweep? && !Concludes(s, event, r.id)
    ensures CarriedOn(Next(s, event), r, k)
  {
    hide OneOperation, Minted;
    if event.ReadStolen? && event.request in s.requests && s.requests[event.request].Stolen? {
      assert PhaseOk(s.executions, s.requests[event.request]);
      if s.requests[event.request].recordId == r.id {
        var i :| 0 <= i < |s.executions| && s.executions[i].recordId == r.id;
      }
    }
  }

  /** No sweep, and no handler of record `id` tells how it ended, from step `k` on and before step `n`. */
  ghost predicate Undecided(events: seq<Event>, k: nat, n: nat, id: Id)
    requires n <= |events|
  {
    forall i | k <= i < n :: !events[i].Sweep? && !Concludes(StateAfter(INITIAL, events, i), events[i], id)
  }

  lemma {:induction false} RunCarriesOn(events: seq<Event>, k: nat, n: nat, r: Record)
    requires LegalRun(INITIAL, events) && k <= n <= |events|
    requires StateAfter(INITIAL, events, k).row == Some(r) && Undecided(events, k, n, r.id)
    ensures CarriedOn(StateAfter(INITIAL, events, n), r, |StateAfter(INITIAL, events, k).executions|)
  {
    hide Next, Sound, LegalRun;
    if n > k {
      hide CarriedOn;
      RunCarriesOn(events, k, n - 1, r);
      RunKeepsSound(events, n - 1);
      NextCarriesOn(StateAfter(INITIAL, events, n - 1), events[n - 1], r, |StateAfter(INITIAL, events, k).executions|);
    }
  }

  /**
   In every run, once a handler reports an unknown outcome for the record in the row: until a handler of
   that record tells how it ended, or the record is swept, the record stays as it was but for its lease,
   and every handler that runs for the key runs for this record and operation and is told to reconcile.
   */
  lemma UnknownIsCarriedOn(events: seq<Event>, k: nat, n: nat, r: Record)
    requires LegalRun(INITIAL, events) && k < n <= |events|
    requires var s := StateAfter(INITIAL, events, k);
             s.row == Some(r) && Reports(s, events[k], r.id) && events[k].end.OutcomeUnknown?
    requires Undecided(events, k + 1, n, r.id)
    ensures CarriedOn(StateAfter(INITIAL, events, n), r, |StateAfter(INITIAL, events, k).executions|)
  {
    hide Next, LegalRun, CarriedOn, StateAfter;
    RunCarriesOn(events, k, n, r);
  }

  // ----- With timely executors: nobody runs before the renewed lease is over -----

  /** Told to wait, or refused for another fingerprint. */
  predicate TurnsAway(reply: Reply, row: Record) {
    reply.answer == if reply.fingerprint == row.fingerprint then InProgress else KeyReused
  }

  /** Since `s0`: same row, no handler run, and who had read nothing is turned away. */
  ghost predicate Waits(s0: State, s: State)
    requires s0.row.Some?
  {
    && s.row == s0.row
    && s.executions == s0.executions
    && Idle(s)
    && s0.replies <= s.replies
    && (forall p | p in s.requests && !HadRead(s0, p) :: ReadsOnly(s.requests[p], s0.row.value))
    && (forall i | |s0.replies| <= i < |s.replies| && !HadRead(s0, s.replies[i].request) ::
          TurnsAway(s.replies[i], s0.row.value))
  }

  /** The record is in flight under a lease that is not over. */
  predicate UnderLease(row: Option<Record>, clock: Instant) {
    row.Some? && row.value.state.InFlight? && row.value.lease.Some? && clock < row.value.lease.value
  }

  lemma NextWaits(s0: State, s: State, event: Event)
    requires s0.row.Some? && Waits(s0, s) && Legal(s, event) && !event.Sweep? && UnderLease(s.row, s.clock)
    ensures Waits(s0, Next(s, event))
  {
    var s' := Next(s, event);
    assert |s'.replies| <= |s.replies| + 1;
  }

  lemma ClockRuns(s: State, event: Event)
    ensures s.clock <= Next(s, event).clock
  {
  }

  lemma {:induction false} RunWaits(s0: State, events: seq<Event>, k: nat, n: nat)
    requires TimelyRun(INITIAL, events) && k <= n <= |events| && s0 == StateAfter(INITIAL, events, k)
    requires s0.row.Some? && Idle(s0) && UnderLease(s0.row, StateAfter(INITIAL, events, n).clock)
    requires forall i | k <= i < n :: !events[i].Sweep?
    ensures Waits(s0, StateAfter(INITIAL, events, n))
  {
    hide Next, TimelyRun, Legal;
    if n > k {
      hide Waits;
      var before := StateAfter(INITIAL, events, n - 1);
      ClockRuns(before, events[n - 1]);
      RunWaits(s0, events, k, n - 1);
      TimelyLegal(events, n - 1);
      assert before.row == s0.row by { RowKept(s0, before); }
      NextWaits(s0, before, events[n - 1]);
    }
  }

  lemma RowKept(s0: State, s: State)
    requires s0.row.Some? && Waits(s0, s)
    ensures s.row == s0.row
  {
  }

  /** The report renews the lease and leaves nobody running. */
  lemma UnknownRenews(s: State, event: Event, id: Id)
    requires Exclusive(s) && Reports(s, event, id) && event.end.OutcomeUnknown?
    ensures var s' := Next(s, event);
            Idle(s') && Is(s'.row, id) && s'.row.value.state.InFlight? && s'.row.value.lease == Some(event.now + LEASE_SECONDS)
  {
  }

  /**
   With timely executors, after a report of unknown outcome and for as long as the renewed lease lasts:
   the record does not change, no handler runs for the key, and every request that had not read a record
   by then is told to wait, or refused if its fingerprint differs.
   */
  lemma UnknownMakesWait(events: seq<Event>, k: nat, n: nat, id: Id)
    requires TimelyRun(INITIAL, events) && k < n <= |events|
    requires Reports(StateAfter(INITIAL, events, k), events[k], id) && events[k].end.OutcomeUnknown?
    requires forall i | k < i < n :: !events[i].Sweep?
    requires StateAfter(INITIAL, events, n).clock < events[k].now + LEASE_SECONDS
    ensures var s := StateAfter(INITIAL, events, k + 1);
            Is(s.row, id) && Waits(s, StateAfter(INITIAL, events, n))
  {
    hide Next, TimelyRun, Exclusive, Waits, Idle, Reports;
    RunKeepsExclusive(events, k);
    UnknownRenews(StateAfter(INITIAL, events, k), events[k], id);
    RunWaits(StateAfter(INITIAL, events, k + 1), events, k + 1, n);
  }
}
