/**
 The HTTP idempotency protocol: apps/api/src/idempotency/idempotency.interceptor.ts over
 apps/api/src/persistence/idempotency.repository.ts.

 One idempotency key, whose record is one row under a unique index. Requests on any number of pods
 advance one database call at a time, read the clock before the call that uses the reading, and may
 crash anywhere; handlers end as they like; a sweeper may delete the row.
 */
module Idempotency {
  import opened LedgerTypes

  const LEASE_SECONDS := 90

  datatype RecordState = InFlight | Completed | FailedForGood

  datatype Record = Record(
    id: Id,
    fingerprint: string,
    operationId: Id,
    state: RecordState,
    lease: Option<Instant>,
    status: int,
    body: string)

  predicate Terminal(r: Record) {
    !r.state.InFlight?
  }

  // ----- The repository: each method is one atomic statement on the row -----

  /** INSERT ... ON CONFLICT DO NOTHING; the caller won if the row is now its own. */
  function Insert(row: Option<Record>, id: Id, operationId: Id, fingerprint: string, now: Instant): Option<Record> {
    if row.Some? then row else Some(Record(id, fingerprint, operationId, InFlight, Some(now + LEASE_SECONDS), 0, ""))
  }

  predicate Is(row: Option<Record>, id: Id) {
    row.Some? && row.value.id == id
  }

  /** Whether the conditional update of `stealLease` finds its row. */
  predicate CanSteal(row: Option<Record>, id: Id, now: Instant) {
    Is(row, id) && row.value.state.InFlight? && row.value.lease.Some? && row.value.lease.value <= now
  }

  function SetLease(row: Option<Record>, now: Instant): Option<Record>
    requires row.Some?
  {
    Some(row.value.(lease := Some(now + LEASE_SECONDS)))
  }

  /** `renewLease` and `complete` name only the id: neither looks at state or lease. */
  function RenewLease(row: Option<Record>, id: Id, now: Instant): Option<Record> {
    if Is(row, id) then SetLease(row, now) else row
  }

  function Complete(row: Option<Record>, id: Id, state: RecordState, status: int, body: string): Option<Record> {
    if Is(row, id) then Some(row.value.(state := state, status := status, body := body, lease := None)) else row
  }

  function Release(row: Option<Record>, id: Id): Option<Record> {
    if Is(row, id) then None else row
  }

  // ----- Requests -----

  /** Where a request stands between two awaits. */
  datatype RequestPhase =
    | Claiming(fingerprint: string)
    | Conflicted(fingerprint: string)
    | Saw(fingerprint: string, snapshot: Record)
    | Stealing(fingerprint: string, recordId: Id)
    | Stolen(fingerprint: string, recordId: Id, until: Instant)
    | Running(fingerprint: string, recordId: Id, operationId: Id, until: Instant)

  /** How a handler ends. A result may be absent; it is stored as null. */
  datatype HandlerEnd =
    | Succeeds(status: int, result: Option<string>)
    | OutcomeUnknown
    | FailsForGood(status: int, error: string)
    | FailsTransiently

  function StoredBody(result: Option<string>): string {
    if result.Some? then result.value else "null"
  }

  datatype Answer =
    | KeyReused
    | InProgress
    | Replayed(recordId: Id, status: int, body: string)
    | Executed(recordId: Id, end: HandlerEnd)

  /** A handler run, with what its request carried. */
  datatype Execution = Execution(recordId: Id, operationId: Id, fingerprint: string, reconcileBeforeExecute: bool)

  datatype Reply = Reply(request: nat, fingerprint: string, answer: Answer)

  datatype State = State(
    clock: Instant,
    row: Option<Record>,
    requests: map<nat, RequestPhase>,
    executions: seq<Execution>,
    replies: seq<Reply>,
    mintedIds: set<Id>)

  /** `now` is the caller's own reading of the clock, taken at or before the step. */
  datatype Event =
    | Arrive(request: nat, fingerprint: string)
    | TryInsert(request: nat, now: Instant, recordId: Id, operationId: Id)
    | Find(request: nat)
    | Decide(request: nat, now: Instant)
    | Steal(request: nat, now: Instant)
    | ReadStolen(request: nat)
    | EndHandler(request: nat, end: HandlerEnd, now: Instant)
    | Crash(request: nat)
    | Tick(seconds: nat)
    | Sweep

  function Put(s: State, p: nat, phase: RequestPhase): State {
    s.(requests := s.requests[p := phase])
  }

  function Answered(s: State, p: nat, fingerprint: string, answer: Answer): State {
    s.(requests := s.requests - {p}, replies := s.replies + [Reply(p, fingerprint, answer)])
  }

  function Execute(s: State, p: nat, fp: string, r: Record, until: Instant, reconcile: bool): State {
    s.(requests := s.requests[p := Running(fp, r.id, r.operationId, until)],
       executions := s.executions + [Execution(r.id, r.operationId, fp, reconcile)])
  }

  /** `resolveConflict` up to the steal, on the record as it was read. */
  function ResolveConflict(s: State, p: nat, fp: string, record: Record, now: Instant): State {
    if record.fingerprint != fp then Answered(s, p, fp, KeyReused)
    else if Terminal(record) then Answered(s, p, fp, Replayed(record.id, record.status, record.body))
    else if record.lease.Some? && record.lease.value > now then Answered(s, p, fp, InProgress)
    else Put(s, p, Stealing(fp, record.id))
  }

  /** `execute` and `onFailure` after the handler has ended. */
  function RowAfter(row: Option<Record>, id: Id, end: HandlerEnd, now: Instant): Option<Record> {
    match end
    case Succeeds(status, result) => Complete(row, id, Completed, status, StoredBody(result))
    case FailsForGood(status, error) => Complete(row, id, FailedForGood, status, error)
    case OutcomeUnknown => RenewLease(row, id, now)
    case FailsTransiently => Release(row, id)
  }

  /** One event; an event that is not enabled changes nothing. */
  function Next(s: State, event: Event): State {
    match event
    case Arrive(p, fp) => if p in s.requests then s else Put(s, p, Claiming(fp))
    case TryInsert(p, now, id, op) =>
      if p in s.requests && s.requests[p].Claiming? then
        var fp := s.requests[p].fingerprint;
        var s' := s.(row := Insert(s.row, id, op, fp, now), mintedIds := s.mintedIds + {id});
        if s.row.None? then Execute(s', p, fp, s'.row.value, now + LEASE_SECONDS, false)
        else Put(s', p, Conflicted(fp))
      else s
    case Find(p) =>
      if p in s.requests && s.requests[p].Conflicted? then
        var fp := s.requests[p].fingerprint;
        if s.row.None? then Put(s, p, Claiming(fp)) else Put(s, p, Saw(fp, s.row.value))
      else s
    case Decide(p, now) =>
      if p in s.requests && s.requests[p].Saw? then
        ResolveConflict(s, p, s.requests[p].fingerprint, s.requests[p].snapshot, now)
      else s
    case Steal(p, now) =>
      if p in s.requests && s.requests[p].Stealing? then
        var fp, id := s.requests[p].fingerprint, s.requests[p].recordId;
        if CanSteal(s.row, id, now)
        then Put(s.(row := SetLease(s.row, now)), p, Stolen(fp, id, now + LEASE_SECONDS))
        else Answered(s, p, fp, InProgress)
      else s
    case ReadStolen(p) =>
      if p in s.requests && s.requests[p].Stolen? then
        var fp, id := s.requests[p].fingerprint, s.requests[p].recordId;
        if Is(s.row, id) then Execute(s, p, fp, s.row.value, s.requests[p].until, true)
        else Answered(s, p, fp, InProgress)
      else s
    case EndHandler(p, end, now) =>
      if p in s.requests && s.requests[p].Running? then
        var fp, id := s.requests[p].fingerprint, s.requests[p].recordId;
        Answered(s.(row := RowAfter(s.row, id, end, now)), p, fp, Executed(id, end))
      else s
    case Crash(p) => s.(requests := s.requests - {p})
    case Tick(d) => s.(clock := s.clock + d)
    case Sweep => s.(row := None)
  }

  /** Clocks are read at or before their use, and `newId` never repeats an id. */
  predicate Legal(s: State, event: Event) {
    match event
    case TryInsert(_, now, id, _) => now <= s.clock && id !in s.mintedIds
    case Decide(_, now) => now <= s.clock
    case Steal(_, now) => now <= s.clock
    case EndHandler(_, _, now) => now <= s.clock
    case _ => true
  }

  const INITIAL := State(0, None, map[], [], [], {})

  function StateAfter(s: State, events: seq<Event>, n: nat): State
    requires n <= |events|
  {
    if n == 0 then s else Next(StateAfter(s, events, n - 1), events[n - 1])
  }

  ghost predicate LegalRun(s: State, events: seq<Event>) {
    forall i | 0 <= i < |events| :: Legal(StateAfter(s, events, i), events[i])
  }

  /** The request holds the lease: it is running the handler or about to. */
  predicate Holds(phase: RequestPhase) {
    phase.Stolen? || phase.Running?
  }
}
