/**
 apps/api/src/events/keyed-mutex.ts: work serialised per key by chaining promises.

 `runExclusive` runs without interruption up to its await; after that the runtime decides when a task
 starts, ends, when its tail settles and when the caller resumes. Every interleaving is a run here.
 */
module KeyedMutex {
  import opened LedgerTypes

  // ----- Promises -----

  datatype Settlement = Fulfilled | Rejected

  /** What a handler given to `then` does: run the task, or answer undefined. */
  datatype Handler = RunTask | AnswerUndefined

  /** The handler that `promise.then(onFulfilled, onRejected)` calls; a missing one lets the outcome through. */
  function Then(outcome: Settlement, onFulfilled: Option<Handler>, onRejected: Option<Handler>): Option<Handler> {
    if outcome.Fulfilled? then onFulfilled else onRejected
  }

  /** How the promise that `then` returns settles when no task is involved. */
  function Outcome(outcome: Settlement, onFulfilled: Option<Handler>, onRejected: Option<Handler>): Settlement {
    match Then(outcome, onFulfilled, onRejected)
    case Some(AnswerUndefined) => Fulfilled
    case _ => outcome
  }

  // ----- Calls -----

  datatype TaskPhase = Waiting | Running | Done(result: Settlement)

  /** A call, known by its place in the order of calls; `previous` is the call whose tail it found, if any. */
  datatype Call = Call(key: string, previous: Option<nat>, phase: TaskPhase, tail: Option<Settlement>, returned: bool)

  datatype State = State(calls: seq<Call>, tails: map<string, nat>, starts: seq<nat>)

  const INITIAL := State([], map[], [])

  datatype Event =
    | Enter(key: string)
    | Start(call: nat)
    | Finish(call: nat, result: Settlement)
    | SettleTail(call: nat)
    | Return(call: nat)

  /** The outcome of what call `c` waits for, once settled; with no tail to wait for, `Promise.resolve()`. */
  function Awaited(s: State, c: nat): Option<Settlement>
    requires c < |s.calls|
  {
    match s.calls[c].previous
    case None => Some(Fulfilled)
    case Some(p) => if p < |s.calls| then s.calls[p].tail else None
  }

  /** `previous.then(task, task)`: ready once the previous tail has settled and its handler is the task. */
  predicate Ready(s: State, c: nat)
    requires c < |s.calls|
  {
    Awaited(s, c).Some? && Then(Awaited(s, c).value, Some(RunTask), Some(RunTask)) == Some(RunTask)
  }

  /** `result.then(() => undefined, () => undefined)`. */
  function TailOf(result: Settlement): Settlement {
    Outcome(result, Some(AnswerUndefined), Some(AnswerUndefined))
  }

  predicate Enabled(s: State, event: Event) {
    match event
    case Enter(_) => true
    case Start(c) => c < |s.calls| && s.calls[c].phase.Waiting? && Ready(s, c)
    case Finish(c, _) => c < |s.calls| && s.calls[c].phase.Running?
    case SettleTail(c) => c < |s.calls| && s.calls[c].phase.Done? && s.calls[c].tail.None?
    case Return(c) => c < |s.calls| && s.calls[c].phase.Done? && !s.calls[c].returned
  }

  function Next(s: State, event: Event): State {
    if !Enabled(s, event) then s
    else
      match event
      case Enter(key) =>
        var previous := if key in s.tails then Some(s.tails[key]) else None;
        s.(calls := s.calls + [Call(key, previous, Waiting, None, false)], tails := s.tails[key := |s.calls|])
      case Start(c) =>
        s.(calls := s.calls[c := s.calls[c].(phase := Running)], starts := s.starts + [c])
      case Finish(c, result) => s.(calls := s.calls[c := s.calls[c].(phase := Done(result))])
      case SettleTail(c) => s.(calls := s.calls[c := s.calls[c].(tail := Some(TailOf(s.calls[c].phase.result)))])
      case Return(c) =>
        var key := s.calls[c].key;
        s.(calls := s.calls[c := s.calls[c].(returned := true)],
           tails := if key in s.tails && s.tails[key] == c then s.tails - {key} else s.tails)
  }

  function StateAfter(events: seq<Event>, n: nat): State
    requires n <= |events|
  {
    if n == 0 then INITIAL else Next(StateAfter(events, n - 1), events[n - 1])
  }

  // ----- The invariant -----

  predicate Started(c: Call) {
    !c.phase.Waiting?
  }

  /** All calls on `key` among the first `n` are done. */
  ghost predicate AllDone(s: State, key: string, n: int) {
    forall d | 0 <= d < n && d < |s.calls| && s.calls[d].key == key :: s.calls[d].phase.Done?
  }

  /** `p` is the latest call on `key` before `n`. */
  ghost predicate LatestBefore(s: State, p: nat, key: string, n: int) {
    && p < n && p < |s.calls| && s.calls[p].key == key
    && forall d | p < d < n && d < |s.calls| :: s.calls[d].key != key
  }

  /** A call waits for the one before it on its key; one that found no tail has nothing to wait for. */
  ghost predicate Chained(s: State) {
    forall c | 0 <= c < |s.calls| ::
      match s.calls[c].previous
      case Some(p) => LatestBefore(s, p, s.calls[c].key, c)
      case None => AllDone(s, s.calls[c].key, c)
  }

  ghost predicate Serial(s: State) {
    forall c | 0 <= c < |s.calls| && Started(s.calls[c]) :: AllDone(s, s.calls[c].key, c)
  }

  /** Only a task that is over has a settled tail or lets its caller go, and no tail rejects. */
  ghost predicate Flags(s: State) {
    forall c | 0 <= c < |s.calls| ::
      && (s.calls[c].tail.Some? || s.calls[c].returned ==> s.calls[c].phase.Done?)
      && s.calls[c].tail != Some(Rejected)
  }

  /** The map holds, for each key, its latest call, for as long as that call has not returned. */
  ghost predicate TailsOk(s: State) {
    && (forall k | k in s.tails ::
          s.tails[k] < |s.calls| && LatestBefore(s, s.tails[k], k, |s.calls|) && !s.calls[s.tails[k]].returned)
    && (forall c | 0 <= c < |s.calls| && s.calls[c].key !in s.tails :: s.calls[c].phase.Done?)
  }

  ghost predicate StartsOk(s: State) {
    && (forall i | 0 <= i < |s.starts| :: s.starts[i] < |s.calls| && Started(s.calls[s.starts[i]]))
    && (forall c | 0 <= c < |s.calls| && Started(s.calls[c]) :: c in s.starts)
    && (forall i, j | 0 <= i < j < |s.starts| && s.calls[s.starts[i]].key == s.calls[s.starts[j]].key ::
          s.starts[i] < s.starts[j])
  }

  ghost predicate Inv(s: State) {
    Chained(s) && Serial(s) && Flags(s) && TailsOk(s) && StartsOk(s)
  }

  /** Calls only move forward: same key, same previous, and what is done stays done. */
  ghost predicate Onward(s: State, s': State) {
    && |s.calls| <= |s'.calls|
    && forall c | 0 <= c < |s.calls| ::
         && s'.calls[c].key == s.calls[c].key
         && s'.calls[c].previous == s.calls[c].previous
         && (s.calls[c].phase.Done? ==> s'.calls[c].phase.Done?)
  }

  lemma AllDoneKept(s: State, s': State, key: string, n: int)
    requires Onward(s, s') && n <= |s.calls| && AllDone(s, key, n)
    ensures AllDone(s', key, n)
  {
  }

  lemma LatestKept(s: State, s': State, p: nat, key: string, n: int)
    requires Onward(s, s') && n <= |s.calls| && LatestBefore(s, p, key, n)
    ensures LatestBefore(s', p, key, n)
  {
  }

  lemma ChainedKept(s: State, s': State)
    requires Onward(s, s') && Chained(s) && |s'.calls| == |s.calls|
    ensures Chained(s')
  {
    hide AllDone, LatestBefore;
    forall c | 0 <= c < |s'.calls|
      ensures match s'.calls[c].previous
              case Some(p) => LatestBefore(s', p, s'.calls[c].key, c)
              case None => AllDone(s', s'.calls[c].key, c)
    {
      match s.calls[c].previous
      case Some(p) => LatestKept(s, s', p, s.calls[c].key, c);
      case None => AllDoneKept(s, s', s.calls[c].key, c);
    }
  }

  lemma SerialKept(s: State, s': State)
    requires Onward(s, s') && Serial(s) && |s'.calls| == |s.calls|
    requires forall c | 0 <= c < |s.calls| && Started(s'.calls[c]) && !Started(s.calls[c]) :: AllDone(s, s.calls[c].key, c)
    ensures Serial(s')
  {
    hide AllDone, Started;
    forall c | 0 <= c < |s'.calls| && Started(s'.calls[c]) ensures AllDone(s', s'.calls[c].key, c) {
      AllDoneKept(s, s', s.calls[c].key, c);
    }
  }

  /** The map is left alone, and its calls have not returned. */
  lemma TailsKept(s: State, s': State)
    requires Onward(s, s') && TailsOk(s) && |s'.calls| == |s.calls| && s'.tails == s.tails
    requires forall k | k in s.tails && s.tails[k] < |s.calls| :: s'.calls[s.tails[k]].returned == s.calls[s.tails[k]].returned
    ensures TailsOk(s')
  {
    hide LatestBefore;
    forall k | k in s'.tails
      ensures s'.tails[k] < |s'.calls| && LatestBefore(s', s'.tails[k], k, |s'.calls|) && !s'.calls[s'.tails[k]].returned
    {
      assert LatestBefore(s, s.tails[k], k, |s.calls|);
      LatestKept(s, s', s.tails[k], k, |s.calls|);
    }
  }

  lemma EnterChained(s: State, key: string)
    requires Inv(s)
    ensures Chained(Next(s, Enter(key))) && Serial(Next(s, Enter(key)))
  {
    hide StartsOk, AllDone, LatestBefore, Flags;
    var s' := Next(s, Enter(key));
    assert forall c | 0 <= c < |s.calls| :: s'.calls[c] == s.calls[c];
    forall c | 0 <= c < |s'.calls|
      ensures match s'.calls[c].previous
              case Some(p) => LatestBefore(s', p, s'.calls[c].key, c)
              case None => AllDone(s', s'.calls[c].key, c)
      ensures Started(s'.calls[c]) ==> AllDone(s', s'.calls[c].key, c)
    {
      if c < |s.calls| {
        if Started(s.calls[c]) {
          AllDoneKept(s, s', s.calls[c].key, c);
        }
        match s.calls[c].previous
        case Some(p) => LatestKept(s, s', p, s.calls[c].key, c);
        case None => AllDoneKept(s, s', s.calls[c].key, c);
      } else if key in s.tails {
        LatestKept(s, s', s.tails[key], key, |s.calls|);
      } else {
        NoTailNoWork(s, key);
        AllDoneKept(s, s', key, |s.calls|);
      }
    }
  }

  lemma NoTailNoWork(s: State, key: string)
    requires TailsOk(s) && key !in s.tails
    ensures AllDone(s, key, |s.calls|)
  {
    hide LatestBefore;
  }

  lemma EnterKeepsInv(s: State, key: string)
    requires Inv(s)
    ensures Inv(Next(s, Enter(key)))
  {
    hide Serial, Chained, AllDone;
    EnterChained(s, key);
    var s' := Next(s, Enter(key));
    assert forall c | 0 <= c < |s.calls| :: s'.calls[c] == s.calls[c];
    assert StartsOk(s');
    assert Flags(s');
    EnterTails(s, key);
  }

  lemma EnterTails(s: State, key: string)
    requires TailsOk(s)
    ensures TailsOk(Next(s, Enter(key)))
  {
    var s' := Next(s, Enter(key));
    assert forall c | 0 <= c < |s.calls| :: s'.calls[c] == s.calls[c];
  }

  /** A task starts only when everything before it on its key is over. */
  lemma ReadyMeansClear(s: State, c: nat)
    requires Inv(s) && c < |s.calls| && Ready(s, c)
    ensures AllDone(s, s.calls[c].key, c)
  {
    hide TailsOk, StartsOk;
    match s.calls[c].previous
    case None =>
    case Some(p) =>
      assert s.calls[p].phase.Done?;
      assert AllDone(s, s.calls[p].key, p);
  }

  lemma StartsBefore(s: State, c: nat)
    requires Serial(s) && StartsOk(s) && c < |s.calls| && s.calls[c].phase.Waiting?
    ensures forall i | 0 <= i < |s.starts| && s.calls[s.starts[i]].key == s.calls[c].key :: s.starts[i] < c
  {
    forall i | 0 <= i < |s.starts| && s.calls[s.starts[i]].key == s.calls[c].key ensures s.starts[i] < c {
      assert AllDone(s, s.calls[c].key, s.starts[i]);
      assert s.starts[i] != c;
    }
  }

  lemma StartKeepsStarts(s: State, c: nat)
    requires Serial(s) && StartsOk(s) && Enabled(s, Start(c))
    ensures StartsOk(Next(s, Start(c)))
  {
    hide Serial, Ready;
    StartsBefore(s, c);
    var s' := Next(s, Start(c));
    assert s'.starts[|s.starts|] == c;
    assert forall d | 0 <= d < |s.calls| && d != c :: s'.calls[d] == s.calls[d];
  }

  lemma StartKeepsInv(s: State, c: nat)
    requires Inv(s) && Enabled(s, Start(c))
    ensures Inv(Next(s, Start(c)))
  {
    hide AllDone, Chained, LatestBefore, StartsOk;
    ReadyMeansClear(s, c);
    var s' := Next(s, Start(c));
    assert Onward(s, s');
    ChainedKept(s, s');
    SerialKept(s, s');
    TailsKept(s, s');
    StartKeepsStarts(s, c);
  }

  lemma ReturnKeepsTails(s: State, c: nat)
    requires Inv(s) && Enabled(s, Return(c))
    ensures TailsOk(Next(s, Return(c)))
  {
    hide Chained, StartsOk, AllDone, LatestBefore;
    var s', key := Next(s, Return(c)), s.calls[c].key;
    forall k | k in s'.tails
      ensures s'.tails[k] < |s'.calls| && LatestBefore(s', s'.tails[k], k, |s'.calls|) && !s'.calls[s'.tails[k]].returned
    {
      LatestKept(s, s', s.tails[k], k, |s.calls|);
    }
    forall d | 0 <= d < |s'.calls| && s'.calls[d].key !in s'.tails ensures s'.calls[d].phase.Done? {
      if s.calls[d].key in s.tails {
        LatestIsLast(s, c, key, d);
      }
    }
  }

  lemma LatestIsLast(s: State, c: nat, key: string, d: nat)
    requires Serial(s) && LatestBefore(s, c, key, |s.calls|) && s.calls[c].phase.Done? && d < |s.calls| && s.calls[d].key == key
    ensures s.calls[d].phase.Done?
  {
    assert AllDone(s, key, c);
  }

  lemma OtherKeepsStarts(s: State, event: Event)
    requires StartsOk(s) && Enabled(s, event) && !event.Enter? && !event.Start?
    ensures StartsOk(Next(s, event))
  {
    hide TailOf;
    var s' := Next(s, event);
    assert forall c | 0 <= c < |s.calls| :: s'.calls[c].key == s.calls[c].key && (Started(s'.calls[c]) <==> Started(s.calls[c]));
  }

  lemma OtherKeepsFlags(s: State, event: Event)
    requires Flags(s) && Enabled(s, event) && !event.Enter? && !event.Start?
    ensures Flags(Next(s, event))
  {
  }

  lemma OtherKeepsInv(s: State, event: Event)
    requires Inv(s) && Enabled(s, event) && !event.Enter? && !event.Start?
    ensures Inv(Next(s, event))
  {
    hide AllDone, Chained, LatestBefore, TailsOk, StartsOk, Flags;
    var s' := Next(s, event);
    assert Onward(s, s');
    ChainedKept(s, s');
    SerialKept(s, s');
    OtherKeepsStarts(s, event);
    OtherKeepsFlags(s, event);
    if event.Return? {
      ReturnKeepsTails(s, event.call);
    } else {
      TailsKept(s, s');
    }
  }

  lemma NextKeepsInv(s: State, event: Event)
    requires Inv(s)
    ensures Inv(Next(s, event))
  {
    hide Inv;
    if Enabled(s, event) {
      match event
      case Enter(key) => EnterKeepsInv(s, key);
      case Start(c) => StartKeepsInv(s, c);
      case _ => OtherKeepsInv(s, event);
    }
  }

  lemma {:induction false} RunKeepsInv(events: seq<Event>, n: nat)
    requires n <= |events|
    ensures Inv(StateAfter(events, n))
  {
    hide Next;
    if n > 0 {
      RunKeepsInv(events, n - 1);
      NextKeepsInv(StateAfter(events, n - 1), events[n - 1]);
    }
  }

  // ----- The guarantees -----

  /** In every interleaving, at most one task per key is running. */
  lemma OneTaskPerKey(events: seq<Event>, c: nat, d: nat)
    requires var s := StateAfter(events, |events|);
             c < |s.calls| && d < |s.calls| && s.calls[c].key == s.calls[d].key
    ensures var s := StateAfter(events, |events|);
            s.calls[c].phase.Running? && s.calls[d].phase.Running? ==> c == d
  {
    hide StateAfter, Chained, TailsOk, StartsOk, Flags;
    RunKeepsInv(events, |events|);
    var s := StateAfter(events, |events|);
    if s.calls[c].phase.Running? && s.calls[d].phase.Running? {
      assert AllDone(s, s.calls[c].key, c) && AllDone(s, s.calls[d].key, d);
    }
  }

  /** Tasks of one key start in the order of the calls, and none is passed over. */
  lemma StartsInCallOrder(events: seq<Event>)
    ensures var s := StateAfter(events, |events|);
            && (forall i | 0 <= i < |s.starts| :: s.starts[i] < |s.calls|)
            && (forall i, j | 0 <= i < j < |s.starts| && s.calls[s.starts[i]].key == s.calls[s.starts[j]].key ::
                  s.starts[i] < s.starts[j])
            && (forall j, c | 0 <= j < |s.starts| && 0 <= c < s.starts[j] && s.calls[c].key == s.calls[s.starts[j]].key ::
                  c in s.starts)
  {
    hide StateAfter, Chained, TailsOk, Flags;
    RunKeepsInv(events, |events|);
    var s := StateAfter(events, |events|);
    forall j, c | 0 <= j < |s.starts| && 0 <= c < s.starts[j] && s.calls[c].key == s.calls[s.starts[j]].key
      ensures c in s.starts
    {
      assert AllDone(s, s.calls[c].key, s.starts[j]);
    }
  }

  /** When every call has returned, no key is left in the map. */
  lemma EmptyWhenAllReturned(events: seq<Event>)
    ensures var s := StateAfter(events, |events|);
            (forall c | 0 <= c < |s.calls| :: s.calls[c].returned) ==> s.tails == map[]
  {
    hide StateAfter, Chained, Serial, StartsOk, Flags;
    RunKeepsInv(events, |events|);
  }

  predicate OnKey(s: State, event: Event, key: string) {
    !event.Enter? && event.call < |s.calls| && s.calls[event.call].key == key
  }

  ghost predicate Busy(s: State, key: string) {
    exists c :: 0 <= c < |s.calls| && s.calls[c].key == key && s.calls[c].phase.Running?
  }

  /**
   Nothing is ever stuck: while a call on a key has not returned, either a task of that same key is
   running or some step of that key can be taken, whatever happened to earlier tasks or on other keys.
   */
  lemma {:induction false} NeverStuck(s: State, c: nat) returns (event: Event)
    requires Inv(s) && c < |s.calls| && !s.calls[c].returned && !Busy(s, s.calls[c].key)
    ensures OnKey(s, event, s.calls[c].key) && Enabled(s, event)
  {
    hide Serial, TailsOk, StartsOk, AllDone;
    if s.calls[c].phase.Done? {
      event := Return(c);
    } else if Ready(s, c) {
      event := Start(c);
    } else {
      var p := s.calls[c].previous.value;
      assert LatestBefore(s, p, s.calls[c].key, c);
      if s.calls[p].phase.Done? {
        event := SettleTail(p);
      } else {
        event := NeverStuck(s, p);
      }
    }
  }

  /** However tasks end, no tail ever rejects, so none is left unhandled and the map holds none that does. */
  lemma TailsNeverReject(events: seq<Event>)
    ensures var s := StateAfter(events, |events|);
            && (forall c | 0 <= c < |s.calls| :: s.calls[c].tail != Some(Rejected))
            && (forall k | k in s.tails :: s.tails[k] < |s.calls|)
  {
    hide StateAfter, Chained, Serial, StartsOk;
    RunKeepsInv(events, |events|);
  }

  // ----- Rejections -----

  /** A state with every task read as having succeeded. */
  function Blind(s: State): State {
    s.(calls := seq(|s.calls|, c requires 0 <= c < |s.calls| =>
                      if s.calls[c].phase.Done? then s.calls[c].(phase := Done(Fulfilled)) else s.calls[c]))
  }

  function Lenient(event: Event): Event {
    match event
    case Finish(c, _) => Finish(c, Fulfilled)
    case _ => event
  }

  /**
   A rejected task affects the others exactly as a successful one does: its tail settles the same way, and
   whatever comes next is enabled, or not, alike.
   */
  lemma RejectionIsInvisible(s: State, event: Event)
    ensures Enabled(Blind(s), Lenient(event)) <==> Enabled(s, event)
    ensures Blind(Next(s, event)) == Next(Blind(s), Lenient(event))
  {
    var a, b := Blind(Next(s, event)), Next(Blind(s), Lenient(event));
    assert |a.calls| == |b.calls|;
    assert a.calls == b.calls;
  }

  /** Each of the two handlers is needed: without one, a rejection would pass a task over or reach the map. */
  lemma BothHandlersMatter()
    ensures Then(Rejected, Some(RunTask), None) == None
    ensures Outcome(Rejected, Some(AnswerUndefined), None) == Rejected
    ensures forall r :: Then(r, Some(RunTask), Some(RunTask)) == Some(RunTask) && TailOf(r) == Fulfilled
  {
  }
}
