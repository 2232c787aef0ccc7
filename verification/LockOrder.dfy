/**
 The order in which a transaction takes its account locks, and why taking them in that order cannot
 deadlock: packages/ledger/src/engine.ts (lockOrder) and packages/db/src/ledger-store.ts (lockAccounts).
 */
module LockOrder {
  import opened LedgerTypes

  predicate Increasing(ids: seq<Id>) {
    forall i, j | 0 <= i < j < |ids| :: ids[i] < ids[j]
  }

  function InsertUnique(ids: seq<Id>, x: Id): (r: seq<Id>)
    requires Increasing(ids)
    ensures Increasing(r)
    ensures forall y :: y in r <==> y in ids || y == x
  {
    if ids == [] then [x]
    else if x < ids[0] then [x] + ids
    else if x == ids[0] then ids
    else
      var rest := InsertUnique(ids[1..], x);
      assert ids == [ids[0]] + ids[1..];
      assert forall k | 0 <= k < |rest| :: rest[k] in rest && ids[0] < rest[k];
      [ids[0]] + rest
  }

  /** The distinct account ids of the lines, in increasing order. */
  function LockOrder(lines: seq<Line>): (r: seq<Id>)
    ensures Increasing(r)
    ensures forall a :: a in r <==> exists i :: 0 <= i < |lines| && lines[i].accountId == a
  {
    if lines == [] then []
    else
      var rest := LockOrder(lines[1..]);
      var r := InsertUnique(rest, lines[0].accountId);
      assert forall a | a in rest :: exists i :: 0 <= i < |lines| && lines[i].accountId == a by {
        forall a | a in rest ensures exists i :: 0 <= i < |lines| && lines[i].accountId == a {
          var i :| 0 <= i < |lines[1..]| && lines[1..][i].accountId == a;
          assert lines[i + 1].accountId == a;
        }
      }
      assert forall i | 0 < i < |lines| :: lines[i] == lines[1..][i - 1];
      r
  }

  // ----- Concurrent transactions taking their locks one by one -----

  /** One transaction: the locks it will take, in order, and how many it holds. It waits for the next. */
  datatype Taker = Taker(order: seq<Id>, taken: nat, finished: bool)

  datatype Locks = Locks(takers: seq<Taker>)

  predicate Holds(t: Taker, x: Id) {
    !t.finished && exists k :: 0 <= k < t.taken && k < |t.order| && t.order[k] == x
  }

  predicate Free(s: Locks, x: Id) {
    forall i | 0 <= i < |s.takers| :: !Holds(s.takers[i], x)
  }

  datatype LockStep = Begin(lines: seq<Line>) | Take(who: nat) | Release(who: nat)

  /** A row lock is granted when nobody holds it, and all are dropped together at the end. */
  predicate Enabled(s: Locks, step: LockStep) {
    match step
    case Begin(_) => true
    case Take(who) =>
      && who < |s.takers| && !s.takers[who].finished && s.takers[who].taken < |s.takers[who].order|
      && Free(s, s.takers[who].order[s.takers[who].taken])
    case Release(who) =>
      who < |s.takers| && !s.takers[who].finished && s.takers[who].taken == |s.takers[who].order|
  }

  function NextLocks(s: Locks, step: LockStep): Locks
    requires Enabled(s, step)
  {
    match step
    case Begin(lines) => Locks(s.takers + [Taker(LockOrder(lines), 0, false)])
    case Take(who) => Locks(s.takers[who := s.takers[who].(taken := s.takers[who].taken + 1)])
    case Release(who) => Locks(s.takers[who := s.takers[who].(finished := true)])
  }

  ghost predicate LocksInv(s: Locks) {
    && (forall i | 0 <= i < |s.takers| :: Increasing(s.takers[i].order) && s.takers[i].taken <= |s.takers[i].order|)
    && (forall i, j, x | 0 <= i < j < |s.takers| :: !(Holds(s.takers[i], x) && Holds(s.takers[j], x)))
  }

  ghost predicate LockRun(run: seq<Locks>, steps: seq<LockStep>) {
    && |run| == |steps| + 1
    && run[0] == Locks([])
    && forall k | 0 <= k < |steps| :: Enabled(run[k], steps[k]) && run[k + 1] == NextLocks(run[k], steps[k])
  }

  lemma StepKeepsLocks(s: Locks, step: LockStep)
    requires LocksInv(s) && Enabled(s, step)
    ensures LocksInv(NextLocks(s, step))
  {
    var s' := NextLocks(s, step);
    match step
    case Begin(_) =>
      assert forall i, x | 0 <= i < |s'.takers| && Holds(s'.takers[i], x) :: i < |s.takers| && Holds(s.takers[i], x);
    case Take(who) =>
      var x := s.takers[who].order[s.takers[who].taken];
      forall i, y | 0 <= i < |s'.takers| && Holds(s'.takers[i], y)
        ensures Holds(s.takers[i], y) || (i == who && y == x)
      {
        if i == who && y != x {
          var t := s.takers[who];
          var k :| 0 <= k < s'.takers[i].taken && k < |t.order| && t.order[k] == y;
          assert k < t.taken;
        }
      }
    case Release(who) =>
      assert forall i, x | 0 <= i < |s'.takers| && Holds(s'.takers[i], x) :: Holds(s.takers[i], x);
  }

  /** Taker `i` waits for a lock that taker `j` holds. */
  predicate WaitsFor(s: Locks, i: nat, j: nat) {
    && i < |s.takers| && j < |s.takers|
    && !s.takers[i].finished && s.takers[i].taken < |s.takers[i].order|
    && Holds(s.takers[j], s.takers[i].order[s.takers[i].taken])
  }

  /** Along a wait, the awaited lock strictly grows, whatever `j` itself waits for. */
  lemma WaitClimbs(s: Locks, i: nat, j: nat)
    requires LocksInv(s) && WaitsFor(s, i, j)
    requires s.takers[j].taken < |s.takers[j].order|
    ensures s.takers[i].order[s.takers[i].taken] < s.takers[j].order[s.takers[j].taken]
  {
  }

  ghost predicate WaitCycle(s: Locks, path: seq<nat>) {
    && |path| >= 1
    && (forall k | 0 <= k < |path| - 1 :: WaitsFor(s, path[k], path[k + 1]))
    && WaitsFor(s, path[|path| - 1], path[0])
  }

  lemma {:induction false} PathClimbs(s: Locks, path: seq<nat>, k: nat)
    requires LocksInv(s) && WaitCycle(s, path) && k < |path|
    ensures forall i | 0 <= i < |path| :: path[i] < |s.takers| && s.takers[path[i]].taken < |s.takers[path[i]].order|
    ensures s.takers[path[0]].order[s.takers[path[0]].taken] <= s.takers[path[k]].order[s.takers[path[k]].taken]
  {
    forall i | 0 <= i < |path| ensures path[i] < |s.takers| && s.takers[path[i]].taken < |s.takers[path[i]].order| {
      if i < |path| - 1 {
        assert WaitsFor(s, path[i], path[i + 1]);
      }
    }
    if k > 0 {
      PathClimbs(s, path, k - 1);
      assert WaitsFor(s, path[k - 1], path[k - 1 + 1]);
      WaitClimbs(s, path[k - 1], path[k]);
    }
  }

  lemma {:induction false} RunKeepsLocks(run: seq<Locks>, steps: seq<LockStep>, k: nat)
    requires LockRun(run, steps) && k < |run|
    ensures LocksInv(run[k])
  {
    if k > 0 {
      RunKeepsLocks(run, steps, k - 1);
      assert run[k - 1 + 1] == NextLocks(run[k - 1], steps[k - 1]);
      StepKeepsLocks(run[k - 1], steps[k - 1]);
    }
  }

  /** No reachable state has a cycle of transactions waiting for one another. */
  lemma NoDeadlock(run: seq<Locks>, steps: seq<LockStep>, k: nat, path: seq<nat>)
    requires LockRun(run, steps) && k < |run|
    ensures !WaitCycle(run[k], path)
  {
    RunKeepsLocks(run, steps, k);
    if WaitCycle(run[k], path) {
      PathClimbs(run[k], path, |path| - 1);
      WaitClimbs(run[k], path[|path| - 1], path[0]);
      assert false;
    }
  }

  /** How far below the ceiling the awaited lock is; a taker that waits for nothing is at the bottom. */
  ghost function Headroom(s: Locks, i: nat): (h: int)
    requires i < |s.takers|
    ensures h >= 0
    ensures s.takers[i].taken < |s.takers[i].order| ==> h == Ceiling(s, 0) - s.takers[i].order[s.takers[i].taken] > 0
  {
    var t := s.takers[i];
    CeilingBounds(s, 0);
    if t.taken < |t.order| then
      assert t.order[t.taken] in t.order;
      Ceiling(s, 0) - t.order[t.taken]
    else 0
  }

  /** From any unfinished transaction, following the waits reaches one that can take its next step. */
  lemma SomeoneProceeds(s: Locks, i: nat) returns (step: LockStep)
    requires LocksInv(s) && i < |s.takers| && !s.takers[i].finished
    ensures (step.Take? || step.Release?) && Enabled(s, step)
    decreases Headroom(s, i)
  {
    var t := s.takers[i];
    if t.taken == |t.order| {
      step := Release(i);
    } else if Free(s, t.order[t.taken]) {
      step := Take(i);
    } else {
      var j :| 0 <= j < |s.takers| && Holds(s.takers[j], t.order[t.taken]);
      if s.takers[j].taken < |s.takers[j].order| {
        WaitClimbs(s, i, j);
      } else {
        assert Headroom(s, j) == 0;
      }
      step := SomeoneProceeds(s, j);
    }
  }

  /** In every reachable state with an unfinished transaction, some transaction can take a step. */
  lemma AlwaysProceeds(run: seq<Locks>, steps: seq<LockStep>, k: nat, i: nat) returns (step: LockStep)
    requires LockRun(run, steps) && k < |run| && i < |run[k].takers| && !run[k].takers[i].finished
    ensures (step.Take? || step.Release?) && Enabled(run[k], step)
  {
    RunKeepsLocks(run, steps, k);
    step := SomeoneProceeds(run[k], i);
  }

  function MaxId(ids: seq<Id>): (m: Id)
    ensures forall x | x in ids :: x <= m
  {
    if ids == [] then 0
    else
      var m := MaxId(ids[1..]);
      assert ids == [ids[0]] + ids[1..];
      if ids[0] > m then ids[0] else m
  }

  /** More than any id that a taker from `from` on will ever want. */
  function Ceiling(s: Locks, from: nat): nat
    requires from <= |s.takers|
    decreases |s.takers| - from
  {
    if from == |s.takers| then 1
    else
      var rest, m := Ceiling(s, from + 1), MaxId(s.takers[from].order) + 1;
      if m > rest then m else rest
  }

  lemma {:induction false} CeilingBounds(s: Locks, from: nat)
    requires from <= |s.takers|
    ensures forall i, x | from <= i < |s.takers| && x in s.takers[i].order :: x < Ceiling(s, from)
    decreases |s.takers| - from
  {
    if from < |s.takers| {
      CeilingBounds(s, from + 1);
    }
  }
}
