/** Authorisations racing for one balance: exactly as many go through as the balance covers. */
module Race {
  import opened LedgerTypes
  import opened LedgerEngine
  import opened LedgerInvariant
  import opened LedgerPreservation
  import opened LedgerSafety
  import opened LedgerRetry
  import opened LedgerTwoPhase
  import opened ShadowLedger
  import opened NoDoubleSpend

  /** Calls that each try to hold `x` cents of account `a`, under keys of their own. */
  ghost predicate Contenders(s: Store, calls: seq<Call>, a: Id, x: int) {
    && (forall i | 0 <= i < |calls| :: calls[i].operation == AuthorizeOut(a, x) && calls[i].key !in s.byIdempotencyKey)
    && (forall i, j | 0 <= i < j < |calls| :: calls[i].key != calls[j].key)
  }

  function Steps(calls: seq<Call>, external: Id): (actions: seq<Action>)
    ensures |actions| == |calls|
  {
    seq(|calls|, i requires 0 <= i < |calls| => ActionFor(calls[i], external))
  }

  predicate Wins(s: Store, call: Call, external: Id) {
    var o := OutcomeOf(s, ActionFor(call, external));
    o.Some? && NewlyAccepted(o.value)
  }

  /** How many of the first `n` calls are accepted when they run one after the other. */
  function Winners(s: Store, calls: seq<Call>, n: nat, external: Id): nat
    requires n <= |calls|
  {
    if n == 0 then 0
    else
      Winners(s, calls, n - 1, external) +
      (if Wins(StoreAfter(s, Steps(calls, external), n - 1), calls[n - 1], external) then 1 else 0)
  }

  function Min(a: int, b: int): int {
    if a < b then a else b
  }

  lemma MultiplesGrow(x: int, a: int, b: int)
    requires x > 0 && a <= b
    ensures x * a <= x * b
  {
  }

  lemma NextMultiple(x: int, a: int)
    ensures x * (a + 1) == x * a + x
  {
  }

  lemma QuotientAndRest(b: int, x: int) returns (q: int, r: int)
    requires x > 0
    ensures q == b / x && b == x * q + r && 0 <= r < x
  {
    q, r := b / x, b % x;
  }

  /** One more unit of `x` fits in what is left of `b` exactly while fewer than `b / x` are out. */
  lemma OneMore(b: int, x: int, c: int)
    requires x > 0
    ensures x <= b - x * c <==> c + 1 <= b / x
  {
    var q, r := QuotientAndRest(b, x);
    OneMoreFits(b, x, c, q, r);
  }

  lemma OneMoreFits(b: int, x: int, c: int, q: int, r: int)
    requires x > 0 && b == x * q + r && 0 <= r < x
    ensures x <= b - x * c <==> c + 1 <= q
  {
    NextMultiple(x, c);
    NextMultiple(x, q);
    if c + 1 <= q {
      MultiplesGrow(x, c + 1, q);
    } else {
      MultiplesGrow(x, q + 1, c + 1);
    }
  }

  lemma OneCall(s: Store, call: Call, external: Id, a: Id, x: int)
    requires Inv(s) && ExternalSeeded(s, external) && IsCustomer(s, a) && x > 0
    requires call.operation == AuthorizeOut(a, x) && call.key !in s.byIdempotencyKey && FreshIds(s, ActionFor(call, external))
    ensures var s' := Step(s, ActionFor(call, external));
            && Inv(s') && ExternalSeeded(s', external) && IsCustomer(s', a)
            && (Wins(s, call, external) <==> x <= Available(s, a))
            && Available(s', a) == Available(s, a) - (if Wins(s, call, external) then x else 0)
            && (forall k | k in s'.byIdempotencyKey :: k in s.byIdempotencyKey || k == call.key)
  {
    hide Inv, Post, FreshIds, Available, Extends, Indexes, Moves, Fits;
    var action := ActionFor(call, external);
    StepKeepsInv(s, action);
    StepExtends(s, action);
    ExternalKept(s, Step(s, action), external);
    AcceptedExactlyWhenAllowed(s, call, external);
    if Wins(s, call, external) {
      PostEffect(s, call, external, a);
      NewKeys(s, action.input, action.ctx);
    }
  }

  lemma NewKeys(s: Store, input: PostInput, ctx: Context)
    requires Inv(s) && FreshIds(s, PostAction(input, ctx)) && NewlyAccepted(Post(s, input, ctx).1)
    ensures forall k | k in Post(s, input, ctx).0.byIdempotencyKey :: k in s.byIdempotencyKey || k == input.idempotencyKey
  {
    hide Inv, Post, Moves, Fits;
    InvKeyed(s);
    PostGrows(s, input, ctx);
  }

  /** After `n` calls, `won` of them were accepted and `left` is what remains of `b`. */
  ghost predicate Tally(b: int, x: int, n: int, won: int, left: int)
    requires x > 0
  {
    won == Min(n, b / x) && left == b - x * won
  }

  lemma TallyStep(b: int, x: int, n: int, won: int, left: int, wins: bool)
    requires x > 0 && Tally(b, x, n, won, left) && (wins <==> x <= left)
    ensures Tally(b, x, n + 1, won + (if wins then 1 else 0), left - (if wins then x else 0))
  {
    OneMore(b, x, won);
    assert x * (won + 1) == x * won + x;
  }

  /** The keys of the calls still to come are unused. */
  ghost predicate Waiting(s: Store, calls: seq<Call>, n: nat) {
    forall i | n <= i < |calls| :: calls[i].key !in s.byIdempotencyKey
  }

  /** Call `n` asks for `x` cents of `a` under a key no later call has. */
  ghost predicate Contends(calls: seq<Call>, n: nat, a: Id, x: int)
    requires n < |calls|
  {
    calls[n].operation == AuthorizeOut(a, x) && forall j | n < j < |calls| :: calls[n].key != calls[j].key
  }

  lemma Contender(s: Store, calls: seq<Call>, n: nat, a: Id, x: int)
    requires Contenders(s, calls, a, x) && n < |calls|
    ensures Contends(calls, n, a, x)
  {
  }

  lemma FreshStep(s: Store, calls: seq<Call>, n: nat, external: Id)
    requires FreshRun(s, Steps(calls, external)) && n < |calls|
    ensures FreshIds(StoreAfter(s, Steps(calls, external), n), ActionFor(calls[n], external))
  {
    hide FreshIds, ActionFor, Step;
    assert FreshIds(StoreAfter(s, Steps(calls, external), n), Steps(calls, external)[n]);
  }

  ghost predicate Standing(s: Store, external: Id, a: Id) {
    Inv(s) && ExternalSeeded(s, external) && IsCustomer(s, a)
  }

  lemma RaceStep(s: Store, calls: seq<Call>, n: nat, external: Id, a: Id, x: int, b: int, won: int)
    requires x > 0 && n < |calls| && Standing(s, external, a) && Waiting(s, calls, n)
    requires Contends(calls, n, a, x) && FreshIds(s, ActionFor(calls[n], external)) && Tally(b, x, n, won, Available(s, a))
    ensures var s' := Step(s, ActionFor(calls[n], external));
            && Standing(s', external, a) && Waiting(s', calls, n + 1)
            && Tally(b, x, n + 1, won + (if Wins(s, calls[n], external) then 1 else 0), Available(s', a))
  {
    hide Inv, ExternalSeeded, Available, Step, Wins, FreshIds, ActionFor, Tally;
    OneCall(s, calls[n], external, a, x);
    TallyStep(b, x, n, won, Available(s, a), Wins(s, calls[n], external));
  }

  lemma {:induction false} RaceRun(s: Store, calls: seq<Call>, n: nat, external: Id, a: Id, x: int)
    requires Standing(s, external, a) && x > 0 && n <= |calls|
    requires Contenders(s, calls, a, x) && FreshRun(s, Steps(calls, external))
    ensures var s' := StoreAfter(s, Steps(calls, external), n);
            && Standing(s', external, a) && Waiting(s', calls, n)
            && Tally(Available(s, a), x, n, Winners(s, calls, n, external), Available(s', a))
  {
    hide Inv, ExternalSeeded, Available, Step, Wins, FreshIds, ActionFor, Tally, Waiting, Contenders, Contends, FreshRun;
    if n == 0 {
      RaceStart(s, calls, a, x);
    } else {
      RaceRun(s, calls, n - 1, external, a, x);
      var before := StoreAfter(s, Steps(calls, external), n - 1);
      FreshStep(s, calls, n - 1, external);
      Contender(s, calls, n - 1, a, x);
      RaceStep(before, calls, n - 1, external, a, x, Available(s, a), Winners(s, calls, n - 1, external));
    }
  }

  lemma RaceStart(s: Store, calls: seq<Call>, a: Id, x: int)
    requires Inv(s) && IsCustomer(s, a) && x > 0 && Contenders(s, calls, a, x)
    ensures Waiting(s, calls, 0) && Tally(Available(s, a), x, 0, 0, Available(s, a))
  {
    hide Inv;
    CustomerSolvent(s, a);
    assert Available(s, a) / x >= 0;
  }

  /**
   However many authorisations of `x` cents race for a balance, exactly as many as it covers are
   accepted, and what is left is the balance less what they hold.
   */
  lemma RaceForBalance(s: Store, calls: seq<Call>, external: Id, a: Id, x: int)
    requires Inv(s) && ExternalSeeded(s, external) && IsCustomer(s, a) && x > 0
    requires Contenders(s, calls, a, x) && FreshRun(s, Steps(calls, external))
    ensures var s' := StoreAfter(s, Steps(calls, external), |calls|);
            var won := Winners(s, calls, |calls|, external);
            && won == Min(|calls|, Available(s, a) / x)
            && IsCustomer(s', a) && Available(s', a) == Available(s, a) - x * won
  {
    hide Inv, ExternalSeeded, Available, Step, Wins, FreshIds, ActionFor, Contenders, FreshRun;
    RaceRun(s, calls, |calls|, external, a, x);
  }

  lemma CustomerSolvent(s: Store, a: Id)
    requires Inv(s) && IsCustomer(s, a)
    ensures Available(s, a) >= 0
  {
    hide Inv;
    InvSolvent(s);
    assert !ViolatesOverdraftGuard(s.accounts[a]);
  }
}
