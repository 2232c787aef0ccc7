/** Accounts from opening on: what they carry from their template, and no double spend for the customers opened. */
module CustomerAccounts {
  import opened LedgerTypes
  import opened LedgerEngine
  import opened LedgerSums
  import opened LedgerInvariant
  import opened LedgerPreservation
  import opened LedgerSafety
  import opened LedgerRetry
  import LedgerTwoPhase
  import opened ShadowLedger
  import opened NoDoubleSpend
  import MemoryStore

  /** The account under the template's code is `a`, of the template's type and with its guard. */
  predicate OpenedAs(s: Store, t: AccountTemplate, a: Id) {
    && t.code in s.accountsByCode && s.accountsByCode[t.code] == a && a in s.accounts
    && s.accounts[a].code == t.code
    && s.accounts[a].accountType == t.accountType
    && s.accounts[a].allowsNegative == t.allowsNegative
    && (s.accounts[a].normalBalance.DebitNormal? <==> t.accountType.Asset? || t.accountType.Expense?)
  }

  /** Opening under a new code adds one account, made as its template says, with nothing on it; under a known code, none. */
  lemma OpenEffect(s: Store, t: AccountTemplate, newId: Id)
    requires Inv(s) && FreshIds(s, OpenAccount(t, newId))
    ensures var s' := Step(s, OpenAccount(t, newId));
            if t.code in s.accountsByCode then s' == s
            else
              && OpenedAs(s', t, newId)
              && s'.accounts == s.accounts[newId := s'.accounts[newId]]
              && s'.accounts[newId].counters == Counters(0, 0, 0, 0)
              && s'.accounts[newId].entryCount == 0 && s'.accounts[newId].version == 0
              && ComputeBalances(s'.accounts[newId]) == Balances(0, 0, 0)
  {
    OpenExtends(s, t, newId);
  }

  lemma ExtendsKeepsOpened(s: Store, s': Store, t: AccountTemplate, a: Id)
    requires Extends(s, s') && OpenedAs(s, t, a)
    ensures OpenedAs(s', t, a)
  {
  }

  /** Whatever calls follow, an account keeps the code, type and guard it was opened with. */
  lemma AccountsKeepTemplate(s: Store, actions: seq<Action>, i: nat, n: nat, t: AccountTemplate, newId: Id)
    requires Inv(s) && FreshRun(s, actions) && i < n <= |actions|
    requires actions[i] == OpenAccount(t, newId) && t.code !in StoreAfter(s, actions, i).accountsByCode
    ensures OpenedAs(StoreAfter(s, actions, n), t, newId)
  {
    hide Inv, Step, FreshIds, Extends, OpenedAs;
    RunKeepsInv(s, actions, i);
    assert FreshIds(StoreAfter(s, actions, i), actions[i]);
    OpenEffect(StoreAfter(s, actions, i), t, newId);
    ExtendsBetween(s, actions, i + 1, n);
    ExtendsKeepsOpened(StoreAfter(s, actions, i + 1), StoreAfter(s, actions, n), t, newId);
  }

  lemma OpenedCustomer(s: Store, t: AccountTemplate, a: Id)
    requires OpenedAs(s, t, a) && t.accountType.Liability? && !t.allowsNegative
    ensures IsCustomer(s, a)
  {
  }

  // ----- No double spend, for whoever the run opened an account for -----

  lemma ShadowFresh(s: Store, steps: seq<ShadowStep>, external: Id)
    requires ShadowRun(s, steps, external)
    ensures FreshRun(s, Actions(steps, external))
  {
    hide FreshIds, Step, ActionOf, Addressed;
    var actions := Actions(steps, external);
    forall i | 0 <= i < |actions| ensures FreshIds(StoreAfter(s, actions, i), actions[i]) {
      assert StepOk(StoreAfter(s, actions, i), steps[i], external);
    }
  }

  /**
   No double spend for every account the run itself opens from a guarded Liability template: it is there
   at the end, still guarded, and its available balance is what its history says and never negative.
   */
  lemma NoDoubleSpendForOpened(s: Store, steps: seq<ShadowStep>, external: Id, i: nat, t: AccountTemplate, a: Id)
    requires Blank(s, external) && ShadowRun(s, steps, external) && i < |steps| && steps[i] == Open(t, a)
    requires t.accountType.Liability? && !t.allowsNegative
    requires t.code !in StoreAfter(s, Actions(steps, external), i).accountsByCode
    ensures var s' := StoreAfter(s, Actions(steps, external), |steps|);
            && OpenedAs(s', t, a) && IsCustomer(s', a)
            && Available(s', a) == Funds(History(s, steps, |steps|, external), a) && Available(s', a) >= 0
  {
    hide Inv, ShadowRun, FreshRun, OpenedAs, IsCustomer, Available, StoreAfter, History, Funds, OneFate;
    ShadowFresh(s, steps, external);
    AccountsKeepTemplate(s, Actions(steps, external), i, |steps|, t, a);
    OpenedCustomer(StoreAfter(s, Actions(steps, external), |steps|), t, a);
    NoDoubleSpend.NoDoubleSpend(s, steps, external, a);
  }

  // ----- The service: the seeded chart and customers' pairs of accounts -----

  /** Codes of different customers, of the two accounts of one, and of the chart never coincide. */
  lemma CodesApart(a: string, b: string, x: bool, y: bool, i: nat)
    requires i < |MemoryStore.SINGLETON_ACCOUNTS|
    ensures MemoryStore.CustomerCode(a, x) == MemoryStore.CustomerCode(b, y) <==> a == b && x == y
    ensures MemoryStore.CustomerCode(a, x) != MemoryStore.SINGLETON_ACCOUNTS[i].code
  {
    assert MemoryStore.CustomerCode(a, x)[5..] == a && MemoryStore.CustomerCode(b, y)[5..] == b;
    assert MemoryStore.CustomerCode(a, x)[1] == (if x then '1' else '0');
    assert MemoryStore.CustomerCode(b, y)[1] == (if y then '1' else '0');
    ChartIs(i);
  }

  /** The chart: four-digit codes whose first digit tells the type; only the external world may go negative. */
  lemma ChartIs(i: nat)
    requires i < |MemoryStore.SINGLETON_ACCOUNTS|
    ensures var t := MemoryStore.SINGLETON_ACCOUNTS[i];
            && |t.code| == 4
            && t.accountType == (match t.code[0]
                                 case '2' => Liability
                                 case '3' => Equity
                                 case '4' => Revenue
                                 case '5' => Expense
                                 case _ => Asset)
            && (t.allowsNegative <==> t.code == MemoryStore.EXTERNAL_WORLD)
  {
  }

  predicate IsCustomerTemplate(t: AccountTemplate) {
    |t.code| > 4 && t.accountType.Liability? && !t.allowsNegative
  }

  lemma CustomerTemplates(customer: string, blocked: bool)
    ensures IsCustomerTemplate(MemoryStore.CustomerTemplate(customer, blocked))
  {
  }

  /** Every account opened is a guarded liability with a longer code than the chart uses, as the templates of a customer are. */
  ghost predicate ServiceRun(s: Store, steps: seq<ShadowStep>, external: Id) {
    && ShadowRun(s, steps, external)
    && forall i | 0 <= i < |steps| && steps[i].Open? :: IsCustomerTemplate(steps[i].template)
  }

  /** Whatever is open beside the chart is a guarded liability. */
  ghost predicate CustomersGuarded(s: Store) {
    forall c | c in s.accountsByCode && |c| > 4 :: OpenedAs(s, AccountTemplate(c, Liability, false), s.accountsByCode[c])
  }

  lemma {:induction false} SeededGuards(ids: seq<Id>, n: nat)
    requires n <= |ids| && n <= |MemoryStore.SINGLETON_ACCOUNTS|
    ensures forall c | c in MemoryStore.Seeded(ids, n).accountsByCode :: |c| == 4
  {
    if n > 0 {
      SeededGuards(ids, n - 1);
      ChartIs(n - 1);
    }
  }

  lemma StepKeepsGuarded(s: Store, step: ShadowStep, external: Id)
    requires Inv(s) && StepOk(s, step, external) && CustomersGuarded(s)
    requires step.Open? ==> IsCustomerTemplate(step.template)
    ensures CustomersGuarded(Step(s, ActionOf(step, external)))
    ensures step.Open? ==> step.template.code in Step(s, ActionOf(step, external)).accountsByCode
  {
    hide Inv, OpenedAs, Extends, FreshIds, Addressed, Post, ResolvePending;
    var s' := Step(s, ActionOf(step, external));
    StepExtends(s, ActionOf(step, external));
    CodesAfter(s, step, external);
    forall c | c in s'.accountsByCode && |c| > 4
      ensures OpenedAs(s', AccountTemplate(c, Liability, false), s'.accountsByCode[c])
    {
      if c in s.accountsByCode {
        ExtendsKeepsOpened(s, s', AccountTemplate(c, Liability, false), s.accountsByCode[c]);
      }
    }
  }

  /** Only opening adds a code. */
  lemma CodesAfter(s: Store, step: ShadowStep, external: Id)
    requires Inv(s) && FreshIds(s, ActionOf(step, external))
    ensures var s' := Step(s, ActionOf(step, external));
            && (forall c | c in s.accountsByCode :: c in s'.accountsByCode && s'.accountsByCode[c] == s.accountsByCode[c])
            && (forall c | c in s'.accountsByCode && c !in s.accountsByCode ::
                  step.Open? && c == step.template.code && OpenedAs(s', step.template, s'.accountsByCode[c]))
            && (step.Open? ==> step.template.code in s'.accountsByCode)
  {
    hide Inv, Post, ResolvePending, Moves, Fits;
    match step
    case Open(t, newId) => OpenEffect(s, t, newId);
    case Do(call) =>
      LedgerTwoPhase.InvKeyed(s);
      match ActionFor(call, external)
      case PostAction(input, ctx) => PostGrows(s, input, ctx);
      case ResolveAction(pendingId, options, commit, ctx) =>
        LedgerTwoPhase.HoldIsSound(s, pendingId);
        ResolveGrows(s, pendingId, options, commit, ctx);
  }

  lemma {:induction false} RunKeepsGuarded(s: Store, steps: seq<ShadowStep>, external: Id, n: nat)
    requires Inv(s) && CustomersGuarded(s) && ServiceRun(s, steps, external) && n <= |steps|
    ensures var s' := StoreAfter(s, Actions(steps, external), n);
            && CustomersGuarded(s')
            && forall i | 0 <= i < n && steps[i].Open? :: steps[i].template.code in s'.accountsByCode
  {
    hide Inv, Step, FreshRun, StepOk, ActionOf, CustomersGuarded, IsCustomerTemplate;
    if n > 0 {
      RunKeepsGuarded(s, steps, external, n - 1);
      var before := StoreAfter(s, Actions(steps, external), n - 1);
      ShadowFresh(s, steps, external);
      RunKeepsInv(s, Actions(steps, external), n - 1);
      assert StepOk(before, steps[n - 1], external);
      StepKeepsGuarded(before, steps[n - 1], external);
      CodesStay(before, steps[n - 1], external);
    }
  }

  lemma CodesStay(s: Store, step: ShadowStep, external: Id)
    requires Inv(s) && StepOk(s, step, external)
    ensures forall c | c in s.accountsByCode :: c in Step(s, ActionOf(step, external)).accountsByCode
  {
    hide Inv, FreshIds, Addressed, Step;
    CodesAfter(s, step, external);
  }

  /**
   For every customer whose accounts the service opens at any step of a run from the seeded ledger: from
   then on the available and the blocked account are there, and each one's available balance is money in
   minus money out minus settled transfers minus outstanding holds, and never negative.
   */
  lemma CustomersNeverOverdrawn(ids: seq<Id>, steps: seq<ShadowStep>, i: nat, customer: string, blocked: bool, newId: Id)
    requires |ids| == |MemoryStore.SINGLETON_ACCOUNTS| && Distinct(ids) && NO_ID !in ids
    requires ServiceRun(MemoryStore.Seeded(ids, |ids|), steps, ids[|ids| - 1])
    requires i < |steps| && steps[i] == Open(MemoryStore.CustomerTemplate(customer, blocked), newId)
    ensures var s, external := MemoryStore.Seeded(ids, |ids|), ids[|ids| - 1];
            var s' := StoreAfter(s, Actions(steps, external), |steps|);
            && MemoryStore.CustomerCode(customer, blocked) in s'.accountsByCode
            && var a := s'.accountsByCode[MemoryStore.CustomerCode(customer, blocked)];
               && OpenedAs(s', MemoryStore.CustomerTemplate(customer, blocked), a) && IsCustomer(s', a)
               && Available(s', a) == Funds(History(s, steps, |steps|, external), a) && Available(s', a) >= 0
  {
    hide Inv, ShadowRun, OpenedAs, IsCustomer, Available, StoreAfter, History, Funds, OneFate, Distinct, MemoryStore.Seeded;
    var s, external := MemoryStore.Seeded(ids, |ids|), ids[|ids| - 1];
    var t := MemoryStore.CustomerTemplate(customer, blocked);
    SeededIsBlank(ids);
    SeededGuards(ids, |ids|);
    RunKeepsGuarded(s, steps, external, |steps|);
    var s' := StoreAfter(s, Actions(steps, external), |steps|);
    assert t.code in s'.accountsByCode;
    var a := s'.accountsByCode[t.code];
    CustomerTemplates(customer, blocked);
    assert OpenedAs(s', AccountTemplate(t.code, Liability, false), a);
    OpenedCustomer(s', t, a);
    NoDoubleSpend.NoDoubleSpend(s, steps, external, a);
  }
}
