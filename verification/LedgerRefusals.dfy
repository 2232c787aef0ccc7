/** What the ledger refuses, with which error, and in which order the reasons are looked for. */
module LedgerRefusals {
  import opened LedgerTypes
  import opened LedgerEngine
  import opened LedgerSums
  import opened LedgerInvariant
  import opened LedgerPreservation
  import opened LedgerTwoPhase
  import MemoryStore

  predicate AllOpen(s: Store, lines: seq<Line>, n: nat)
    requires n <= |lines|
  {
    forall i | 0 <= i < n :: lines[i].accountId in s.accounts
  }

  predicate PositiveUpTo(lines: seq<Line>, n: nat)
    requires n <= |lines|
  {
    forall i | 0 <= i < n :: lines[i].amountCents > 0
  }

  /** Line `k` is the first that leaves its account overdrawn. */
  predicate FirstOverdrawn(s: Store, lines: seq<Line>, k: nat, mode: Mode)
    requires k < |lines| && lines[k].accountId in s.accounts
  {
    && Affordable(lines, k, mode, s.accounts)
    && ViolatesOverdraftGuard(After(s.accounts[lines[k].accountId], lines, k + 1, mode))
  }

  /** The build stops there, and tells what was available when line `k` came up. */
  lemma BuildStops(lines: seq<Line>, k: nat, tx: Transaction, mode: Mode, entryIds: nat -> Id, accounts: map<Id, Account>)
    requires k < |lines| && Keyed(accounts) && lines[k].accountId in accounts && Affordable(lines, k, mode, accounts)
    requires ViolatesOverdraftGuard(After(accounts[lines[k].accountId], lines, k + 1, mode))
    ensures var a := lines[k].accountId;
            Build(lines, |lines|, tx, mode, entryIds, accounts) ==
            BuildFailed(InsufficientFunds(a, lines[k].amountCents, ComputeBalances(After(accounts[a], lines, k, mode)).available))
  {
    hide After, ApplyDelta, Delta, ComputeBalances, ViolatesOverdraftGuard;
    BuildSpec(lines, k, tx, mode, entryIds, accounts);
    AfterStep(accounts[lines[k].accountId], lines, k + 1, mode);
    MemoryStore.Engine.FailureStays(lines, k + 1, |lines|, tx, mode, entryIds, accounts);
  }

  lemma PostStops(s: Store, input: PostInput, ctx: Context, k: nat)
    requires Keyed(s.accounts) && !Replays(s, input.idempotencyKey) && Balanced(input.entries)
    requires AllOpen(s, input.entries, |input.entries|) && k < |input.entries|
    requires FirstOverdrawn(s, input.entries, k, PostMode(input.phase))
    ensures var line := input.entries[k];
            var before := After(s.accounts[line.accountId], input.entries, k, PostMode(input.phase));
            Post(s, input, ctx).1 ==
            Refused(InsufficientFunds(line.accountId, line.amountCents, ComputeBalances(before).available))
  {
    hide Balanced, LedgerSums.After, ComputeBalances, ViolatesOverdraftGuard, Build;
    var lines, locked := input.entries, LockAccounts(s, AccountIds(input.entries));
    assert forall i | 0 <= i < |lines| :: lines[i].accountId in AccountIds(lines);
    assert forall a | a in locked :: locked[a] == s.accounts[a];
    BuildStops(lines, k, PostTransaction(input, ctx), PostMode(input.phase), ctx.entryIds, locked);
  }

  /**
   A post under a new key, in the order the reasons are looked for: fewer than two lines; the first amount
   that is not positive; sides that differ; the first line without an account; the first line that leaves
   its account overdrawn, with what was available to it; and otherwise it goes through.
   */
  lemma PostRefusals(s: Store, input: PostInput, ctx: Context, k: nat)
    requires Inv(s) && input.idempotencyKey !in s.byIdempotencyKey
    ensures var (lines, mode, o) := (input.entries, PostMode(input.phase), Post(s, input, ctx).1);
            && (|lines| < 2 ==> o == Refused(TooFewEntries))
            && (|lines| >= 2 && k < |lines| && PositiveUpTo(lines, k) && lines[k].amountCents <= 0 ==>
                  o == Refused(NonPositiveAmount(lines[k].amountCents)))
            && (|lines| >= 2 && PositiveUpTo(lines, |lines|) && Total(lines, Debit) != Total(lines, Credit) ==>
                  o == Refused(Unbalanced(Total(lines, Debit), Total(lines, Credit))))
            && (Balanced(lines) && k < |lines| && AllOpen(s, lines, k) && lines[k].accountId !in s.accounts ==>
                  o == Refused(AccountMissing(lines[k].accountId)))
            && (Balanced(lines) && AllOpen(s, lines, |lines|) && k < |lines| && FirstOverdrawn(s, lines, k, mode) ==>
                  var before := After(s.accounts[lines[k].accountId], lines, k, mode);
                  o == Refused(InsufficientFunds(lines[k].accountId, lines[k].amountCents, ComputeBalances(before).available)))
            && (Balanced(lines) && AllOpen(s, lines, |lines|) && Affordable(lines, |lines|, mode, s.accounts) ==>
                  NewlyAccepted(o))
  {
    hide Inv, LedgerSums.After, ComputeBalances, ViolatesOverdraftGuard, Build, FirstOverdrawn, Affordable, Total;
    InvKeyed(s);
    var lines := input.entries;
    if Balanced(lines) && AllOpen(s, lines, |lines|) {
      BuildOnStore(s, lines, PostTransaction(input, ctx), PostMode(input.phase), ctx.entryIds);
      if k < |lines| && FirstOverdrawn(s, lines, k, PostMode(input.phase)) {
        PostStops(s, input, ctx, k);
      }
    }
  }

  /** A resolution under a new key is refused for an unknown transaction or one that is not pending, and for nothing else. */
  lemma ResolveRefusals(s: Store, pendingId: Id, options: ResolveOptions, commit: bool, ctx: Context)
    requires Inv(s) && options.idempotencyKey !in s.byIdempotencyKey
    ensures var o := ResolvePending(s, pendingId, options, commit, ctx).1;
            if pendingId !in s.transactions then o == Refused(PendingNotFound(pendingId))
            else if s.transactions[pendingId].status != StatusPending
            then o == Refused(NotPending(pendingId, s.transactions[pendingId].status))
            else NewlyAccepted(o)
  {
    hide Inv, Build;
    InvKeyed(s);
    if pendingId in s.transactions && s.transactions[pendingId].status == StatusPending {
      ResolveNeverRefused(s, pendingId, options, commit, ctx);
    }
  }
}
