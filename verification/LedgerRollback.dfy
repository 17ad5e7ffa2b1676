/**
 What a failed grow or balance update leaves behind: exactly when the deferred undo gives back the
 ledger as it was, and what happens to a ledger it did not give back.
 */
module LedgerRollback {
  import opened Prelude
  import opened Ledger
  import opened LedgerForms

  /** A staker without validators or balance, never stamped. */
  predicate IsShell(s: Staker) {
    s.validators == [] && s.balance == 0 && s.withdrawVersion == 0
  }

  predicate RestoredAt(m: StakerMap, m': StakerMap, k: nat) {
    if k in m then k in m' && m'[k] == m[k] else k in m' ==> IsShell(m'[k])
  }

  /** Every staker of `m` is exactly as it was; any other staker of `m'` is an empty shell. */
  ghost predicate Restores(m: StakerMap, m': StakerMap) {
    forall k: nat :: RestoredAt(m, m', k)
  }

  /** The failed call changed nothing but for empty shells of stakers that never came to be. */
  ghost predicate Intact(s: State, s': State) {
    && s' == s.(stakers := s'.stakers)
    && Restores(s.stakers, s'.stakers)
  }

  function BalanceOf(m: StakerMap, k: nat): uint64 {
    if k in m then m[k].balance else 0
  }

  /** No staker's balance leaves 64 bits when the deposits of versions `lo .. hi - 1` are added. */
  ghost predicate Fits(m: StakerMap, p: Pending, lo: nat, hi: nat)
    requires Covers(p, lo, hi)
  {
    forall k: nat :: BalanceOf(m, k) + Amounts(DepositsFor(p, k, lo, hi)) < TWO64
  }

  /** The same, said along the loop: no single addition wraps. */
  ghost predicate NoWrap(m: StakerMap, p: Pending, lo: nat, hi: nat)
    requires Covers(p, lo, hi)
    decreases hi - lo
  {
    lo < hi ==>
      && BalanceOf(m, p[lo].stakerIndex) + p[lo].amount < TWO64
      && NoWrap(AddDeposit(m, p[lo]), p, lo + 1, hi)
  }

  lemma AmountsStep(p: Pending, k: nat, lo: nat, hi: nat)
    requires lo < hi && Covers(p, lo, hi)
    ensures Amounts(DepositsFor(p, k, lo, hi))
         == (if p[lo].stakerIndex == k then p[lo].amount else 0) + Amounts(DepositsFor(p, k, lo + 1, hi))
  {
    var rest := DepositsFor(p, k, lo + 1, hi);
    assert ([p[lo]] + rest)[1..] == rest;
    assert [] + rest == rest;
  }

  /** No addition wraps exactly when the final sums fit, staker by staker. */
  lemma {:induction false} NoWrapIffFits(m: StakerMap, p: Pending, lo: nat, hi: nat)
    requires Covers(p, lo, hi)
    ensures NoWrap(m, p, lo, hi) <==> Fits(m, p, lo, hi)
    decreases hi - lo
  {
    if lo < hi {
      var d := p[lo];
      var m1 := AddDeposit(m, d);
      NoWrapIffFits(m1, p, lo + 1, hi);
      forall k: nat
        ensures Amounts(DepositsFor(p, k, lo, hi))
             == (if d.stakerIndex == k then d.amount else 0) + Amounts(DepositsFor(p, k, lo + 1, hi))
      {
        AmountsStep(p, k, lo, hi);
      }
      if BalanceOf(m, d.stakerIndex) + d.amount < TWO64 {
        assert forall k: nat :: BalanceOf(m1, k) == BalanceOf(m, k) + if d.stakerIndex == k then d.amount else 0;
        if Fits(m, p, lo, hi) {
          forall k: nat
            ensures BalanceOf(m1, k) + Amounts(DepositsFor(p, k, lo + 1, hi)) < TWO64
          {
            assert BalanceOf(m, k) + Amounts(DepositsFor(p, k, lo, hi)) < TWO64;
          }
        }
        if Fits(m1, p, lo + 1, hi) {
          forall k: nat
            ensures BalanceOf(m, k) + Amounts(DepositsFor(p, k, lo, hi)) < TWO64
          {
            assert BalanceOf(m1, k) + Amounts(DepositsFor(p, k, lo + 1, hi)) < TWO64;
          }
        }
      } else {
        assert BalanceOf(m, d.stakerIndex) + Amounts(DepositsFor(p, d.stakerIndex, lo, hi)) >= TWO64;
      }
    }
  }

  // ---- Undoing deposits -----------------------------------------------------------------------

  lemma {:induction false} RemoveFirstLast(s: seq<string>, x: string)
    requires x !in s
    ensures RemoveFirst(s + [x], x) == s
  {
    if s != [] {
      assert (s + [x])[1..] == s[1..] + [x];
      RemoveFirstLast(s[1..], x);
    }
  }

  lemma {:induction false} RemoveFirstKeeps(s: seq<string>, x: string, y: string)
    requires y in s && y != x
    ensures y in RemoveFirst(s, x)
  {
    if s[0] != x && s[0] != y {
      RemoveFirstKeeps(s[1..], x, y);
    }
  }

  lemma RemoveUndoesAdd(s: Staker, validator: string, amount: uint64)
    requires validator !in s.validators
    ensures s.balance + amount < TWO64 ==> RemoveValidator(AddValidator(s, validator, amount), validator, amount) == s
    ensures s.balance + amount >= TWO64 ==>
              RemoveValidator(AddValidator(s, validator, amount), validator, amount) == AddValidator(s, validator, amount)
  {
    RemoveFirstLast(s.validators, validator);
  }

  lemma {:induction false} UndoSplit(m: StakerMap, p: Pending, v: nat, base: nat)
    requires base < v && Covers(p, base + 1, v + 1)
    ensures UndoDeposits(m, p, v, base) == RemoveDeposit(UndoDeposits(m, p, v, base + 1), p[base + 1])
    decreases v
  {
    if base + 1 < v {
      UndoSplit(RemoveDeposit(m, p[v]), p, v - 1, base);
    }
  }

  /** A validator that a run applied was not there before. */
  lemma {:induction false} AppliedIsNew(m: StakerMap, p: Pending, lo: nat, version: nat, w: nat)
    requires lo <= w < ApplyDeposits(m, p, lo, version).next
    ensures w in p && (p[w].stakerIndex in m ==> p[w].validator !in m[p[w].stakerIndex].validators)
    decreases version + 1 - lo
  {
    if lo < w {
      AppliedIsNew(AddDeposit(m, p[lo]), p, lo + 1, version, w);
    }
  }

  /** A validator that a run applied is there afterwards. */
  lemma {:induction false} AppliedIsThere(m: StakerMap, p: Pending, lo: nat, version: nat, w: nat)
    requires lo <= w < ApplyDeposits(m, p, lo, version).next
    ensures w in p && Holds(ApplyDeposits(m, p, lo, version).stakers, p[w])
    decreases version + 1 - lo
  {
    var m1 := AddDeposit(m, p[lo]);
    if lo < w {
      AppliedIsThere(m1, p, lo + 1, version, w);
    } else {
      DepositsKeep(m1, p, lo + 1, version);
      AddedIsThere(m, p[w]);
    }
  }

  lemma HeldIsNotRestored(m: StakerMap, m': StakerMap, p: Pending, lo: nat, version: nat, w: nat)
    requires lo <= w < ApplyDeposits(m, p, lo, version).next
    requires w in p && Holds(m', p[w])
    ensures !Restores(m, m')
  {
    AppliedIsNew(m, p, lo, version, w);
    assert !RestoredAt(m, m', p[w].stakerIndex);
  }

  lemma RemovalKeeps(m: StakerMap, d: Deposit, e: Deposit)
    requires Holds(m, e)
    requires e.stakerIndex == d.stakerIndex ==> e.validator != d.validator
    ensures Holds(RemoveDeposit(m, d), e)
  {
    if e.stakerIndex == d.stakerIndex && RemoveDeposit(m, d) != m {
      RemoveFirstKeeps(m[d.stakerIndex].validators, d.validator, e.validator);
    }
  }

  /** Removing the last deposit still applied: it is either undone exactly or not at all. */
  lemma RemovalUndoes(m: StakerMap, d: Deposit, u: StakerMap)
    requires DepositOutcome(m, d).Done?
    requires Restores(AddDeposit(m, d), u)
    ensures BalanceOf(m, d.stakerIndex) + d.amount < TWO64 ==> Restores(m, RemoveDeposit(u, d))
    ensures BalanceOf(m, d.stakerIndex) + d.amount >= TWO64 ==> Holds(RemoveDeposit(u, d), d)
  {
    var k := d.stakerIndex;
    var m1 := AddDeposit(m, d);
    assert RestoredAt(m1, u, k);
    var s := if k in m then m[k] else Staker(d.stakerAddr, [], 0, 0);
    assert m1[k] == AddValidator(s, d.validator, d.amount) by {
      assert [] + [d.validator] == [d.validator];
    }
    RemoveUndoesAdd(s, d.validator, d.amount);
    AddedIsThere(m, d);
    if BalanceOf(m, k) + d.amount < TWO64 {
      forall j: nat
        ensures RestoredAt(m, RemoveDeposit(u, d), j)
      {
        assert RestoredAt(m1, u, j);
      }
    }
  }

  /** Some deposit of versions `lo .. hi - 1` is still in its staker's list. */
  ghost predicate LeavesOne(m: StakerMap, p: Pending, lo: nat, hi: nat) {
    exists w :: lo <= w < hi && w in p && Holds(m, p[w])
  }

  /** What undoing a run of deposits amounts to: all back, or some validator left behind. */
  ghost predicate UndoVerdict(m: StakerMap, p: Pending, lo: nat, hi: nat, u: StakerMap)
    requires Covers(p, lo, hi)
  {
    if NoWrap(m, p, lo, hi) then Restores(m, u) else LeavesOne(u, p, lo, hi)
  }

  lemma RemovalLeavesOne(m: StakerMap, p: Pending, lo: nat, version: nat, hi: nat, u1: StakerMap)
    requires lo in p
    requires hi == ApplyDeposits(AddDeposit(m, p[lo]), p, lo + 1, version).next
    requires LeavesOne(u1, p, lo + 1, hi)
    ensures LeavesOne(RemoveDeposit(u1, p[lo]), p, lo, hi)
  {
    var w :| lo + 1 <= w < hi && w in p && Holds(u1, p[w]);
    AppliedIsNew(AddDeposit(m, p[lo]), p, lo + 1, version, w);
    AddedIsThere(m, p[lo]);
    RemovalKeeps(u1, p[lo], p[w]);
  }

  lemma RemovalStep(m: StakerMap, p: Pending, lo: nat, version: nat, hi: nat, u1: StakerMap, u: StakerMap)
    requires lo in p && DepositOutcome(m, p[lo]).Done?
    requires hi == ApplyDeposits(AddDeposit(m, p[lo]), p, lo + 1, version).next
    requires UndoVerdict(AddDeposit(m, p[lo]), p, lo + 1, hi, u1)
    requires u == RemoveDeposit(u1, p[lo])
    ensures UndoVerdict(m, p, lo, hi, u)
  {
    if NoWrap(AddDeposit(m, p[lo]), p, lo + 1, hi) {
      RemovalUndoes(m, p[lo], u1);
      assert NoWrap(m, p, lo, hi) || Holds(u, p[lo]);
    } else {
      RemovalLeavesOne(m, p, lo, version, hi, u1);
    }
  }

  /**
   Undoing a run of deposits gives back what was there when no addition wrapped; otherwise the
   balance test refuses to remove a wrapped deposit and its validator stays behind.
   */
  lemma {:induction false} UndoExact(m: StakerMap, p: Pending, base: nat, version: nat, d: DepositRun)
    requires d == ApplyDeposits(m, p, base + 1, version)
    ensures UndoVerdict(m, p, base + 1, d.next, UndoDeposits(d.stakers, p, d.next - 1, base))
    decreases version - base
  {
    var u := UndoDeposits(d.stakers, p, d.next - 1, base);
    if d.next == base + 1 {
      assert u == m;
    } else {
      var u1 := UndoDeposits(d.stakers, p, d.next - 1, base + 1);
      UndoExact(AddDeposit(m, p[base + 1]), p, base + 1, version, d);
      assert u == RemoveDeposit(u1, p[base + 1]) by {
        UndoSplit(d.stakers, p, d.next - 1, base);
      }
      RemovalStep(m, p, base + 1, version, d.next, u1, u);
    }
  }

  lemma AddedIsThere(m: StakerMap, d: Deposit)
    ensures Holds(AddDeposit(m, d), d)
  {
    var vs := AddDeposit(m, d)[d.stakerIndex].validators;
    assert vs[|vs| - 1] == d.validator;
  }

  // ---- Undoing withdraw stamps ----------------------------------------------------------------

  lemma {:induction false} StampsRestore(m: StakerMap, q: seq<Withdraw>, target: nat, prev: map<nat, nat>, latest: nat)
    ensures var r := ApplyWithdraws(m, q, target, prev, latest);
            && SameButStamps(m, r.stakers)
            && RestoreWithdraws(r.stakers, r.prev) == RestoreWithdraws(m, prev)
    decreases |q|
  {
    if q != [] && q[0].withdrawVersion <= target && q[0].stakerIndex in m {
      var k, v := q[0].stakerIndex, q[0].withdrawVersion;
      var m1 := m[k := m[k].(withdrawVersion := v)];
      var prev1 := if k in prev then prev else prev[k := m[k].withdrawVersion];
      StampsRestore(m1, q[1..], target, prev1, v);
      assert RestoreWithdraws(m1, prev1) == RestoreWithdraws(m, prev);
    }
  }

  lemma {:induction false} UndoStamps(a: StakerMap, b: StakerMap, p: Pending, v: nat, base: nat)
    requires SameButStamps(a, b) && forall i | base < i <= v :: i in p
    ensures var ua, ub := UndoDeposits(a, p, v, base), UndoDeposits(b, p, v, base);
            && SameButStamps(ua, ub)
            && ua.Keys == a.Keys && ub.Keys == b.Keys
            && (forall k | k in a :: ua[k].withdrawVersion == a[k].withdrawVersion)
            && (forall k | k in b :: ub[k].withdrawVersion == b[k].withdrawVersion)
    decreases v
  {
    if v > base {
      var d := p[v];
      var a1, b1 := RemoveDeposit(a, d), RemoveDeposit(b, d);
      if d.stakerIndex in a {
        assert a[d.stakerIndex].balance == b[d.stakerIndex].balance by {
          assert a[d.stakerIndex].(withdrawVersion := 0).balance == b[d.stakerIndex].(withdrawVersion := 0).balance;
        }
        assert a[d.stakerIndex].validators == b[d.stakerIndex].validators by {
          assert a[d.stakerIndex].(withdrawVersion := 0).validators == b[d.stakerIndex].(withdrawVersion := 0).validators;
        }
      }
      UndoStamps(a1, b1, p, v - 1, base);
    }
  }

  /** Undoing both loops is undoing the deposit loop alone. */
  lemma DowngradeBoth(m: StakerMap, p: Pending, q: seq<Withdraw>, target: nat, latest: nat, v: nat, base: nat)
    requires forall i | base < i <= v :: i in p
    ensures var r := ApplyWithdraws(m, q, target, map[], latest);
            RestoreWithdraws(UndoDeposits(r.stakers, p, v, base), r.prev) == UndoDeposits(m, p, v, base)
  {
    var r := ApplyWithdraws(m, q, target, map[], latest);
    StampsRestore(m, q, target, map[], latest);
    UndoStamps(r.stakers, m, p, v, base);
    var ua, ub := UndoDeposits(r.stakers, p, v, base), UndoDeposits(m, p, v, base);
    assert RestoreWithdraws(m, map[]) == m;
    forall k | k in ua
      ensures RestoreWithdraws(ua, r.prev)[k] == ub[k]
    {
      assert RestoreWithdraws(r.stakers, r.prev)[k] == m[k];
      assert ua[k].(withdrawVersion := 0) == ub[k].(withdrawVersion := 0);
    }
  }

  // ---- The rollback theorems ------------------------------------------------------------------

  /** The ledger between calls: no undo notes, and a sorted queue of withdraws not yet fed. */
  ghost predicate Settled(s: State) {
    && s.prev == map[]
    && SortedQueue(s.queue)
    && forall w | w in s.queue :: w.withdrawVersion > s.withdrawVersion
  }

  lemma LeftoverIsNotRestored(m: StakerMap, p: Pending, lo: nat, version: nat, u: StakerMap)
    requires LeavesOne(u, p, lo, ApplyDeposits(m, p, lo, version).next)
    ensures !Restores(m, u)
  {
    var w :| lo <= w < ApplyDeposits(m, p, lo, version).next && w in p && Holds(u, p[w]);
    HeldIsNotRestored(m, u, p, lo, version, w);
  }

  /** However far a run of deposits came, undoing it is exact if and only if its sums fit. */
  lemma UndoIffFits(m: StakerMap, p: Pending, base: nat, version: nat, d: DepositRun)
    requires d == ApplyDeposits(m, p, base + 1, version)
    ensures Restores(m, UndoDeposits(d.stakers, p, d.next - 1, base)) <==> Fits(m, p, base + 1, d.next)
  {
    UndoExact(m, p, base, version, d);
    NoWrapIffFits(m, p, base + 1, d.next);
    if !NoWrap(m, p, base + 1, d.next) {
      LeftoverIsNotRestored(m, p, base + 1, version, UndoDeposits(d.stakers, p, d.next - 1, base));
    }
  }

  /** A prefix of applied deposits that is not undone is not the ledger that was. */
  lemma AppliedIsNotRestored(s: State, version: nat)
    requires s.version + 1 < ApplyDeposits(s.stakers, s.pending, s.version + 1, version).next
    ensures !Restores(s.stakers, ApplyDeposits(s.stakers, s.pending, s.version + 1, version).stakers)
  {
    AppliedIsThere(s.stakers, s.pending, s.version + 1, version, s.version + 1);
    HeldIsNotRestored(s.stakers, ApplyDeposits(s.stakers, s.pending, s.version + 1, version).stakers,
                      s.pending, s.version + 1, version, s.version + 1);
  }

  /** The errors raised inside the loops of a grow, after which the source runs its undo. */
  predicate LoopError(e: Error) {
    e in {MissingDeposit, IndexGap, DuplicateValidator, UnknownStaker}
  }

  /** The ledger `s` with the deposits of the run `d` undone again. */
  function Undone(s: State, d: DepositRun): State
    requires d.next >= 1 && Covers(s.pending, s.version + 1, d.next)
  {
    s.(stakers := UndoDeposits(d.stakers, s.pending, d.next - 1, s.version))
  }

  lemma RestoreNothing(m: StakerMap)
    ensures RestoreWithdraws(m, map[]) == m
  {
  }

  /** The deferred undo after a failed deposit loop. */
  lemma UndoAfterDeposits(s: State, m: StakerMap, next: nat)
    requires s.prev == map[] && next >= 1 && Covers(s.pending, s.version + 1, next)
    ensures DeferredUndo(s.(stakers := m), next, s.withdrawVersion)
         == s.(stakers := UndoDeposits(m, s.pending, next - 1, s.version))
  {
    RestoreNothing(UndoDeposits(m, s.pending, next - 1, s.version));
  }

  /** The deferred undo after a failed withdraw loop undoes both loops. */
  lemma UndoAfterWithdraws(s: State, m: StakerMap, next: nat, wv: nat)
    requires Settled(s) && next >= 1 && Covers(s.pending, s.version + 1, next)
    ensures var w := ApplyWithdraws(m, s.queue, wv, map[], s.withdrawVersion);
            var s2 := s.(stakers := w.stakers, prev := w.prev);
            DeferredUndo(s2, next, w.latest) == s.(stakers := UndoDeposits(m, s.pending, next - 1, s.version))
  {
    DowngradeBoth(m, s.pending, s.queue, wv, s.withdrawVersion, next - 1, s.version);
    NothingStamped(m, s.queue, wv, s.withdrawVersion);
  }

  lemma AfterDepositsUndoes(s: State, d: DepositRun, wv: nat)
    requires Settled(s) && (s.queue == [] ==> wv <= s.withdrawVersion)
    requires d.next >= 1 && Covers(s.pending, s.version + 1, d.next)
    requires AfterDeposits(s, d, wv).1.Failed? && LoopError(AfterDeposits(s, d, wv).1.error)
    ensures AfterDeposits(s, d, wv).0 == Undone(s, d)
  {
    if d.outcome.Failed? {
      UndoAfterDeposits(s, d.stakers, d.next);
    } else {
      UndoAfterWithdraws(s, d.stakers, d.next, wv);
    }
  }

  lemma IntactIsRestored(s: State, u: State, m: StakerMap)
    requires u == s.(stakers := m)
    ensures Intact(s, u) <==> Restores(s.stakers, m)
  {
  }

  lemma UndoneIffFits(s: State, version: nat, d: DepositRun, u: State)
    requires d == ApplyDeposits(s.stakers, s.pending, s.version + 1, version)
    requires u == Undone(s, d)
    ensures Intact(s, u) <==> Fits(s.stakers, s.pending, s.version + 1, d.next)
  {
    IntactIsRestored(s, u, UndoDeposits(d.stakers, s.pending, d.next - 1, s.version));
    UndoIffFits(s.stakers, s.pending, s.version, version, d);
  }

  lemma LoopFailureIsGuarded(s: State, version: nat, wv: nat, update: bool)
    requires TryGrow(s, version, wv, update).1.Failed? && LoopError(TryGrow(s, version, wv, update).1.error)
    ensures Guarded(s, version, wv)
  {
  }

  lemma LoopFailureUndone(s: State, version: nat, wv: nat, update: bool, d: DepositRun)
    requires Settled(s)
    requires d == ApplyDeposits(s.stakers, s.pending, s.version + 1, version)
    requires TryGrow(s, version, wv, update).1.Failed? && LoopError(TryGrow(s, version, wv, update).1.error)
    ensures TryGrow(s, version, wv, update).0 == Undone(s, d)
  {
    LoopFailureIsGuarded(s, version, wv, update);
    GuardsPass(s, version, wv, update, d);
    AfterDepositsUndoes(s, d, wv);
  }

  lemma LoopFailureByRun(s: State, version: nat, wv: nat, update: bool, d: DepositRun)
    requires Settled(s)
    requires d == ApplyDeposits(s.stakers, s.pending, s.version + 1, version)
    requires TryGrow(s, version, wv, update).1.Failed? && LoopError(TryGrow(s, version, wv, update).1.error)
    ensures Intact(s, TryGrow(s, version, wv, update).0) <==> Fits(s.stakers, s.pending, s.version + 1, d.next)
  {
    LoopFailureUndone(s, version, wv, update, d);
    UndoneIffFits(s, version, d, TryGrow(s, version, wv, update).0);
  }

  lemma FirstStop(s: State, version: nat, next: nat, d: DepositRun)
    requires d == ApplyDeposits(s.stakers, s.pending, s.version + 1, version)
    requires StopsAt(s.stakers, s.pending, s.version + 1, version, next)
    ensures d.next == next
  {
    RunStops(s.stakers, s.pending, s.version + 1, version, d);
    StopsOnce(s.stakers, s.pending, s.version + 1, version, d.next, next);
  }

  /**
   A grow that fails inside a loop gives the ledger back exactly when no balance outgrows 64 bits
   before `next`, the first version that cannot be applied.
   */
  lemma LoopFailureRollback(s: State, version: nat, wv: nat, update: bool, next: nat)
    requires Settled(s)
    requires StopsAt(s.stakers, s.pending, s.version + 1, version, next)
    requires TryGrow(s, version, wv, update).1.Failed? && LoopError(TryGrow(s, version, wv, update).1.error)
    ensures Covers(s.pending, s.version + 1, next)
    ensures Intact(s, TryGrow(s, version, wv, update).0) <==> Fits(s.stakers, s.pending, s.version + 1, next)
  {
    var d := ApplyDeposits(s.stakers, s.pending, s.version + 1, version);
    FirstStop(s, version, next, d);
    LoopFailureByRun(s, version, wv, update, d);
  }

  /**
   A grow whose withdraw target lies beyond the queue undoes nothing: it leaves the ledger intact
   only if no deposit was due.
   */
  lemma ShortQueueRollback(s: State, version: nat, wv: nat, update: bool)
    requires TryGrow(s, version, wv, update).1 == Failed(WithdrawsFallShort)
    ensures Intact(s, TryGrow(s, version, wv, update).0) <==> version == s.version
  {
    var d := ApplyDeposits(s.stakers, s.pending, s.version + 1, version);
    assert d.outcome.Done?;
    if version > s.version {
      AppliedIsNotRestored(s, version);
    }
  }

  /** Every other failure of a grow comes before its loops and changes nothing. */
  lemma EarlyFailureKeeps(s: State, version: nat, wv: nat, update: bool)
    requires TryGrow(s, version, wv, update).1.Failed?
    ensures var (s', o) := TryGrow(s, version, wv, update);
            LoopError(o.error) || o.error == WithdrawsFallShort || s' == s
  {
  }

  /** A withdraw loop that advanced no version stamped nobody. */
  lemma NothingStamped(m: StakerMap, q: seq<Withdraw>, target: nat, feed: nat)
    requires forall w | w in q :: w.withdrawVersion > feed
    ensures var r := ApplyWithdraws(m, q, target, map[], feed);
            r.latest > feed || (r.stakers == m && r.prev == map[])
  {
    if q != [] && q[0].withdrawVersion <= target && q[0].stakerIndex in m {
      var k, v := q[0].stakerIndex, q[0].withdrawVersion;
      LatestRises(m[k := m[k].(withdrawVersion := v)], q[1..], target, map[k := m[k].withdrawVersion], v, feed);
    }
  }

  lemma {:induction false} LatestRises(m: StakerMap, q: seq<Withdraw>, target: nat, prev: map<nat, nat>, latest: nat, feed: nat)
    requires latest > feed
    requires forall w | w in q :: w.withdrawVersion > feed
    ensures ApplyWithdraws(m, q, target, prev, latest).latest > feed
    decreases |q|
  {
    if q != [] && q[0].withdrawVersion <= target && q[0].stakerIndex in m {
      var k, v := q[0].stakerIndex, q[0].withdrawVersion;
      LatestRises(m[k := m[k].(withdrawVersion := v)], q[1..], target,
                  if k in prev then prev else prev[k := m[k].withdrawVersion], v, feed);
    }
  }

  /** A completed grow, downgraded again, has undone exactly its deposits. */
  lemma GrownAndUndone(s: State, d: DepositRun, wv: nat)
    requires s.prev == map[] && (s.queue == [] ==> wv <= s.withdrawVersion)
    requires d.next >= 1 && Covers(s.pending, s.version + 1, d.next)
    requires AfterDeposits(s, d, wv).1.Done?
    ensures Downgrade(AfterDeposits(s, d, wv).0, d.next - 1) == Undone(s, d)
  {
    if wv > s.withdrawVersion {
      DowngradeBoth(d.stakers, s.pending, s.queue, wv, s.withdrawVersion, d.next - 1, s.version);
    } else {
      RestoreNothing(UndoDeposits(d.stakers, s.pending, d.next - 1, s.version));
    }
  }

  /** What a balance update leaves when a change names an unknown staker. */
  function AbandonedUpdate(g: State, version: nat, wv: nat): State
    requires Covers(g.pending, g.version + 1, version + 1)
  {
    if version > 1 || wv > g.withdrawVersion then Downgrade(g, version) else g
  }

  /** The undo of a balance update is skipped: a first deposit has come without withdraws. */
  predicate Skipped(s: State, version: nat, wv: nat) {
    s.version == 0 && version == 1 && wv == s.withdrawVersion
  }

  /** The work of a grow that has something to do is done by its loops. */
  lemma GrowIsLoops(s: State, version: nat, wv: nat, d: DepositRun)
    requires d == ApplyDeposits(s.stakers, s.pending, s.version + 1, version)
    requires TryGrow(s, version, wv, false).1.Done?
    ensures version >= s.version && wv >= s.withdrawVersion
    ensures if version == s.version && wv == s.withdrawVersion then TryGrow(s, version, wv, false).0 == s
            else (s.queue == [] ==> wv <= s.withdrawVersion) && TryGrow(s, version, wv, false) == AfterDeposits(s, d, wv)
    ensures d.next == version + 1
  {
    if Guarded(s, version, wv) {
      GuardsPass(s, version, wv, false, d);
    } else {
      GuardsStop(s, version, wv, false);
    }
  }

  lemma AbandonedIsUndone(s: State, version: nat, wv: nat, d: DepositRun)
    requires s.prev == map[] && !Skipped(s, version, wv)
    requires d == ApplyDeposits(s.stakers, s.pending, s.version + 1, version)
    requires TryGrow(s, version, wv, false).1.Done?
    ensures AbandonedUpdate(TryGrow(s, version, wv, false).0, version, wv) == Undone(s, d)
  {
    GrowIsLoops(s, version, wv, d);
    if version > s.version || wv > s.withdrawVersion {
      GrownAndUndone(s, d, wv);
    } else {
      RestoreNothing(s.stakers);
    }
  }

  /** With its undo skipped, the update leaves the first deposit applied. */
  lemma SkippedIsNotIntact(s: State, version: nat, wv: nat)
    requires Skipped(s, version, wv)
    requires TryGrow(s, version, wv, false).1.Done?
    ensures !Intact(s, AbandonedUpdate(TryGrow(s, version, wv, false).0, version, wv))
  {
    AppliedIsNotRestored(s, version);
  }

  lemma AbandonedByRun(s: State, version: nat, wv: nat, d: DepositRun, u: State)
    requires Settled(s) && !Skipped(s, version, wv)
    requires d == ApplyDeposits(s.stakers, s.pending, s.version + 1, version)
    requires TryGrow(s, version, wv, false).1.Done? && u == AbandonedUpdate(TryGrow(s, version, wv, false).0, version, wv)
    ensures d.next == version + 1
    ensures Intact(s, u) <==> Fits(s.stakers, s.pending, s.version + 1, d.next)
  {
    GrowIsLoops(s, version, wv, d);
    AbandonedIsUndone(s, version, wv, d);
    UndoneIffFits(s, version, d, u);
  }

  lemma AbandonedIffFits(s: State, version: nat, wv: nat)
    requires Settled(s)
    requires TryGrow(s, version, wv, false).1.Done?
    ensures Covers(s.pending, s.version + 1, version + 1)
    ensures Intact(s, AbandonedUpdate(TryGrow(s, version, wv, false).0, version, wv))
       <==> Fits(s.stakers, s.pending, s.version + 1, version + 1) && !Skipped(s, version, wv)
  {
    if Skipped(s, version, wv) {
      SkippedIsNotIntact(s, version, wv);
    } else {
      var d := ApplyDeposits(s.stakers, s.pending, s.version + 1, version);
      AbandonedByRun(s, version, wv, d, AbandonedUpdate(TryGrow(s, version, wv, false).0, version, wv));
    }
  }

  /**
   A balance update that fails on an unknown staker has already grown. It gives the ledger back
   exactly when no balance outgrew 64 bits and the undo was not skipped, which happens just for a
   first deposit (feed version 0 to 1) that comes without withdraws.
   */
  lemma ChangeFailureRollback(s: State, data: RawData, version: nat, wv: nat)
    requires Settled(s) && s.version == data.version
    requires TryGrow(s, version, wv, false).1.Done?
    requires ApplyChanges(s, data, version, wv).1.Failed?
    ensures Covers(s.pending, s.version + 1, version + 1)
    ensures Intact(s, ApplyChanges(s, data, version, wv).0)
       <==> Fits(s.stakers, s.pending, s.version + 1, version + 1) && !Skipped(s, version, wv)
  {
    assert ApplyChanges(s, data, version, wv).0 == AbandonedUpdate(TryGrow(s, version, wv, false).0, version, wv);
    AbandonedIffFits(s, version, wv);
  }

  /** The other failures of a balance update are those of the grow it starts with. */
  lemma ApplyFailureIsGrowFailure(s: State, data: RawData, version: nat, wv: nat)
    ensures var (s', o) := ApplyChanges(s, data, version, wv);
            var (g, go) := TryGrow(s, version, wv, false);
            && (s.version != data.version ==> s' == s && o == Failed(VersionMismatch))
            && (s.version == data.version && go.Failed? ==> s' == g && o == go)
            && (s.version == data.version && go.Done? && o.Failed? ==> o.error == UnknownStaker)
  {
  }
}
