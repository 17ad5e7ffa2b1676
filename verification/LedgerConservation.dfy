/** Nothing is created or lost between the stakers' balances and the cached deposits. */
module LedgerConservation {
  import opened Prelude
  import opened Ledger
  import opened LedgerForms
  import opened LedgerRollback
  import opened LedgerPath

  ghost function BalanceMap(m: StakerMap): map<nat, nat> {
    map k | k in m :: m[k].balance
  }

  ghost function AmountMap(p: Pending): map<nat, nat> {
    map v | v in p :: p[v].amount
  }

  /** Everything the stakers hold plus everything that is cached for them. */
  ghost function Total(s: State): nat {
    SumMap(BalanceMap(s.stakers)) + SumMap(AmountMap(s.pending))
  }

  /** How many additions wrap when the deposits of versions `lo .. hi - 1` are applied. */
  ghost function Wraps(m: StakerMap, p: Pending, lo: nat, hi: nat): nat
    requires Covers(p, lo, hi)
    decreases hi - lo
  {
    if lo >= hi then 0
    else (if BalanceOf(m, p[lo].stakerIndex) + p[lo].amount < TWO64 then 0 else 1) + Wraps(AddDeposit(m, p[lo]), p, lo + 1, hi)
  }

  lemma {:induction false} NoWraps(m: StakerMap, p: Pending, lo: nat, hi: nat)
    requires Covers(p, lo, hi)
    ensures Wraps(m, p, lo, hi) == 0 <==> NoWrap(m, p, lo, hi)
    decreases hi - lo
  {
    if lo < hi {
      NoWraps(AddDeposit(m, p[lo]), p, lo + 1, hi);
    }
  }

  ghost function RangeSum(p: Pending, lo: nat, hi: nat): nat
    requires Covers(p, lo, hi)
    decreases hi - lo
  {
    if lo >= hi then 0 else p[lo].amount + RangeSum(p, lo + 1, hi)
  }

  lemma AddDepositSum(m: StakerMap, d: Deposit)
    ensures SumMap(BalanceMap(AddDeposit(m, d))) + (if BalanceOf(m, d.stakerIndex) + d.amount < TWO64 then 0 else TWO64)
         == SumMap(BalanceMap(m)) + d.amount
  {
    var k, m1 := d.stakerIndex, AddDeposit(m, d);
    SumMapUpdate(BalanceMap(m), k, m1[k].balance);
    assert BalanceMap(m1) == BalanceMap(m)[k := m1[k].balance];
  }

  /** A run of deposits moves exactly the amounts it passes, but for 2^64 at each wrapping addition. */
  lemma {:induction false} RunSum(m: StakerMap, p: Pending, i: nat, version: nat, d: DepositRun)
    requires d == ApplyDeposits(m, p, i, version)
    ensures SumMap(BalanceMap(d.stakers)) + TWO64 * Wraps(m, p, i, d.next)
         == SumMap(BalanceMap(m)) + RangeSum(p, i, d.next)
    decreases version + 1 - i
  {
    if d.next > i {
      AddDepositSum(m, p[i]);
      RunSum(AddDeposit(m, p[i]), p, i + 1, version, d);
    }
  }

  /** Dropping the versions that were applied takes exactly their amounts from the cache. */
  lemma {:induction false} DropSum(p: Pending, lo: nat, version: nat)
    requires lo <= version + 1 && Covers(p, lo, version + 1)
    requires forall v | v in p :: v >= lo
    ensures SumMap(AmountMap(p)) == RangeSum(p, lo, version + 1) + SumMap(AmountMap(DropPending(p, version)))
    decreases version + 1 - lo
  {
    if lo > version {
      assert DropPending(p, version) == p;
    } else {
      var p1 := p - {lo};
      SumMapSplit(AmountMap(p), lo);
      assert AmountMap(p1) == AmountMap(p) - {lo};
      DropSum(p1, lo + 1, version);
      assert DropPending(p1, version) == DropPending(p, version);
      RangeSumFrame(p, p1, lo + 1, version + 1);
    }
  }

  lemma {:induction false} RangeSumFrame(p: Pending, p': Pending, lo: nat, hi: nat)
    requires Covers(p, lo, hi) && Covers(p', lo, hi)
    requires forall v | lo <= v < hi :: p[v] == p'[v]
    ensures RangeSum(p, lo, hi) == RangeSum(p', lo, hi)
    decreases hi - lo
  {
    if lo < hi {
      RangeSumFrame(p, p', lo + 1, hi);
    }
  }

  lemma StampSum(m: StakerMap, due: seq<Withdraw>)
    ensures BalanceMap(Stamp(m, due)) == BalanceMap(m)
  {
  }

  /** Every cached deposit is newer than what has been fed. */
  ghost predicate PendingAhead(s: State) {
    forall v | v in s.pending :: v > s.version
  }

  lemma GrownSum(s: State, version: nat, wv: nat, d: DepositRun)
    requires PendingAhead(s) && version >= s.version
    requires d == ApplyDeposits(s.stakers, s.pending, s.version + 1, version) && d.outcome.Done?
    ensures Total(Grown(s, version, wv, d)) + TWO64 * Wraps(s.stakers, s.pending, s.version + 1, version + 1) == Total(s)
  {
    RunSum(s.stakers, s.pending, s.version + 1, version, d);
    DropSum(s.pending, s.version + 1, version);
    StampSum(d.stakers, Due(s.queue, wv));
  }

  lemma NoWrapsIffFits(s: State, version: nat)
    requires Covers(s.pending, s.version + 1, version + 1)
    ensures Wraps(s.stakers, s.pending, s.version + 1, version + 1) == 0 <==> Fits(s.stakers, s.pending, s.version + 1, version + 1)
  {
    NoWraps(s.stakers, s.pending, s.version + 1, version + 1);
    NoWrapIffFits(s.stakers, s.pending, s.version + 1, version + 1);
  }

  /**
   A successful grow keeps the total, short of 2^64 for every addition that wraps: so it keeps it
   exactly when no staker's balance outgrows 64 bits.
   */
  lemma GrowConserves(s: State, version: nat, wv: nat)
    requires Settled(s) && PendingAhead(s)
    requires Grow(s, version, wv).1.Done?
    ensures Covers(s.pending, s.version + 1, version + 1)
    ensures Total(Grow(s, version, wv).0) + TWO64 * Wraps(s.stakers, s.pending, s.version + 1, version + 1) == Total(s)
    ensures Total(Grow(s, version, wv).0) == Total(s) <==> Fits(s.stakers, s.pending, s.version + 1, version + 1)
  {
    var d := ApplyDeposits(s.stakers, s.pending, s.version + 1, version);
    GrowByRun(s, version, wv, d);
    GrownSum(s, version, wv, d);
    NoWrapsIffFits(s, version);
  }

  /** A failure that leaves the ledger intact keeps the total: an empty shell holds nothing. */
  lemma IntactConserves(s: State, s': State)
    requires Intact(s, s')
    ensures Total(s') == Total(s)
  {
    forall k | k in s.stakers
      ensures k in s'.stakers && s'.stakers[k] == s.stakers[k]
    {
      assert RestoredAt(s.stakers, s'.stakers, k);
    }
    forall k | k in s'.stakers && k !in s.stakers
      ensures s'.stakers[k].balance == 0
    {
      assert RestoredAt(s.stakers, s'.stakers, k);
    }
    SumMapZeros(BalanceMap(s.stakers), BalanceMap(s'.stakers));
  }

  lemma ShortQueueLeaves(s: State, version: nat, wv: nat, update: bool)
    requires TryGrow(s, version, wv, update).1 == Failed(WithdrawsFallShort)
    ensures var d := ApplyDeposits(s.stakers, s.pending, s.version + 1, version);
            d.next == version + 1 && TryGrow(s, version, wv, update).0 == s.(stakers := d.stakers)
  {
  }

  /** The exit that undoes nothing counts its deposits twice: as balances and still as pending. */
  lemma ShortQueueCountsTwice(s: State, version: nat, wv: nat, update: bool)
    requires TryGrow(s, version, wv, update).1 == Failed(WithdrawsFallShort)
    ensures Covers(s.pending, s.version + 1, version + 1)
    ensures Total(TryGrow(s, version, wv, update).0) + TWO64 * Wraps(s.stakers, s.pending, s.version + 1, version + 1)
         == Total(s) + RangeSum(s.pending, s.version + 1, version + 1)
  {
    var d := ApplyDeposits(s.stakers, s.pending, s.version + 1, version);
    ShortQueueLeaves(s, version, wv, update);
    RunSum(s.stakers, s.pending, s.version + 1, version, d);
  }

  // ---- Caching --------------------------------------------------------------------------------

  /** Copying the event's remaining deposits adds exactly their amounts. */
  lemma {:induction false} CacheSum(p: Pending, deposits: Pending, next: nat, i: nat, p': Pending)
    requires i <= |deposits|
    requires CacheDeposits(p, deposits, next, i) == (p', Done)
    ensures Covers(deposits, next + i, next + |deposits|)
    ensures SumMap(AmountMap(p')) == SumMap(AmountMap(p)) + RangeSum(deposits, next + i, next + |deposits|)
    decreases |deposits| - i
  {
    if i < |deposits| {
      var v := next + i;
      CacheSum(p[v := deposits[v]], deposits, next, i + 1, p');
      SumMapUpdate(AmountMap(p), v, deposits[v].amount);
      assert AmountMap(p[v := deposits[v]]) == AmountMap(p)[v := deposits[v].amount];
    }
  }

  /** Pigeonhole: `n` keys that include a run of `n` numbers are that run. */
  lemma {:induction false} KeysAreRange(keys: set<nat>, lo: nat, n: nat)
    requires |keys| == n && forall v | lo <= v < lo + n :: v in keys
    ensures forall v :: v in keys <==> lo <= v < lo + n
  {
    if n == 0 {
      assert keys == {};
    } else {
      var x := lo + n - 1;
      KeysAreRange(keys - {x}, lo, n - 1);
      assert forall v :: v in keys <==> v in keys - {x} || v == x;
    }
  }

  lemma EventSum(deposits: Pending, next: nat)
    requires Covers(deposits, next, next + |deposits|)
    ensures SumMap(AmountMap(deposits)) == RangeSum(deposits, next, next + |deposits|)
  {
    assert |deposits.Keys| == |deposits|;
    KeysAreRange(deposits.Keys, next, |deposits|);
    if |deposits| > 0 {
      DropSum(deposits, next, next + |deposits| - 1);
      assert DropPending(deposits, next + |deposits| - 1) == map[];
    } else {
      assert deposits == map[];
    }
    assert AmountMap(map[]) == map[];
  }

  /** A successful cache call raises the total by exactly the event's deposits, none left out. */
  lemma CacheConserves(s: State, deposits: Pending, next: nat, withdraws: seq<Withdraw>)
    requires Cache(s, deposits, next, withdraws).1.Done?
    ensures Total(Cache(s, deposits, next, withdraws).0) == Total(s) + SumMap(AmountMap(deposits))
  {
    CachedPending(s, deposits, next, withdraws);
    CachedAmounts(s.pending, deposits, next, Cache(s, deposits, next, withdraws).0.pending);
  }

  lemma CachedAmounts(p: Pending, deposits: Pending, next: nat, p': Pending)
    requires CacheDeposits(p, deposits, next, 0) == (p', Done)
    ensures SumMap(AmountMap(p')) == SumMap(AmountMap(p)) + SumMap(AmountMap(deposits))
  {
    CacheSum(p, deposits, next, 0, p');
    EventSum(deposits, next);
  }

  lemma CachedPending(s: State, deposits: Pending, next: nat, withdraws: seq<Withdraw>)
    requires Cache(s, deposits, next, withdraws).1.Done?
    ensures CacheDeposits(s.pending, deposits, next, 0) == (Cache(s, deposits, next, withdraws).0.pending, Done)
    ensures Cache(s, deposits, next, withdraws).0.stakers == s.stakers
  {
  }
}
