/**
 Two ways to the same feed version: resetting to the snapshot there, or resetting to it earlier and
 growing. When they agree, staker by staker.
 */
module CatchUp {
  import opened Prelude
  import opened Ledger
  import opened LedgerForms
  import opened LedgerRollback
  import opened LedgerPath
  import opened LedgerRuns
  import opened Snapshot

  /** A record's deposits of versions `lo .. hi - 1`, in list order. */
  function Between(r: Record, vs: seq<ValidatorDeposit>, lo: nat, hi: nat): seq<Deposit> {
    if vs == [] then []
    else
      var last := vs[|vs| - 1];
      Between(r, vs[..|vs| - 1], lo, hi) + if lo <= last.version < hi then [DepositOf(r, last)] else []
  }

  /** Behind the feed version, the list is in version order. */
  predicate OrderedFrom(vs: seq<ValidatorDeposit>, feed: nat) {
    forall i, j | 0 <= i < j < |vs| :: vs[i].version > feed ==> vs[i].version < vs[j].version
  }

  /** No version behind the feed is used twice in the snapshot. */
  ghost predicate DistinctWaiting(rs: seq<Record>, feed: nat) {
    forall v: nat, i: nat, j: nat, i': nat, j': nat ::
      v > feed && IsAt(rs, v, i, j) && IsAt(rs, v, i', j') ==> i == i' && j == j'
  }

  predicate Ordered(rs: seq<Record>, feed: nat) {
    forall i | 0 <= i < |rs| :: OrderedFrom(rs[i].validators, feed)
  }

  lemma {:induction false} BetweenNone(r: Record, vs: seq<ValidatorDeposit>, lo: nat, hi: nat)
    requires forall j | 0 <= j < |vs| :: vs[j].version < lo
    ensures Between(r, vs, lo, hi) == []
    decreases |vs|
  {
    if vs != [] {
      BetweenNone(r, vs[..|vs| - 1], lo, hi);
    }
  }

  /** A version that no validator has takes no place in the range. */
  lemma {:induction false} BetweenWithout(r: Record, vs: seq<ValidatorDeposit>, lo: nat, hi: nat)
    requires lo < hi && forall j | 0 <= j < |vs| :: vs[j].version != lo
    ensures Between(r, vs, lo, hi) == Between(r, vs, lo + 1, hi)
    decreases |vs|
  {
    if vs != [] {
      BetweenWithout(r, vs[..|vs| - 1], lo, hi);
    }
  }

  /** The earliest version of the range comes first in an ordered list. */
  lemma {:induction false} BetweenFirst(r: Record, vs: seq<ValidatorDeposit>, feed: nat, lo: nat, hi: nat, j: nat)
    requires OrderedFrom(vs, feed) && feed < lo < hi
    requires j < |vs| && vs[j].version == lo
    ensures Between(r, vs, lo, hi) == [DepositOf(r, vs[j])] + Between(r, vs, lo + 1, hi)
    decreases |vs|
  {
    var before := vs[..|vs| - 1];
    if j < |before| {
      BetweenFirst(r, before, feed, lo, hi, j);
    } else {
      assert forall i | 0 <= i < |before| :: before[i] == vs[i] && vs[i].version < lo;
      BetweenNone(r, before, lo, hi);
      BetweenNone(r, before, lo + 1, hi);
    }
  }

  lemma ValidatorsAppend(ds: seq<Deposit>, d: Deposit)
    ensures Validators(ds + [d]) == Validators(ds) + [d.validator]
  {
  }

  /** With the last validator covered, the ordered list before it has none in the range. */
  lemma NoneBeforeFed(r: Record, vs: seq<ValidatorDeposit>, feed: nat, hi: nat)
    requires vs != [] && OrderedFrom(vs, feed) && vs[|vs| - 1].version <= feed
    ensures Between(r, vs[..|vs| - 1], feed + 1, hi) == []
  {
    var before := vs[..|vs| - 1];
    assert forall j | 0 <= j < |before| :: before[j] == vs[j] && vs[j].version < feed + 1;
    BetweenNone(r, before, feed + 1, hi);
  }

  /** The covered validators at the later feed are those at the earlier one, then the range's. */
  lemma {:induction false} FedGrows(r: Record, vs: seq<ValidatorDeposit>, feed: nat, feed': nat)
    requires OrderedFrom(vs, feed) && feed <= feed'
    ensures Fed(vs, feed') == Fed(vs, feed) + Validators(Between(r, vs, feed + 1, feed' + 1))
    decreases |vs|
  {
    if vs != [] {
      var before, last := vs[..|vs| - 1], vs[|vs| - 1];
      var ds := Between(r, before, feed + 1, feed' + 1);
      FedGrows(r, before, feed, feed');
      if last.version <= feed {
        NoneBeforeFed(r, vs, feed, feed' + 1);
      } else if last.version <= feed' {
        ValidatorsAppend(ds, DepositOf(r, last));
      } else {
        assert ds + [] == ds;
      }
    }
  }

  lemma {:induction false} AccumulateAppend(b: uint64, ds: seq<Deposit>, d: Deposit)
    ensures Accumulate(b, ds + [d]) == WrapAdd(Accumulate(b, ds), d.amount)
    decreases |ds|
  {
    if ds == [] {
      assert ([d])[1..] == [];
      assert ds + [d] == [d];
      assert Accumulate(b, [d]) == Accumulate(WrapAdd(b, d.amount), []);
    } else {
      assert (ds + [d])[1..] == ds[1..] + [d];
      AccumulateAppend(WrapAdd(b, ds[0].amount), ds[1..], d);
    }
  }

  lemma {:induction false} AccumulateFrom(b: uint64, ds: seq<Deposit>)
    ensures Accumulate(b, ds) == WrapAdd(b, Accumulate(0, ds))
    decreases |ds|
  {
    if ds != [] {
      var before, last := ds[..|ds| - 1], ds[|ds| - 1];
      assert ds == before + [last];
      AccumulateAppend(b, before, last);
      AccumulateAppend(0, before, last);
      AccumulateFrom(b, before);
    }
  }

  /** What waits at the earlier feed is what waits at the later one plus the range's amounts. */
  lemma {:induction false} WaitingSplits(r: Record, vs: seq<ValidatorDeposit>, feed: nat, feed': nat)
    requires feed <= feed'
    ensures WaitingSum(vs, feed) == WrapAdd(WaitingSum(vs, feed'), Accumulate(0, Between(r, vs, feed + 1, feed' + 1)))
    decreases |vs|
  {
    if vs != [] {
      var before, last := vs[..|vs| - 1], vs[|vs| - 1];
      var ds := Between(r, before, feed + 1, feed' + 1);
      WaitingSplits(r, before, feed, feed');
      AccumulateAppend(0, ds, DepositOf(r, last));
      assert ds + [] == ds;
    }
  }

  // ---- The cached deposits of one staker ------------------------------------------------------

  lemma WaitingOwner(rs: seq<Record>, feed: nat, i: nat, v: nat)
    requires i < |rs| && DistinctStakers(rs) && DistinctWaiting(rs, feed)
    requires v in AllWaiting(rs, feed)
    ensures AllWaiting(rs, feed)[v].stakerIndex == rs[i].stakerIndex ==>
              exists j :: 0 <= j < |rs[i].validators| && rs[i].validators[j].version == v
                          && AllWaiting(rs, feed)[v] == DepositOf(rs[i], rs[i].validators[j])
    ensures AllWaiting(rs, feed)[v].stakerIndex != rs[i].stakerIndex ==>
              forall j | 0 <= j < |rs[i].validators| :: rs[i].validators[j].version != v
  {
    AllWaitingEntry(rs, feed, v);
    var i', j' :| WaitsAt(rs, feed, v, AllWaiting(rs, feed)[v], i', j');
    forall j: nat | j < |rs[i].validators| && rs[i].validators[j].version == v
      ensures i == i'
    {
      assert IsAt(rs, v, i, j) && IsAt(rs, v, i', j');
    }
  }

  /** Read in version order, a staker's cached deposits are its list. */
  lemma {:induction false} CachedIsListed(rs: seq<Record>, feed: nat, i: nat, lo: nat, hi: nat)
    requires i < |rs| && DistinctStakers(rs) && DistinctWaiting(rs, feed) && Ordered(rs, feed)
    requires feed < lo <= hi && Covers(AllWaiting(rs, feed), lo, hi)
    ensures DepositsFor(AllWaiting(rs, feed), rs[i].stakerIndex, lo, hi) == Between(rs[i], rs[i].validators, lo, hi)
    decreases hi - lo
  {
    var r := rs[i];
    if lo == hi {
      EmptyRange(r, r.validators, lo);
    } else {
      CachedIsListed(rs, feed, i, lo + 1, hi);
      WaitingOwner(rs, feed, i, lo);
      if j: nat :| j < |r.validators| && r.validators[j].version == lo {
        BetweenFirst(r, r.validators, feed, lo, hi, j);
      } else {
        BetweenWithout(r, r.validators, lo, hi);
      }
    }
  }

  lemma {:induction false} EmptyRange(r: Record, vs: seq<ValidatorDeposit>, lo: nat)
    ensures Between(r, vs, lo, lo) == []
    decreases |vs|
  {
    if vs != [] {
      EmptyRange(r, vs[..|vs| - 1], lo);
    }
  }

  lemma {:induction false} WaitingDrops(r: Record, vs: seq<ValidatorDeposit>, feed: nat, feed': nat)
    requires feed <= feed'
    ensures DropPending(Waiting(r, vs, feed), feed') == Waiting(r, vs, feed')
    decreases |vs|
  {
    if vs != [] {
      WaitingDrops(r, vs[..|vs| - 1], feed, feed');
    }
  }

  lemma DropUnion(a: Pending, b: Pending, feed: nat)
    ensures DropPending(a + b, feed) == DropPending(a, feed) + DropPending(b, feed)
  {
  }

  /** The cache of the earlier snapshot, cut at the later feed, is the cache of the later one. */
  lemma {:induction false} AllWaitingDrops(rs: seq<Record>, feed: nat, feed': nat)
    requires feed <= feed'
    ensures DropPending(AllWaiting(rs, feed), feed') == AllWaiting(rs, feed')
    decreases |rs|
  {
    if rs != [] {
      var before, last := rs[..|rs| - 1], rs[|rs| - 1];
      AllWaitingDrops(before, feed, feed');
      WaitingDrops(last, last.validators, feed, feed');
      DropUnion(AllWaiting(before, feed), Waiting(last, last.validators, feed), feed');
    }
  }

  // ---- One staker, both ways ------------------------------------------------------------------

  /** The staker's new deposits are all it ever held: then the chain's balance is their sum. */
  predicate BalanceIsWaiting(r: Record, feed: nat) {
    LastBalance(r) == WaitingSum(r.validators, feed)
  }

  /** A staker first covered on the way. */
  predicate CoveredOnTheWay(r: Record, feed: nat, feed': nat) {
    Fed(r.validators, feed) == [] && Fed(r.validators, feed') != []
  }

  /**
   Growing a staker of the earlier snapshot gives the staker of the later one, but for its withdraw
   version; for one first covered on the way the balance agrees exactly when the chain's balance is
   the sum of its waiting deposits.
   */
  lemma StakerBothWays(r: Record, feed: nat, feed': nat)
    requires feed <= feed' && OrderedFrom(r.validators, feed)
    requires RecordFits(r, feed) && RecordFits(r, feed')
    ensures var grown := Extend(StakerAt(r, feed), Between(r, r.validators, feed + 1, feed' + 1));
            var direct := StakerAt(r, feed');
            && (grown.Some? <==> direct.Some?)
            && (grown.Some? ==>
                  && grown.value.address == direct.value.address
                  && grown.value.validators == direct.value.validators
                  && (grown.value.balance == direct.value.balance <==>
                        !CoveredOnTheWay(r, feed, feed') || BalanceIsWaiting(r, feed))
                  && grown.value.withdrawVersion == if CoveredOnTheWay(r, feed, feed') then 0 else r.withdrawVersion)
  {
    var ds := Between(r, r.validators, feed + 1, feed' + 1);
    FedGrows(r, r.validators, feed, feed');
    WaitingSplits(r, r.validators, feed, feed');
    var w, w', sum := WaitingSum(r.validators, feed), WaitingSum(r.validators, feed'), Accumulate(0, ds);
    var b := LastBalance(r);
    AccumulateFrom(WrapSub(b, w), ds);
    BetweenAddress(r, r.validators, feed + 1, feed' + 1);
    assert WrapAdd(WrapSub(b, w), sum) == WrapSub(b, w');
    assert sum == WrapSub(b, w') <==> b == w;
    if Fed(r.validators, feed) == [] {
      assert [] + Validators(ds) == Validators(ds);
    }
  }

  lemma {:induction false} BetweenAddress(r: Record, vs: seq<ValidatorDeposit>, lo: nat, hi: nat)
    ensures forall d | d in Between(r, vs, lo, hi) :: d.stakerAddr == r.address
    decreases |vs|
  {
    if vs != [] {
      BetweenAddress(r, vs[..|vs| - 1], lo, hi);
    }
  }

  // ---- Withdraw stamps ------------------------------------------------------------------------

  lemma {:induction false} DueOfSorted(q: seq<Withdraw>, wv: nat)
    requires SortedQueue(q)
    ensures forall w :: w in Due(q, wv) <==> w in q && w.withdrawVersion <= wv
    decreases |q|
  {
    if q != [] && q[0].withdrawVersion <= wv {
      DueOfSorted(q[1..], wv);
      assert forall w :: w in q <==> w == q[0] || w in q[1..];
      assert forall w :: w in Due(q, wv) <==> w == q[0] || w in Due(q[1..], wv);
    }
  }

  /** The only withdraw a snapshot queues for a staker is its own latest one. */
  lemma StampOfSnapshot(s: State, rs: seq<Record>, feed: nat, feedWithdraw: nat, i: nat, wv: nat, otherwise: nat)
    requires IsSnapshot(s, rs, feed, feedWithdraw) && DistinctStakers(rs) && i < |rs|
    ensures var r := rs[i];
            Latest(Due(s.queue, wv), r.stakerIndex, otherwise)
            == if feedWithdraw < r.withdrawVersion <= wv then r.withdrawVersion else otherwise
  {
    var r, due := rs[i], Due(s.queue, wv);
    var v := Latest(due, r.stakerIndex, otherwise);
    LatestIsDue(due, r.stakerIndex, otherwise);
    DueOfSorted(s.queue, wv);
    var own, latest := Withdraw(r.stakerIndex, r.withdrawVersion), Withdraw(r.stakerIndex, v);
    AheadEntry(rs, feedWithdraw, own);
    AheadEntry(rs, feedWithdraw, latest);
    if latest in due {
      var j :| 0 <= j < |rs| && rs[j].withdrawVersion > feedWithdraw && latest == Withdraw(rs[j].stakerIndex, rs[j].withdrawVersion);
      assert j == i;
    }
  }

  // ---- The theorem ----------------------------------------------------------------------------

  /** The withdraw version survives the detour: fed before, never set, or due on the way. */
  predicate StampAgrees(r: Record, feed: nat, feed': nat, feedWithdraw: nat, feedWithdraw': nat) {
    !CoveredOnTheWay(r, feed, feed') || r.withdrawVersion == 0 || feedWithdraw < r.withdrawVersion <= feedWithdraw'
  }

  lemma SnapshotSettled(s: State, rs: seq<Record>, feed: nat, feedWithdraw: nat)
    requires IsSnapshot(s, rs, feed, feedWithdraw)
    ensures Settled(s)
  {
    forall w | w in s.queue
      ensures w.withdrawVersion > feedWithdraw
    {
      AheadEntry(rs, feedWithdraw, w);
    }
  }

  lemma GrownForm(s: State, version: nat, wv: nat, k: nat)
    requires Settled(s) && Grow(s, version, wv).1.Done?
    ensures s.version <= version && s.withdrawVersion <= wv && Covers(s.pending, s.version + 1, version + 1)
    ensures GrownAt(s, version, wv, Grow(s, version, wv).0, k)
  {
    GrowForm(s, version, wv, k);
  }

  /** How the staker caught up by growing compares to the one a direct reset gives. */
  predicate BothWays(caught: Option<Staker>, direct: Option<Staker>, r: Record, feed: nat, feed': nat, feedWithdraw: nat, feedWithdraw': nat) {
    && (caught.Some? <==> direct.Some?)
    && (caught.Some? ==>
          && caught.value.address == direct.value.address
          && caught.value.validators == direct.value.validators
          && (caught.value.balance == direct.value.balance <==>
                !CoveredOnTheWay(r, feed, feed') || BalanceIsWaiting(r, feed))
          && (caught.value.withdrawVersion == direct.value.withdrawVersion <==>
                StampAgrees(r, feed, feed', feedWithdraw, feedWithdraw')))
  }

  /** The cache of a snapshot's ledger, read through the snapshot. */
  lemma SnapshotCache(s: State, rs: seq<Record>, feed: nat, feed': nat, feedWithdraw: nat, k: nat)
    requires IsSnapshot(s, rs, feed, feedWithdraw)
    requires feed <= feed' && Covers(s.pending, feed + 1, feed' + 1)
    ensures DropPending(s.pending, feed') == AllWaiting(rs, feed') && Covers(AllWaiting(rs, feed), feed + 1, feed' + 1)
    ensures DepositsFor(s.pending, k, feed + 1, feed' + 1) == DepositsFor(AllWaiting(rs, feed), k, feed + 1, feed' + 1)
  {
    var p := AllWaiting(rs, feed);
    forall v: nat
      ensures v in s.pending <==> v in p
      ensures v in p ==> s.pending[v] == p[v]
    {
      assert Waits(s.pending, v) == Waits(p, v);
    }
    assert s.pending == p;
    AllWaitingDrops(rs, feed, feed');
  }

  /** A record's staker and its cached deposits in the snapshot's ledger are those of its own list. */
  lemma SnapshotStaker(s: State, rs: seq<Record>, feed: nat, feed': nat, feedWithdraw: nat, i: nat)
    requires IsSnapshot(s, rs, feed, feedWithdraw) && i < |rs|
    requires DistinctStakers(rs) && Ordered(rs, feed) && DistinctWaiting(rs, feed)
    requires feed <= feed' && Covers(s.pending, feed + 1, feed' + 1)
    ensures var r := rs[i];
            && Lookup(s.stakers, r.stakerIndex) == StakerAt(r, feed)
            && DepositsFor(s.pending, r.stakerIndex, feed + 1, feed' + 1) == Between(r, r.validators, feed + 1, feed' + 1)
  {
    SnapshotCache(s, rs, feed, feed', feedWithdraw, rs[i].stakerIndex);
    StakersAt(rs, feed, i);
    CachedIsListed(rs, feed, i, feed + 1, feed' + 1);
  }

  /** Of the withdraws on the way only the record's own one counts for its staker, new or not. */
  predicate OwnWithdraws(r: Record, due: seq<Withdraw>, feedWithdraw: nat, feedWithdraw': nat) {
    var own := feedWithdraw < r.withdrawVersion <= feedWithdraw';
    && Latest(due, r.stakerIndex, 0) == (if own then r.withdrawVersion else 0)
    && Latest(due, r.stakerIndex, r.withdrawVersion) == r.withdrawVersion
  }

  lemma SnapshotWithdraws(s: State, rs: seq<Record>, feed: nat, feedWithdraw: nat, feedWithdraw': nat, i: nat)
    requires IsSnapshot(s, rs, feed, feedWithdraw) && DistinctStakers(rs) && i < |rs|
    ensures OwnWithdraws(rs[i], Due(s.queue, feedWithdraw'), feedWithdraw, feedWithdraw')
  {
    StampOfSnapshot(s, rs, feed, feedWithdraw, i, feedWithdraw', 0);
    StampOfSnapshot(s, rs, feed, feedWithdraw, i, feedWithdraw', rs[i].withdrawVersion);
  }

  /** `StakerBothWays` with the withdraws of the way, of which only the record's own one counts. */
  lemma StampedBothWays(r: Record, feed: nat, feed': nat, feedWithdraw: nat, feedWithdraw': nat, due: seq<Withdraw>, caught: Option<Staker>)
    requires feed <= feed' && OrderedFrom(r.validators, feed)
    requires RecordFits(r, feed) && RecordFits(r, feed')
    requires OwnWithdraws(r, due, feedWithdraw, feedWithdraw')
    requires caught == GrownStaker(StakerAt(r, feed), Between(r, r.validators, feed + 1, feed' + 1), due, r.stakerIndex)
    ensures BothWays(caught, StakerAt(r, feed'), r, feed, feed', feedWithdraw, feedWithdraw')
  {
    StakerBothWays(r, feed, feed');
  }

  /** The snapshot's side of the comparison: no loop of the ledger is in sight here. */
  lemma SnapshotSide(s: State, rs: seq<Record>, feed: nat, feed': nat, feedWithdraw: nat, feedWithdraw': nat, i: nat, g: State)
    requires IsSnapshot(s, rs, feed, feedWithdraw) && i < |rs|
    requires Acceptable(rs, feed) && Acceptable(rs, feed')
    requires Ordered(rs, feed) && DistinctWaiting(rs, feed)
    requires feed <= feed' && feedWithdraw <= feedWithdraw' && Covers(s.pending, s.version + 1, feed' + 1)
    requires GrownAt(s, feed', feedWithdraw', g, rs[i].stakerIndex)
    ensures BothWays(Lookup(g.stakers, rs[i].stakerIndex), Lookup(AllStakers(rs, feed'), rs[i].stakerIndex),
                     rs[i], feed, feed', feedWithdraw, feedWithdraw')
  {
    var r := rs[i];
    SnapshotStaker(s, rs, feed, feed', feedWithdraw, i);
    StakersAt(rs, feed', i);
    SnapshotWithdraws(s, rs, feed, feedWithdraw, feedWithdraw', i);
    StampedBothWays(r, feed, feed', feedWithdraw, feedWithdraw', Due(s.queue, feedWithdraw'), Lookup(g.stakers, r.stakerIndex));
  }

  /**
   Catch-up equivalence: take a snapshot acceptable at two feed versions, whose waiting deposits are
   listed in version order with no version used twice. If the reset to the earlier one can grow to
   the later one, then it has for each record the staker of the reset to the later one, with the same
   address and validators. Its balance and its withdraw version agree exactly under the conditions
   named.
   */
  lemma CatchUpEquivalence(s: State, rs: seq<Record>, feed: nat, feed': nat, feedWithdraw: nat, feedWithdraw': nat, i: nat)
    requires IsSnapshot(s, rs, feed, feedWithdraw) && i < |rs|
    requires Acceptable(rs, feed) && Acceptable(rs, feed')
    requires Ordered(rs, feed) && DistinctWaiting(rs, feed)
    requires Grow(s, feed', feedWithdraw').1.Done?
    ensures BothWays(Lookup(Grow(s, feed', feedWithdraw').0.stakers, rs[i].stakerIndex),
                     Lookup(AllStakers(rs, feed'), rs[i].stakerIndex),
                     rs[i], feed, feed', feedWithdraw, feedWithdraw')
  {
    SnapshotSettled(s, rs, feed, feedWithdraw);
    GrownForm(s, feed', feedWithdraw', rs[i].stakerIndex);
    SnapshotSide(s, rs, feed, feed', feedWithdraw, feedWithdraw', i, Grow(s, feed', feedWithdraw').0);
  }

  /** The cache after catching up is that of the reset to the later versions. */
  lemma CatchUpCache(s: State, rs: seq<Record>, feed: nat, feed': nat, feedWithdraw: nat, feedWithdraw': nat)
    requires IsSnapshot(s, rs, feed, feedWithdraw)
    requires Grow(s, feed', feedWithdraw').1.Done?
    ensures Grow(s, feed', feedWithdraw').0.pending == AllWaiting(rs, feed')
  {
    SnapshotSettled(s, rs, feed, feedWithdraw);
    GrownForm(s, feed', feedWithdraw', 0);
    SnapshotCache(s, rs, feed, feed', feedWithdraw, 0);
  }

  lemma {:induction false} DepositsForAbsent(p: Pending, k: nat, lo: nat, hi: nat)
    requires Covers(p, lo, hi) && forall v | lo <= v < hi :: p[v].stakerIndex != k
    ensures DepositsFor(p, k, lo, hi) == []
    decreases hi - lo
  {
    if lo < hi {
      DepositsForAbsent(p, k, lo + 1, hi);
    }
  }

  lemma UnlistedSide(s: State, rs: seq<Record>, feed: nat, feed': nat, feedWithdraw: nat, due: seq<Withdraw>, k: nat,
                     caught: Option<Staker>)
    requires IsSnapshot(s, rs, feed, feedWithdraw) && Covers(s.pending, feed + 1, feed' + 1)
    requires forall i | 0 <= i < |rs| :: rs[i].stakerIndex != k
    requires caught == GrownStaker(Lookup(s.stakers, k), DepositsFor(s.pending, k, feed + 1, feed' + 1), due, k)
    ensures caught == None
  {
    StakersKnown(rs, feed);
    assert Lookup(s.stakers, k) == Lookup(AllStakers(rs, feed), k);
    forall v | feed + 1 <= v < feed' + 1
      ensures s.pending[v].stakerIndex != k
    {
      assert Waits(s.pending, v) == Waits(AllWaiting(rs, feed), v);
      AllWaitingEntry(rs, feed, v);
      var i, j :| WaitsAt(rs, feed, v, s.pending[v], i, j);
    }
    DepositsForAbsent(s.pending, k, feed + 1, feed' + 1);
  }

  /** The detour brings no staker that the snapshot does not list. */
  lemma CaughtIsListed(s: State, rs: seq<Record>, feed: nat, feed': nat, feedWithdraw: nat, feedWithdraw': nat, k: nat)
    requires IsSnapshot(s, rs, feed, feedWithdraw)
    requires Grow(s, feed', feedWithdraw').1.Done?
    requires forall i | 0 <= i < |rs| :: rs[i].stakerIndex != k
    ensures k !in Grow(s, feed', feedWithdraw').0.stakers
  {
    SnapshotSettled(s, rs, feed, feedWithdraw);
    GrownForm(s, feed', feedWithdraw', k);
    UnlistedSide(s, rs, feed, feed', feedWithdraw, Due(s.queue, feedWithdraw'), k,
                 Lookup(Grow(s, feed', feedWithdraw').0.stakers, k));
  }

  /** The queue after catching up holds what the reset to the later versions queues. */
  lemma CatchUpQueue(s: State, rs: seq<Record>, feed: nat, feed': nat, feedWithdraw: nat, feedWithdraw': nat, w: Withdraw)
    requires IsSnapshot(s, rs, feed, feedWithdraw)
    requires Grow(s, feed', feedWithdraw').1.Done?
    ensures SortedQueue(Grow(s, feed', feedWithdraw').0.queue)
    ensures w in Grow(s, feed', feedWithdraw').0.queue <==> w in Ahead(rs, feedWithdraw')
  {
    SnapshotSettled(s, rs, feed, feedWithdraw);
    GrownForm(s, feed', feedWithdraw', 0);
    CutAbove(s.queue, feedWithdraw');
    AheadEntry(rs, feedWithdraw, w);
    AheadEntry(rs, feedWithdraw', w);
  }

  /** The detour makes no difference to the staker of this record. */
  predicate AgreesAt(r: Record, feed: nat, feed': nat, feedWithdraw: nat, feedWithdraw': nat) {
    CoveredOnTheWay(r, feed, feed') ==> BalanceIsWaiting(r, feed) && StampAgrees(r, feed, feed', feedWithdraw, feedWithdraw')
  }

  lemma AgreesIff(caught: Option<Staker>, direct: Option<Staker>, r: Record, feed: nat, feed': nat, feedWithdraw: nat, feedWithdraw': nat)
    requires BothWays(caught, direct, r, feed, feed', feedWithdraw, feedWithdraw') && direct == StakerAt(r, feed')
    ensures caught == direct <==> AgreesAt(r, feed, feed', feedWithdraw, feedWithdraw')
  {
  }

  ghost predicate SameStakers(m: StakerMap, m': StakerMap) {
    forall k: nat :: Lookup(m, k) == Lookup(m', k)
  }

  lemma CaughtStakers(s: State, rs: seq<Record>, feed: nat, feed': nat, feedWithdraw: nat, feedWithdraw': nat, m: StakerMap)
    requires IsSnapshot(s, rs, feed, feedWithdraw)
    requires Acceptable(rs, feed) && Acceptable(rs, feed')
    requires Ordered(rs, feed) && DistinctWaiting(rs, feed)
    requires Grow(s, feed', feedWithdraw').1.Done? && m == Grow(s, feed', feedWithdraw').0.stakers
    ensures SameStakers(m, AllStakers(rs, feed')) <==>
              forall i | 0 <= i < |rs| :: AgreesAt(rs[i], feed, feed', feedWithdraw, feedWithdraw')
  {
    var direct := AllStakers(rs, feed');
    forall i: nat | i < |rs|
      ensures Lookup(m, rs[i].stakerIndex) == Lookup(direct, rs[i].stakerIndex)
         <==> AgreesAt(rs[i], feed, feed', feedWithdraw, feedWithdraw')
    {
      CatchUpEquivalence(s, rs, feed, feed', feedWithdraw, feedWithdraw', i);
      StakersAt(rs, feed', i);
      AgreesIff(Lookup(m, rs[i].stakerIndex), Lookup(direct, rs[i].stakerIndex), rs[i], feed, feed', feedWithdraw, feedWithdraw');
    }
    StakersKnown(rs, feed');
    forall k: nat | forall i | 0 <= i < |rs| :: rs[i].stakerIndex != k
      ensures Lookup(m, k) == Lookup(direct, k)
    {
      CaughtIsListed(s, rs, feed, feed', feedWithdraw, feedWithdraw', k);
    }
  }

  /**
   So the ledger caught up by growing is the ledger of the snapshot at the later versions if and only
   if every staker first covered on the way holds nothing but its waiting deposits and keeps its
   withdraw version.
   */
  lemma CatchUpExactly(s: State, rs: seq<Record>, feed: nat, feed': nat, feedWithdraw: nat, feedWithdraw': nat)
    requires IsSnapshot(s, rs, feed, feedWithdraw)
    requires Acceptable(rs, feed) && Acceptable(rs, feed')
    requires Ordered(rs, feed) && DistinctWaiting(rs, feed)
    requires Grow(s, feed', feedWithdraw').1.Done?
    ensures IsSnapshot(Grow(s, feed', feedWithdraw').0, rs, feed', feedWithdraw') <==>
              forall i | 0 <= i < |rs| :: AgreesAt(rs[i], feed, feed', feedWithdraw, feedWithdraw')
  {
    var g := Grow(s, feed', feedWithdraw').0;
    SnapshotSettled(s, rs, feed, feedWithdraw);
    GrownForm(s, feed', feedWithdraw', 0);
    CatchUpCache(s, rs, feed, feed', feedWithdraw, feedWithdraw');
    forall w: Withdraw
      ensures SortedQueue(g.queue) && (w in g.queue <==> w in Ahead(rs, feedWithdraw'))
    {
      CatchUpQueue(s, rs, feed, feed', feedWithdraw, feedWithdraw', w);
    }
    CatchUpQueue(s, rs, feed, feed', feedWithdraw, feedWithdraw', Withdraw(0, 0));
    CaughtStakers(s, rs, feed, feed', feedWithdraw, feedWithdraw', g.stakers);
    SnapshotByParts(g, rs, feed', feedWithdraw');
  }

  lemma SnapshotByParts(g: State, rs: seq<Record>, feed: nat, feedWithdraw: nat)
    requires g.version == feed && g.withdrawVersion == feedWithdraw && g.prev == map[] && g.pending == AllWaiting(rs, feed)
    requires SortedQueue(g.queue) && forall w: Withdraw :: w in g.queue <==> w in Ahead(rs, feedWithdraw)
    ensures IsSnapshot(g, rs, feed, feedWithdraw) <==> SameStakers(g.stakers, AllStakers(rs, feed))
  {
  }

  /** A reset also starts the runs of `LedgerRuns` well, if the chain left no gap in its versions. */
  lemma SnapshotStartsWell(s: State, rs: seq<Record>, feed: nat, feedWithdraw: nat, n: nat)
    requires IsSnapshot(s, rs, feed, feedWithdraw) && DistinctStakers(rs)
    requires Spans(AllWaiting(rs, feed), feed, n)
    ensures Inv(s)
  {
    SnapshotSettled(s, rs, feed, feedWithdraw);
    StakersKnown(rs, feed);
    forall v: nat
      ensures v in s.pending <==> feed < v <= feed + n
    {
      assert Waits(s.pending, v) == Waits(AllWaiting(rs, feed), v);
    }
    assert Spans(s.pending, s.version, n);
    forall k | k in s.stakers
      ensures s.stakers[k].withdrawVersion > feedWithdraw ==> Withdraw(k, s.stakers[k].withdrawVersion) in s.queue
    {
      assert Lookup(s.stakers, k) == Lookup(AllStakers(rs, feed), k);
      var i :| 0 <= i < |rs| && rs[i].stakerIndex == k;
      StakersAt(rs, feed, i);
      AheadEntry(rs, feedWithdraw, Withdraw(k, rs[i].withdrawVersion));
    }
    forall w | w in s.queue && w.stakerIndex in s.stakers
      ensures s.stakers[w.stakerIndex].withdrawVersion <= w.withdrawVersion
    {
      AheadEntry(rs, feedWithdraw, w);
      var i :| 0 <= i < |rs| && rs[i].withdrawVersion > feedWithdraw && w == Withdraw(rs[i].stakerIndex, rs[i].withdrawVersion);
      assert Lookup(s.stakers, w.stakerIndex) == Lookup(AllStakers(rs, feed), w.stakerIndex);
      StakersAt(rs, feed, i);
    }
  }
}
