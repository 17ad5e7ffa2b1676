/**
 When a grow succeeds and what it then leaves, and that the versions it stops at on the way do not
 matter.
 */
module LedgerPath {
  import opened Prelude
  import opened Ledger
  import opened LedgerForms
  import opened LedgerRollback

  /** The queue reaches the withdraw version asked for. */
  predicate QueueReaches(s: State, wv: nat) {
    wv > s.withdrawVersion ==> s.queue != [] && s.queue[|s.queue| - 1].withdrawVersion >= wv
  }

  lemma NothingDue(q: seq<Withdraw>, feed: nat)
    requires forall w | w in q :: w.withdrawVersion > feed
    ensures Due(q, feed) == [] && CutQueue(q, feed) == q
  {
  }

  /** What the part of a grow behind its guards comes to, for a finished run of deposits. */
  lemma AfterDepositsForm(s: State, d: DepositRun, wv: nat)
    requires Settled(s) && d.outcome.Done? && wv >= s.withdrawVersion
    requires d.next >= 1 && Covers(s.pending, s.version + 1, d.next)
    requires s.queue == [] ==> wv <= s.withdrawVersion
    ensures AfterDeposits(s, d, wv).1.Done? <==> QueueReaches(s, wv) && Known(d.stakers, Due(s.queue, wv))
    ensures AfterDeposits(s, d, wv).1.Done? ==>
              AfterDeposits(s, d, wv).0.stakers == Stamp(d.stakers, Due(s.queue, wv))
  {
    if wv <= s.withdrawVersion {
      NothingDue(s.queue, s.withdrawVersion);
      assert Stamp(d.stakers, []) == d.stakers;
    } else {
      WithdrawsClosedForm(d.stakers, s.queue, wv, map[], s.withdrawVersion);
    }
  }

  /** What moving to these versions takes, for deposits that run as `d`. */
  predicate ReachesBy(s: State, version: nat, wv: nat, d: DepositRun) {
    && version >= s.version && wv >= s.withdrawVersion
    && d.outcome.Done? && QueueReaches(s, wv) && Known(d.stakers, Due(s.queue, wv))
  }

  predicate GrowsBy(s: State, version: nat, wv: nat, d: DepositRun) {
    version >= 1 && (version > s.version || wv > s.withdrawVersion) && ReachesBy(s, version, wv, d)
  }

  /** The ledger that a grow then leaves. */
  function Grown(s: State, version: nat, wv: nat, d: DepositRun): State {
    State(version, wv, Stamp(d.stakers, Due(s.queue, wv)), DropPending(s.pending, version), CutQueue(s.queue, wv), map[])
  }

  lemma ReachesByIsGuarded(s: State, version: nat, wv: nat, d: DepositRun)
    requires d == ApplyDeposits(s.stakers, s.pending, s.version + 1, version)
    requires ReachesBy(s, version, wv, d) && (version > s.version || wv > s.withdrawVersion)
    ensures Guarded(s, version, wv)
  {
    if version > s.version {
      assert s.version + 1 in s.pending;
      assert |s.pending| != 0;
    }
  }

  lemma GuardedGrow(s: State, version: nat, wv: nat, d: DepositRun)
    requires Settled(s) && Guarded(s, version, wv) && version >= 1
    requires d == ApplyDeposits(s.stakers, s.pending, s.version + 1, version)
    ensures Grow(s, version, wv).1.Done? <==> GrowsBy(s, version, wv, d)
    ensures GrowsBy(s, version, wv, d) ==> Grow(s, version, wv) == (Grown(s, version, wv, d), Done)
  {
    GuardsPass(s, version, wv, true, d);
    if d.outcome.Done? {
      AfterDepositsForm(s, d, wv);
    }
  }

  /** A grow in terms of its run of deposits. */
  lemma GrowByRun(s: State, version: nat, wv: nat, d: DepositRun)
    requires Settled(s)
    requires d == ApplyDeposits(s.stakers, s.pending, s.version + 1, version)
    ensures Grow(s, version, wv).1.Done? <==> GrowsBy(s, version, wv, d)
    ensures GrowsBy(s, version, wv, d) ==> Grow(s, version, wv) == (Grown(s, version, wv, d), Done)
  {
    if version >= 1 {
      if Guarded(s, version, wv) {
        GuardedGrow(s, version, wv, d);
      } else {
        GuardsStop(s, version, wv, true);
        if GrowsBy(s, version, wv, d) {
          ReachesByIsGuarded(s, version, wv, d);
        }
      }
    }
  }

  // ---- The same without a run -----------------------------------------------------------------

  /** Every staker with a due withdraw is there, or comes with the deposits. */
  predicate DueKnown(s: State, version: nat, wv: nat)
    requires Covers(s.pending, s.version + 1, version + 1)
  {
    forall w | w in Due(s.queue, wv) :: w.stakerIndex in IndexesBefore(s.stakers, s.pending, s.version + 1, version + 1)
  }

  /** What moving to these versions takes: deposits that can be applied and withdraws that are there. */
  predicate CanReach(s: State, version: nat, wv: nat) {
    && version >= s.version && wv >= s.withdrawVersion
    && CanApply(s.stakers, s.pending, s.version + 1, version)
    && QueueReaches(s, wv) && DueKnown(s, version, wv)
  }

  predicate CanGrow(s: State, version: nat, wv: nat) {
    version >= 1 && (version > s.version || wv > s.withdrawVersion) && CanReach(s, version, wv)
  }

  lemma DueByRun(s: State, version: nat, wv: nat, d: DepositRun)
    requires d == ApplyDeposits(s.stakers, s.pending, s.version + 1, version)
    requires version >= s.version && d.outcome.Done?
    ensures Covers(s.pending, s.version + 1, version + 1)
    ensures DueKnown(s, version, wv) <==> Known(d.stakers, Due(s.queue, wv))
  {
    RunIndexes(s.stakers, s.pending, s.version + 1, version, d);
  }

  lemma ReachParts(s: State, version: nat, wv: nat, d: DepositRun)
    requires CanApply(s.stakers, s.pending, s.version + 1, version) <==> d.outcome.Done?
    requires version >= s.version && d.outcome.Done? ==>
               Covers(s.pending, s.version + 1, version + 1) && (DueKnown(s, version, wv) <==> Known(d.stakers, Due(s.queue, wv)))
    ensures CanReach(s, version, wv) <==> ReachesBy(s, version, wv, d)
  {
  }

  lemma ReachByRun(s: State, version: nat, wv: nat, d: DepositRun)
    requires d == ApplyDeposits(s.stakers, s.pending, s.version + 1, version)
    ensures CanReach(s, version, wv) <==> ReachesBy(s, version, wv, d)
  {
    RunCompletes(s.stakers, s.pending, s.version + 1, version, d);
    if version >= s.version && d.outcome.Done? {
      DueByRun(s, version, wv, d);
    }
    ReachParts(s, version, wv, d);
  }

  /** A staker after a grow, said without its loops. */
  function GrownStaker(o: Option<Staker>, ds: seq<Deposit>, due: seq<Withdraw>, k: nat): Option<Staker> {
    match Extend(o, ds)
    case None => None
    case Some(t) => Some(t.(withdrawVersion := Latest(due, k, t.withdrawVersion)))
  }

  lemma StampedStaker(m: StakerMap, due: seq<Withdraw>, o: Option<Staker>, ds: seq<Deposit>, k: nat)
    requires Lookup(m, k) == Extend(o, ds)
    ensures Lookup(Stamp(m, due), k) == GrownStaker(o, ds, due, k)
  {
  }

  lemma GrownStakers(s: State, version: nat, wv: nat, d: DepositRun, k: nat)
    requires d == ApplyDeposits(s.stakers, s.pending, s.version + 1, version) && d.outcome.Done? && s.version <= version
    ensures Covers(s.pending, s.version + 1, version + 1)
    ensures Lookup(Grown(s, version, wv, d).stakers, k)
         == GrownStaker(Lookup(s.stakers, k), DepositsFor(s.pending, k, s.version + 1, version + 1), Due(s.queue, wv), k)
  {
    DepositsClosedForm(s.stakers, s.pending, s.version + 1, version, k);
    StampedStaker(d.stakers, Due(s.queue, wv), Lookup(s.stakers, k), DepositsFor(s.pending, k, s.version + 1, version + 1), k);
  }

  /** What a grow to these versions leaves: `g`, with staker `k` extended by its deposits and stamped. */
  predicate GrownAt(s: State, version: nat, wv: nat, g: State, k: nat)
    requires Covers(s.pending, s.version + 1, version + 1)
  {
    && g == State(version, wv, g.stakers, DropPending(s.pending, version), CutQueue(s.queue, wv), map[])
    && Lookup(g.stakers, k)
    == GrownStaker(Lookup(s.stakers, k), DepositsFor(s.pending, k, s.version + 1, version + 1), Due(s.queue, wv), k)
  }

  /**
   A grow succeeds exactly when it goes forward, every version on the way can be applied, the queue
   reaches its withdraw version and every staker due there is known or comes on the way. Each staker
   then has its own deposits in version order and its latest due withdraw version, and both caches
   are cut.
   */
  lemma GrowForm(s: State, version: nat, wv: nat, k: nat)
    requires Settled(s)
    ensures Grow(s, version, wv).1.Done? <==> CanGrow(s, version, wv)
    ensures CanGrow(s, version, wv) ==> GrownAt(s, version, wv, Grow(s, version, wv).0, k)
  {
    var d := ApplyDeposits(s.stakers, s.pending, s.version + 1, version);
    GrowByRun(s, version, wv, d);
    ReachByRun(s, version, wv, d);
    if GrowsBy(s, version, wv, d) {
      GrownStakers(s, version, wv, d, k);
    }
  }

  lemma {:induction false} CutKeepsLast(q: seq<Withdraw>, wv: nat)
    requires CutQueue(q, wv) != []
    ensures q != [] && q[|q| - 1] == CutQueue(q, wv)[|CutQueue(q, wv)| - 1]
  {
    if q[0].withdrawVersion <= wv {
      CutKeepsLast(q[1..], wv);
    }
  }

  lemma {:induction false} LatestAbsent(q: seq<Withdraw>, k: nat, otherwise: nat)
    requires forall w | w in q :: w.stakerIndex != k
    ensures Latest(q, k, otherwise) == otherwise
  {
    if q != [] {
      LatestAbsent(q[1..], k, otherwise);
    }
  }

  /** The stakers of `m` are still in `m'` with their stamps; new ones carry none. */
  ghost predicate StampsOf(m: StakerMap, m': StakerMap) {
    && m.Keys <= m'.Keys
    && forall k | k in m' :: m'[k].withdrawVersion == if k in m then m[k].withdrawVersion else 0
  }

  /** Stamping between two runs of deposits is stamping after both. */
  lemma StampCommutes(m1: StakerMap, a: StakerMap, b: StakerMap, due1: seq<Withdraw>, due2: seq<Withdraw>)
    requires Known(m1, due1)
    requires SameButStamps(a, b) && StampsOf(m1, a) && StampsOf(Stamp(m1, due1), b)
    ensures Stamp(a, due1 + due2) == Stamp(b, due2)
  {
    forall k | k in a
      ensures Stamp(a, due1 + due2)[k] == Stamp(b, due2)[k]
    {
      LatestAppend(due1, due2, k, a[k].withdrawVersion);
      if k !in m1 {
        LatestAbsent(due1, k, 0);
      }
      assert a[k].(withdrawVersion := 0) == b[k].(withdrawVersion := 0);
    }
  }

  /** The deposits after a stop, run on the stamped ledger, are the deposits of the direct run. */
  lemma StopDeposits(m: StakerMap, p: Pending, i: nat, v1: nat, v2: nat, d1: DepositRun, m1: StakerMap, d2: DepositRun)
    requires i <= v1 + 1 <= v2 + 1
    requires d1 == ApplyDeposits(m, p, i, v1) && d1.outcome.Done?
    requires SameButStamps(m1, d1.stakers)
    requires d2 == ApplyDeposits(m1, DropPending(p, v1), v1 + 1, v2)
    ensures var d := ApplyDeposits(m, p, i, v2);
            d.outcome == d2.outcome && d.next == d2.next && SameButStamps(d.stakers, d2.stakers)
  {
    ApplyDepositsFrame(m1, p, DropPending(p, v1), v1 + 1, v2);
    ApplyDepositsStamps(m1, d1.stakers, p, v1 + 1, v2);
    ApplyDepositsSplit(m, p, i, v1, v2);
  }

  /** Both stamped ledgers agree, given how the runs of deposits relate. */
  lemma StampParts(m1: StakerMap, a: StakerMap, b: StakerMap, q: seq<Withdraw>, w1: nat, w2: nat)
    requires w1 <= w2
    requires Known(m1, Due(q, w1)) && Known(b, Due(CutQueue(q, w1), w2))
    requires SameButStamps(a, b) && StampsOf(m1, a) && StampsOf(Stamp(m1, Due(q, w1)), b)
    ensures Known(a, Due(q, w2))
    ensures Stamp(a, Due(q, w2)) == Stamp(b, Due(CutQueue(q, w1), w2))
  {
    var due1, due2 := Due(q, w1), Due(CutQueue(q, w1), w2);
    DueSplit(q, w1, w2);
    StampCommutes(m1, a, b, due1, due2);
    forall w: Withdraw | w in due1 + due2
      ensures w.stakerIndex in a
    {
      assert w in due1 || w in due2;
    }
  }

  lemma DirectDeposits(m: StakerMap, p: Pending, i: nat, v1: nat, v2: nat, d1: DepositRun, d: DepositRun)
    requires i <= v1 + 1 <= v2 + 1
    requires d1 == ApplyDeposits(m, p, i, v1) && d1.outcome.Done?
    requires d == ApplyDeposits(m, p, i, v2)
    ensures StampsOf(d1.stakers, d.stakers)
  {
    ApplyDepositsSplit(m, p, i, v1, v2);
    DepositsKeep(d1.stakers, p, v1 + 1, v2);
  }

  lemma StoppedDeposits(m1: StakerMap, p: Pending, v1: nat, v2: nat, d2: DepositRun)
    requires d2 == ApplyDeposits(m1, DropPending(p, v1), v1 + 1, v2)
    ensures StampsOf(m1, d2.stakers)
  {
    DepositsKeep(m1, DropPending(p, v1), v1 + 1, v2);
  }

  lemma PathRuns(m: StakerMap, p: Pending, i: nat, v1: nat, v2: nat,
                 d1: DepositRun, m1: StakerMap, d2: DepositRun, d: DepositRun)
    requires i <= v1 + 1 <= v2 + 1
    requires d1 == ApplyDeposits(m, p, i, v1) && d1.outcome.Done?
    requires SameButStamps(m1, d1.stakers)
    requires d2 == ApplyDeposits(m1, DropPending(p, v1), v1 + 1, v2) && d2.outcome.Done?
    requires d == ApplyDeposits(m, p, i, v2)
    ensures d.outcome.Done? && SameButStamps(d.stakers, d2.stakers)
    ensures StampsOf(d1.stakers, d.stakers) && StampsOf(m1, d2.stakers)
  {
    StopDeposits(m, p, i, v1, v2, d1, m1, d2);
    DirectDeposits(m, p, i, v1, v2, d1, d);
    StoppedDeposits(m1, p, v1, v2, d2);
  }

  lemma PathParts(s: State, v1: nat, w1: nat, v2: nat, w2: nat, d1: DepositRun, d2: DepositRun, d: DepositRun)
    requires s.version <= v1 <= v2
    requires d1 == ApplyDeposits(s.stakers, s.pending, s.version + 1, v1)
    requires d == ApplyDeposits(s.stakers, s.pending, s.version + 1, v2)
    requires GrowsBy(s, v1, w1, d1)
    requires d2 == ApplyDeposits(Stamp(d1.stakers, Due(s.queue, w1)), DropPending(s.pending, v1), v1 + 1, v2)
    requires GrowsBy(Grown(s, v1, w1, d1), v2, w2, d2)
    ensures d.outcome.Done? && Known(d.stakers, Due(s.queue, w2))
    ensures Stamp(d.stakers, Due(s.queue, w2)) == Stamp(d2.stakers, Due(CutQueue(s.queue, w1), w2))
  {
    var m1 := Stamp(d1.stakers, Due(s.queue, w1));
    assert m1.Keys == d1.stakers.Keys;
    PathRuns(s.stakers, s.pending, s.version + 1, v1, v2, d1, m1, d2, d);
    StampParts(d1.stakers, d.stakers, d2.stakers, s.queue, w1, w2);
  }

  /** The same, in terms of what growing takes and leaves. */
  lemma PathCore(s: State, v1: nat, w1: nat, v2: nat, w2: nat, d1: DepositRun, d2: DepositRun, d: DepositRun)
    requires GrowsBy(s, v1, w1, d1) && GrowsBy(Grown(s, v1, w1, d1), v2, w2, d2)
    requires d.outcome.Done? && Known(d.stakers, Due(s.queue, w2))
    requires Stamp(d.stakers, Due(s.queue, w2)) == Stamp(d2.stakers, Due(CutQueue(s.queue, w1), w2))
    ensures GrowsBy(s, v2, w2, d)
    ensures Grown(s, v2, w2, d) == Grown(Grown(s, v1, w1, d1), v2, w2, d2)
  {
    if w2 > w1 {
      CutKeepsLast(s.queue, w1);
    }
    DueSplit(s.queue, w1, w2);
    assert DropPending(DropPending(s.pending, v1), v2) == DropPending(s.pending, v2);
  }

  /**
   Path independence: if growing to one pair of versions and then to a second both succeed, growing
   to the second pair at once succeeds as well and ends in the same ledger.
   */
  lemma PathIndependence(s: State, v1: nat, w1: nat, v2: nat, w2: nat)
    requires Settled(s)
    requires Grow(s, v1, w1).1.Done?
    requires Grow(Grow(s, v1, w1).0, v2, w2).1.Done?
    ensures Grow(s, v2, w2) == Grow(Grow(s, v1, w1).0, v2, w2)
  {
    var d1 := ApplyDeposits(s.stakers, s.pending, s.version + 1, v1);
    GrowByRun(s, v1, w1, d1);
    var s1 := Grown(s, v1, w1, d1);
    CutAbove(s.queue, w1);
    var d2 := ApplyDeposits(s1.stakers, s1.pending, v1 + 1, v2);
    GrowByRun(s1, v2, w2, d2);
    var d := ApplyDeposits(s.stakers, s.pending, s.version + 1, v2);
    PathParts(s, v1, w1, v2, w2, d1, d2, d);
    PathCore(s, v1, w1, v2, w2, d1, d2, d);
    GrowByRun(s, v2, w2, d);
  }
}
