/** What every call keeps, and so what holds after any run of calls, failed ones included. */
module LedgerRuns {
  import opened Prelude
  import opened Ledger
  import opened LedgerForms
  import opened LedgerRollback
  import opened LedgerPath
  import opened LedgerApply
  import opened LedgerConservation

  datatype Call =
    | CacheCall(deposits: Pending, next: nat, withdraws: seq<Withdraw>)
    | GrowCall(version: nat, wv: nat)
    | UpdateCall(data: RawData, version: nat, wv: nat)

  function Step(s: State, c: Call): (State, Outcome) {
    match c
    case CacheCall(deposits, next, withdraws) => Cache(s, deposits, next, withdraws)
    case GrowCall(version, wv) => Grow(s, version, wv)
    case UpdateCall(data, version, wv) => ApplyChanges(s, data, version, wv)
  }

  function Run(s: State, calls: seq<Call>): State
    decreases |calls|
  {
    if calls == [] then s else Run(Step(s, calls[0]).0, calls[1..])
  }

  /** The cached versions are the `n` versions right after `version`. */
  ghost predicate Spans(p: Pending, version: nat, n: nat) {
    forall v: nat :: v in p <==> version < v <= version + n
  }

  /** A staker ahead of the feed got there from a withdraw that is still queued. */
  ghost predicate AheadIsQueued(m: StakerMap, q: seq<Withdraw>, feed: nat) {
    forall k | k in m && m[k].withdrawVersion > feed :: Withdraw(k, m[k].withdrawVersion) in q
  }

  /** No queued withdraw is older than what its staker already carries. */
  ghost predicate QueueNotBehind(m: StakerMap, q: seq<Withdraw>) {
    forall w | w in q && w.stakerIndex in m :: m[w.stakerIndex].withdrawVersion <= w.withdrawVersion
  }

  ghost predicate Inv(s: State) {
    && Settled(s)
    && (exists n: nat :: Spans(s.pending, s.version, n))
    && AheadIsQueued(s.stakers, s.queue, s.withdrawVersion)
    && QueueNotBehind(s.stakers, s.queue)
  }

  /** No staker disappears, none loses a validator, and no withdraw version falls. */
  ghost predicate OnlyGrows(m: StakerMap, m': StakerMap) {
    && m.Keys <= m'.Keys
    && (forall k | k in m :: m[k].withdrawVersion <= m'[k].withdrawVersion)
    && KeepsValidators(m, m')
  }

  ghost predicate KeepsValidators(m: StakerMap, m': StakerMap) {
    forall d: Deposit :: Holds(m, d) ==> Holds(m', d)
  }

  // ---- A failed call --------------------------------------------------------------------------

  lemma {:induction false} UndoKeepsHeld(m: StakerMap, p: Pending, v: nat, base: nat, d: Deposit)
    requires Covers(p, base + 1, v + 1) && Holds(m, d)
    requires forall i | base < i <= v :: p[i].stakerIndex == d.stakerIndex ==> p[i].validator != d.validator
    ensures Holds(UndoDeposits(m, p, v, base), d)
    decreases v
  {
    if v > base {
      RemovalKeeps(m, p[v], d);
      UndoKeepsHeld(RemoveDeposit(m, p[v]), p, v - 1, base, d);
    }
  }

  /** Stakers after a run of deposits, undone or not, keep their stamps and old validators. */
  lemma RunOnlyGrows(s: State, version: nat, d: DepositRun)
    requires d == ApplyDeposits(s.stakers, s.pending, s.version + 1, version)
    ensures StampsOf(s.stakers, d.stakers) && KeepsValidators(s.stakers, d.stakers)
  {
    DepositsKeep(s.stakers, s.pending, s.version + 1, version);
    forall x | Holds(s.stakers, x)
      ensures Holds(d.stakers, x)
    {
      var before, after := s.stakers[x.stakerIndex].validators, d.stakers[x.stakerIndex].validators;
      var i :| 0 <= i < |before| && before[i] == x.validator;
      assert after[i] == before[i];
    }
  }

  lemma UndoneHolds(s: State, version: nat, d: DepositRun, x: Deposit)
    requires d == ApplyDeposits(s.stakers, s.pending, s.version + 1, version)
    requires Holds(s.stakers, x) && Holds(d.stakers, x)
    ensures Holds(Undone(s, d).stakers, x)
  {
    forall i | s.version < i <= d.next - 1
      ensures s.pending[i].stakerIndex == x.stakerIndex ==> s.pending[i].validator != x.validator
    {
      AppliedIsNew(s.stakers, s.pending, s.version + 1, version, i);
    }
    UndoKeepsHeld(d.stakers, s.pending, d.next - 1, s.version, x);
  }

  lemma UndoneKeepsValidators(s: State, version: nat, d: DepositRun)
    requires d == ApplyDeposits(s.stakers, s.pending, s.version + 1, version)
    requires KeepsValidators(s.stakers, d.stakers)
    ensures KeepsValidators(s.stakers, Undone(s, d).stakers)
  {
    forall x | Holds(s.stakers, x)
      ensures Holds(Undone(s, d).stakers, x)
    {
      UndoneHolds(s, version, d, x);
    }
  }

  lemma UndoneOnlyGrows(s: State, version: nat, d: DepositRun)
    requires d == ApplyDeposits(s.stakers, s.pending, s.version + 1, version)
    ensures StampsOf(s.stakers, Undone(s, d).stakers) && KeepsValidators(s.stakers, Undone(s, d).stakers)
  {
    RunOnlyGrows(s, version, d);
    UndoStamps(d.stakers, d.stakers, s.pending, d.next - 1, s.version);
    UndoneKeepsValidators(s, version, d);
  }

  /** What any failed grow or update can have done: nothing, deposits undone, or deposits left. */
  predicate FailsInto(s: State, d: DepositRun, s': State)
    requires d.next >= 1 && Covers(s.pending, s.version + 1, d.next)
  {
    s' == s || s' == Undone(s, d) || s' == s.(stakers := d.stakers)
  }

  lemma TryGrowFailsInto(s: State, version: nat, wv: nat, update: bool, d: DepositRun)
    requires Settled(s) && TryGrow(s, version, wv, update).1.Failed?
    requires d == ApplyDeposits(s.stakers, s.pending, s.version + 1, version)
    ensures FailsInto(s, d, TryGrow(s, version, wv, update).0)
  {
    if LoopError(TryGrow(s, version, wv, update).1.error) {
      AfterDepositsUndoes(s, d, wv);
    } else {
      EarlyFailureKeeps(s, version, wv, update);
    }
  }

  lemma UpdateFailsInto(s: State, data: RawData, version: nat, wv: nat, d: DepositRun)
    requires Settled(s) && ApplyChanges(s, data, version, wv).1.Failed?
    requires d == ApplyDeposits(s.stakers, s.pending, s.version + 1, version)
    ensures FailsInto(s, d, ApplyChanges(s, data, version, wv).0)
  {
    ApplyFailureIsGrowFailure(s, data, version, wv);
    if s.version == data.version {
      if TryGrow(s, version, wv, false).1.Failed? {
        TryGrowFailsInto(s, version, wv, false, d);
      } else {
        assert ApplyChanges(s, data, version, wv).0 == AbandonedUpdate(TryGrow(s, version, wv, false).0, version, wv);
        AbandonedFailsInto(s, version, wv, d);
      }
    }
  }

  lemma AbandonedFailsInto(s: State, version: nat, wv: nat, d: DepositRun)
    requires Settled(s) && TryGrow(s, version, wv, false).1.Done?
    requires d == ApplyDeposits(s.stakers, s.pending, s.version + 1, version)
    ensures FailsInto(s, d, AbandonedUpdate(TryGrow(s, version, wv, false).0, version, wv))
  {
    if !Skipped(s, version, wv) {
      AbandonedIsUndone(s, version, wv, d);
    }
  }

  lemma FailureKeepsInv(s: State, version: nat, d: DepositRun, s': State)
    requires Inv(s)
    requires d == ApplyDeposits(s.stakers, s.pending, s.version + 1, version)
    requires FailsInto(s, d, s')
    ensures Inv(s') && OnlyGrows(s.stakers, s'.stakers)
    ensures s' == s.(stakers := s'.stakers)
  {
    RunOnlyGrows(s, version, d);
    UndoneOnlyGrows(s, version, d);
  }

  // ---- A successful grow or update ------------------------------------------------------------

  lemma {:induction false} LatestIsDue(q: seq<Withdraw>, k: nat, otherwise: nat)
    ensures var v := Latest(q, k, otherwise);
            Withdraw(k, v) in q || (v == otherwise && forall w | w in q :: w.stakerIndex != k)
  {
    if q != [] {
      var first := q[0];
      LatestIsDue(q[1..], k, if first.stakerIndex == k then first.withdrawVersion else otherwise);
      assert forall w | w in q :: w == first || w in q[1..];
      if first.stakerIndex == k {
        assert first == Withdraw(k, first.withdrawVersion);
      }
    }
  }

  lemma {:induction false} DueIsQueued(q: seq<Withdraw>, wv: nat)
    ensures forall w | w in Due(q, wv) :: w in q && w.withdrawVersion <= wv
  {
    if q != [] && q[0].withdrawVersion <= wv {
      DueIsQueued(q[1..], wv);
      assert forall w | w in Due(q, wv) :: w == q[0] || w in Due(q[1..], wv);
    }
  }

  /** The stamps after a grow: unchanged, or that of a due withdraw. */
  lemma StampedOnlyGrows(m: StakerMap, a: StakerMap, q: seq<Withdraw>, feed: nat, wv: nat)
    requires StampsOf(m, a) && feed <= wv && SortedQueue(q)
    requires AheadIsQueued(m, q, feed) && QueueNotBehind(m, q)
    ensures forall k | k in m :: m[k].withdrawVersion <= Stamp(a, Due(q, wv))[k].withdrawVersion
    ensures AheadIsQueued(Stamp(a, Due(q, wv)), CutQueue(q, wv), wv)
    ensures QueueNotBehind(Stamp(a, Due(q, wv)), CutQueue(q, wv))
  {
    var due, b := Due(q, wv), Stamp(a, Due(q, wv));
    DueIsQueued(q, wv);
    CutAbove(q, wv);
    forall k | k in b
      ensures k in m ==> m[k].withdrawVersion <= b[k].withdrawVersion
      ensures b[k].withdrawVersion > wv ==> Withdraw(k, b[k].withdrawVersion) in CutQueue(q, wv)
      ensures b[k].withdrawVersion <= wv || (k in m && b[k].withdrawVersion == m[k].withdrawVersion)
    {
      LatestIsDue(due, k, a[k].withdrawVersion);
    }
  }

  lemma SpansAfterDrop(p: Pending, version: nat, n: nat, version': nat)
    requires Spans(p, version, n) && version <= version' && Covers(p, version + 1, version' + 1)
    ensures version' <= version + n
    ensures Spans(DropPending(p, version'), version', version + n - version')
  {
    if version < version' {
      assert version' in p;
    }
  }

  /** The stakers after a successful call: those of the deposits, stamped, perhaps with new balances. */
  ghost predicate SameButBalances(a: StakerMap, b: StakerMap) {
    && a.Keys == b.Keys
    && forall k | k in a :: a[k].(balance := 0) == b[k].(balance := 0)
  }

  lemma SuccessKeepsInv(s: State, version: nat, wv: nat, d: DepositRun, s': State)
    requires Inv(s) && version >= s.version && wv >= s.withdrawVersion
    requires d == ApplyDeposits(s.stakers, s.pending, s.version + 1, version) && d.outcome.Done?
    requires SameButBalances(Stamp(d.stakers, Due(s.queue, wv)), s'.stakers)
    requires s' == State(version, wv, s'.stakers, DropPending(s.pending, version), CutQueue(s.queue, wv), map[])
    ensures Inv(s') && OnlyGrows(s.stakers, s'.stakers)
  {
    var b := Stamp(d.stakers, Due(s.queue, wv));
    RunOnlyGrows(s, version, d);
    StampedOnlyGrows(s.stakers, d.stakers, s.queue, s.withdrawVersion, wv);
    SameStamps(b, s'.stakers);
    CutAbove(s.queue, wv);
    var n: nat :| Spans(s.pending, s.version, n);
    SpansAfterDrop(s.pending, s.version, n, version);
    assert Inv(s');
    forall x: Deposit | Holds(s.stakers, x)
      ensures Holds(s'.stakers, x)
    {
      assert Holds(d.stakers, x);
    }
  }

  lemma SameStamps(a: StakerMap, b: StakerMap)
    requires SameButBalances(a, b)
    ensures forall k | k in a :: a[k].withdrawVersion == b[k].withdrawVersion && a[k].validators == b[k].validators
  {
    forall k | k in a
      ensures a[k].withdrawVersion == b[k].withdrawVersion && a[k].validators == b[k].validators
    {
      assert a[k].(balance := 0) == b[k].(balance := 0);
    }
  }

  lemma GrowKeepsInv(s: State, version: nat, wv: nat)
    requires Inv(s)
    ensures Inv(Grow(s, version, wv).0) && OnlyGrows(s.stakers, Grow(s, version, wv).0.stakers)
  {
    var (s', o) := Grow(s, version, wv);
    var d := ApplyDeposits(s.stakers, s.pending, s.version + 1, version);
    if version >= 1 {
      if o.Failed? {
        TryGrowFailsInto(s, version, wv, true, d);
        FailureKeepsInv(s, version, d, s');
      } else {
        GrowByRun(s, version, wv, d);
        SuccessKeepsInv(s, version, wv, d, s');
      }
    }
  }

  lemma UpdatedStakers(s: State, data: RawData, version: nat, wv: nat, d: DepositRun)
    requires Settled(s) && ApplyChanges(s, data, version, wv).1.Done?
    requires d == ApplyDeposits(s.stakers, s.pending, s.version + 1, version)
    ensures version >= s.version && wv >= s.withdrawVersion && d.outcome.Done?
    ensures var s' := ApplyChanges(s, data, version, wv).0;
            && s' == State(version, wv, s'.stakers, DropPending(s.pending, version), CutQueue(s.queue, wv), map[])
            && SameButBalances(Stamp(d.stakers, Due(s.queue, wv)), s'.stakers)
  {
    GrowPart(s, version, wv, d);
    AfterPatchesForm(s, TryGrow(s, version, wv, false).0, data, version, wv, d, Due(s.queue, wv));
  }

  lemma UpdateKeepsInv(s: State, data: RawData, version: nat, wv: nat)
    requires Inv(s)
    ensures Inv(ApplyChanges(s, data, version, wv).0)
    ensures OnlyGrows(s.stakers, ApplyChanges(s, data, version, wv).0.stakers)
  {
    var (s', o) := ApplyChanges(s, data, version, wv);
    var d := ApplyDeposits(s.stakers, s.pending, s.version + 1, version);
    if o.Failed? {
      UpdateFailsInto(s, data, version, wv, d);
      FailureKeepsInv(s, version, d, s');
    } else {
      UpdatedStakers(s, data, version, wv, d);
      SuccessKeepsInv(s, version, wv, d, s');
    }
  }

  // ---- Caching --------------------------------------------------------------------------------

  /** Copying deposits into a gap-free cache right behind its last version keeps it gap-free. */
  lemma {:induction false} CachedSpans(p: Pending, version: nat, n: nat, deposits: Pending, next: nat, i: nat)
    requires i <= |deposits| && Spans(p, version, n) && next + i == version + n + 1
    ensures exists m: nat :: Spans(CacheDeposits(p, deposits, next, i).0, version, m)
    ensures forall v | v in p :: v in CacheDeposits(p, deposits, next, i).0 && CacheDeposits(p, deposits, next, i).0[v] == p[v]
    ensures CacheDeposits(p, deposits, next, i).1.Done? <==> Covers(deposits, next + i, next + |deposits|)
    ensures CacheDeposits(p, deposits, next, i).1.Done? ==>
              Spans(CacheDeposits(p, deposits, next, i).0, version, n + |deposits| - i)
    decreases |deposits| - i
  {
    if i < |deposits| && next + i in deposits {
      var p1 := p[next + i := deposits[next + i]];
      CachedSpans(p1, version, n + 1, deposits, next, i + 1);
      var m: nat :| Spans(CacheDeposits(p1, deposits, next, i + 1).0, version, m);
      assert Spans(CacheDeposits(p, deposits, next, i).0, version, m);
    } else {
      assert Spans(CacheDeposits(p, deposits, next, i).0, version, n);
    }
  }

  /** The withdraws that may follow the queue: new to the feed and numbered on without a gap. */
  predicate Follows(q: seq<Withdraw>, feed: nat, withdraws: seq<Withdraw>) {
    forall i | 0 <= i < |withdraws| ::
      && withdraws[i].withdrawVersion > feed
      && (i > 0 ==> withdraws[i].withdrawVersion == withdraws[i - 1].withdrawVersion + 1)
      && (i == 0 && q != [] ==> withdraws[i].withdrawVersion == q[|q| - 1].withdrawVersion + 1)
  }

  lemma FollowsTail(q: seq<Withdraw>, feed: nat, w: Withdraw, rest: seq<Withdraw>)
    requires Follows(q, feed, [w] + rest)
    ensures Follows(q + [w], feed, rest)
  {
    var all, longer := [w] + rest, q + [w];
    assert longer[|longer| - 1] == w;
    forall i | 0 <= i < |rest|
      ensures rest[i].withdrawVersion > feed
      ensures i == 0 ==> rest[i].withdrawVersion == w.withdrawVersion + 1
      ensures i > 0 ==> rest[i].withdrawVersion == rest[i - 1].withdrawVersion + 1
    {
      assert all[i + 1] == rest[i] && all[i] == if i == 0 then w else rest[i - 1];
    }
    assert Follows(longer, feed, rest);
  }

  lemma FollowsCons(q: seq<Withdraw>, feed: nat, w: Withdraw, rest: seq<Withdraw>)
    requires w.withdrawVersion > feed && (q == [] || w.withdrawVersion == q[|q| - 1].withdrawVersion + 1)
    requires Follows(q + [w], feed, rest)
    ensures Follows(q, feed, [w] + rest)
  {
    var all := [w] + rest;
    forall i | 1 <= i < |all|
      ensures all[i].withdrawVersion > feed && all[i].withdrawVersion == all[i - 1].withdrawVersion + 1
    {
      assert all[i] == rest[i - 1] && all[i - 1] == if i == 1 then w else rest[i - 2];
    }
  }

  /** The first withdraw may follow the queue, and the others may follow it. */
  lemma FollowsStep(q: seq<Withdraw>, feed: nat, w: Withdraw, rest: seq<Withdraw>)
    ensures Follows(q, feed, [w] + rest) <==>
              && w.withdrawVersion > feed && (q == [] || w.withdrawVersion == q[|q| - 1].withdrawVersion + 1)
              && Follows(q + [w], feed, rest)
  {
    if Follows(q, feed, [w] + rest) {
      assert ([w] + rest)[0] == w;
      FollowsTail(q, feed, w, rest);
    } else if w.withdrawVersion > feed && (q == [] || w.withdrawVersion == q[|q| - 1].withdrawVersion + 1)
              && Follows(q + [w], feed, rest) {
      FollowsCons(q, feed, w, rest);
    }
  }

  /** The loop over withdraws appends all of them exactly when they may follow. */
  lemma {:induction false} WithdrawsFollow(q: seq<Withdraw>, feed: nat, withdraws: seq<Withdraw>)
    ensures CacheWithdraws(q, feed, withdraws).1.Done? <==> Follows(q, feed, withdraws)
    ensures CacheWithdraws(q, feed, withdraws).1.Done? ==> CacheWithdraws(q, feed, withdraws).0 == q + withdraws
    decreases |withdraws|
  {
    if withdraws == [] {
      assert q + withdraws == q;
    } else {
      var w, rest := withdraws[0], withdraws[1..];
      assert withdraws == [w] + rest;
      WithdrawsFollow(q + [w], feed, rest);
      FollowsStep(q, feed, w, rest);
      assert q + withdraws == q + [w] + rest;
    }
  }

  lemma {:induction false} CachedQueue(m: StakerMap, q: seq<Withdraw>, feed: nat, withdraws: seq<Withdraw>)
    requires SortedQueue(q) && (forall w | w in q :: w.withdrawVersion > feed)
    requires AheadIsQueued(m, q, feed) && QueueNotBehind(m, q)
    ensures var q' := CacheWithdraws(q, feed, withdraws).0;
            && SortedQueue(q') && (forall w | w in q' :: w.withdrawVersion > feed)
            && AheadIsQueued(m, q', feed) && QueueNotBehind(m, q')
    decreases |withdraws|
  {
    if withdraws != [] {
      var w := withdraws[0];
      if w.withdrawVersion > feed && (|q| > 0 ==> q[|q| - 1].withdrawVersion + 1 == w.withdrawVersion) {
        assert QueueNotBehind(m, q + [w]) by {
          assert forall x | x in q :: x.withdrawVersion <= w.withdrawVersion;
        }
        assert forall x | x in q + [w] :: x.withdrawVersion > feed;
        assert AheadIsQueued(m, q + [w], feed);
        CachedQueue(m, q + [w], feed, withdraws[1..]);
      }
    }
  }

  /**
   A cache call succeeds exactly when the event starts at the version after the last one cached (or
   fed), its keys are precisely the versions from there on, and its withdraws follow the queue.
   */
  lemma CacheAccepts(s: State, n: nat, deposits: Pending, next: nat, withdraws: seq<Withdraw>)
    requires Inv(s) && Spans(s.pending, s.version, n)
    ensures Cache(s, deposits, next, withdraws).1.Done? <==>
              && next == s.version + n + 1
              && (forall v :: v in deposits <==> next <= v < next + |deposits|)
              && Follows(s.queue, s.withdrawVersion, withdraws)
  {
    assert |s.pending| == 0 <==> n == 0 by {
      if n > 0 {
        assert s.version + 1 in s.pending;
      } else {
        assert s.pending == map[];
      }
    }
    if next == s.version + n + 1 {
      CachedSpans(s.pending, s.version, n, deposits, next, 0);
      WithdrawsFollow(s.queue, s.withdrawVersion, withdraws);
      assert |deposits.Keys| == |deposits|;
      if Covers(deposits, next, next + |deposits|) {
        KeysAreRange(deposits.Keys, next, |deposits|);
      }
    }
  }

  /** Version `v` is cached as it was, or comes from the event with all versions from `lo` up to it. */
  predicate CachedAt(p: Pending, p': Pending, deposits: Pending, lo: nat, hi: nat, v: nat) {
    if v in p then v in p' && p'[v] == p[v]
    else
      && (v in p' <==> lo <= v < hi && forall u | lo <= u <= v :: u in deposits && u !in p)
      && (v in p' && v in deposits ==> p'[v] == deposits[v])
  }

  /** Copying stops at the first version that is missing or there; what came before is cached as it is. */
  lemma {:induction false} CopiedUpToGap(p: Pending, deposits: Pending, next: nat, i: nat, v: nat)
    requires i <= |deposits|
    ensures CachedAt(p, CacheDeposits(p, deposits, next, i).0, deposits, next + i, next + |deposits|, v)
    decreases |deposits| - i
  {
    if i < |deposits| && next + i in deposits && next + i !in p {
      CopiedUpToGap(p[next + i := deposits[next + i]], deposits, next, i + 1, v);
    }
  }

  /** A cache call whose event starts elsewhere does nothing; one that starts well runs both loops. */
  lemma CacheStages(s: State, n: nat, deposits: Pending, next: nat, withdraws: seq<Withdraw>)
    requires Inv(s) && Spans(s.pending, s.version, n)
    ensures var (s', o) := Cache(s, deposits, next, withdraws);
            var (p, o1) := CacheDeposits(s.pending, deposits, next, 0);
            if next != s.version + n + 1 then s' == s && o.Failed?
            else if o1.Failed? then s' == s.(pending := p) && o == o1
            else s' == s.(pending := p, queue := CacheWithdraws(s.queue, s.withdrawVersion, withdraws).0)
  {
    assert |s.pending| == 0 <==> n == 0 by {
      if n > 0 {
        assert s.version + 1 in s.pending;
      } else {
        assert s.pending == map[];
      }
    }
  }

  /** A successful cache call adds all of the event, deposits and withdraws, and nothing else. */
  lemma CacheTakesAll(s: State, n: nat, deposits: Pending, next: nat, withdraws: seq<Withdraw>)
    requires Inv(s) && Spans(s.pending, s.version, n)
    requires Cache(s, deposits, next, withdraws).1.Done?
    ensures Cache(s, deposits, next, withdraws).0 == s.(pending := s.pending + deposits, queue := s.queue + withdraws)
  {
    CacheAccepts(s, n, deposits, next, withdraws);
    CacheStages(s, n, deposits, next, withdraws);
    WithdrawsFollow(s.queue, s.withdrawVersion, withdraws);
    AllCopied(s.pending, deposits, next);
  }

  lemma CopiedAt(p: Pending, deposits: Pending, next: nat, v: nat)
    requires (forall u :: u in deposits <==> next <= u < next + |deposits|) && forall u | u in deposits :: u !in p
    ensures var p' := CacheDeposits(p, deposits, next, 0).0;
            (v in p' <==> v in p + deposits) && (v in p' ==> p'[v] == (p + deposits)[v])
  {
    CopiedUpToGap(p, deposits, next, 0, v);
  }

  lemma AllCopied(p: Pending, deposits: Pending, next: nat)
    requires (forall u :: u in deposits <==> next <= u < next + |deposits|) && forall u | u in deposits :: u !in p
    ensures CacheDeposits(p, deposits, next, 0).0 == p + deposits
  {
    forall v: nat
      ensures v in CacheDeposits(p, deposits, next, 0).0 <==> v in p + deposits
      ensures v in CacheDeposits(p, deposits, next, 0).0 ==> CacheDeposits(p, deposits, next, 0).0[v] == (p + deposits)[v]
    {
      CopiedAt(p, deposits, next, v);
    }
  }

  /** The withdraw loop appends a leading part of its withdraws. */
  lemma {:induction false} QueuedPart(q: seq<Withdraw>, feed: nat, withdraws: seq<Withdraw>) returns (k: nat)
    ensures k <= |withdraws| && CacheWithdraws(q, feed, withdraws).0 == q + withdraws[..k]
    decreases |withdraws|
  {
    k := 0;
    assert q + withdraws[..0] == q;
    if withdraws != [] {
      var w, rest := withdraws[0], withdraws[1..];
      if w.withdrawVersion > feed && (q == [] || q[|q| - 1].withdrawVersion + 1 == w.withdrawVersion) {
        k := QueuedPart(q + [w], feed, rest);
        k := k + 1;
        assert withdraws[..k] == [w] + rest[..k - 1];
        assert q + withdraws[..k] == q + [w] + rest[..k - 1];
      }
    }
  }

  lemma CacheKeepsInv(s: State, deposits: Pending, next: nat, withdraws: seq<Withdraw>)
    requires Inv(s)
    ensures var s' := Cache(s, deposits, next, withdraws).0;
            && Inv(s') && s' == s.(pending := s'.pending, queue := s'.queue)
            && (forall v | v in s.pending :: v in s'.pending && s'.pending[v] == s.pending[v])
  {
    var n: nat :| Spans(s.pending, s.version, n);
    assert |s.pending| == 0 <==> n == 0 by {
      if n > 0 {
        assert s.version + 1 in s.pending;
      } else {
        assert s.pending == map[];
      }
    }
    if next == s.version + n + 1 {
      CachedSpans(s.pending, s.version, n, deposits, next, 0);
      CachedQueue(s.stakers, s.queue, s.withdrawVersion, withdraws);
    }
  }

  // ---- Runs -----------------------------------------------------------------------------------

  lemma StepKeepsInv(s: State, c: Call)
    requires Inv(s)
    ensures Inv(Step(s, c).0) && OnlyGrows(s.stakers, Step(s, c).0.stakers)
  {
    match c
    case CacheCall(deposits, next, withdraws) => CacheKeepsInv(s, deposits, next, withdraws);
    case GrowCall(version, wv) => GrowKeepsInv(s, version, wv);
    case UpdateCall(data, version, wv) => UpdateKeepsInv(s, data, version, wv);
  }

  /**
   After any run of calls, failed ones included: the cache is the gap-free block behind the feed
   version, the queue is sorted and ahead of the feed, a staker ahead of the feed has its withdraw
   queued, and no staker, validator or withdraw version has gone back.
   */
  lemma {:induction false} RunKeepsInv(s: State, calls: seq<Call>)
    requires Inv(s)
    ensures Inv(Run(s, calls)) && OnlyGrows(s.stakers, Run(s, calls).stakers)
    decreases |calls|
  {
    if calls != [] {
      StepKeepsInv(s, calls[0]);
      RunKeepsInv(Step(s, calls[0]).0, calls[1..]);
    }
  }

  /** A cached deposit that cannot be applied, as its staker already lists its validator. */
  ghost predicate Blocked(s: State, v: nat) {
    v in s.pending && Holds(s.stakers, s.pending[v])
  }

  lemma BlockedStep(s: State, c: Call, v: nat)
    requires Inv(s) && Blocked(s, v)
    ensures Blocked(Step(s, c).0, v)
  {
    StepKeepsInv(s, c);
    match c
    case CacheCall(deposits, next, withdraws) =>
      CacheKeepsInv(s, deposits, next, withdraws);
    case GrowCall(version, wv) =>
      var d := ApplyDeposits(s.stakers, s.pending, s.version + 1, version);
      if Grow(s, version, wv).1.Failed? {
        if version >= 1 {
          TryGrowFailsInto(s, version, wv, true, d);
        }
      } else {
        GrowByRun(s, version, wv, d);
        BlockedIsAhead(s, version, d, v);
      }
    case UpdateCall(data, version, wv) =>
      var d := ApplyDeposits(s.stakers, s.pending, s.version + 1, version);
      if ApplyChanges(s, data, version, wv).1.Failed? {
        UpdateFailsInto(s, data, version, wv, d);
      } else {
        UpdatedStakers(s, data, version, wv, d);
        BlockedIsAhead(s, version, d, v);
      }
  }

  lemma BlockedIsAhead(s: State, version: nat, d: DepositRun, v: nat)
    requires Inv(s) && Blocked(s, v)
    requires d == ApplyDeposits(s.stakers, s.pending, s.version + 1, version) && d.outcome.Done?
    ensures v > version
  {
    if v <= version {
      AppliedIsNew(s.stakers, s.pending, s.version + 1, version, v);
    }
  }

  /** Once blocked at a version, no run of calls ever feeds that version: only a reset helps. */
  lemma {:induction false} BlockedForGood(s: State, calls: seq<Call>, v: nat)
    requires Inv(s) && Blocked(s, v)
    ensures Blocked(Run(s, calls), v) && Run(s, calls).version < v
    decreases |calls|
  {
    if calls == [] {
      var n: nat :| Spans(s.pending, s.version, n);
    } else {
      StepKeepsInv(s, calls[0]);
      BlockedStep(s, calls[0], v);
      BlockedForGood(Step(s, calls[0]).0, calls[1..], v);
    }
  }

  lemma UndoneIntactOrBlocked(s: State, version: nat, d: DepositRun)
    requires d == ApplyDeposits(s.stakers, s.pending, s.version + 1, version)
    ensures Intact(s, Undone(s, d)) || exists v :: Blocked(Undone(s, d), v)
  {
    var u := Undone(s, d);
    UndoExact(s.stakers, s.pending, s.version, version, d);
    if LeavesOne(u.stakers, s.pending, s.version + 1, d.next) {
      var w :| s.version + 1 <= w < d.next && w in s.pending && Holds(u.stakers, s.pending[w]);
      assert Blocked(u, w);
    }
  }

  lemma FailedIntactOrBlocked(s: State, version: nat, d: DepositRun, s': State)
    requires d == ApplyDeposits(s.stakers, s.pending, s.version + 1, version)
    requires FailsInto(s, d, s')
    ensures Intact(s, s') || exists v :: Blocked(s', v)
  {
    if s' == s {
      assert forall k: nat :: RestoredAt(s.stakers, s.stakers, k);
    } else if s' == Undone(s, d) {
      UndoneIntactOrBlocked(s, version, d);
    } else if d.next > s.version + 1 {
      AppliedIsThere(s.stakers, s.pending, s.version + 1, version, s.version + 1);
      assert Blocked(s', s.version + 1);
    }
  }

  /**
   A grow or update that fails leaves the ledger intact or blocked: there is no third way, and a
   blocked ledger stays blocked (`BlockedForGood`).
   */
  lemma FailureIsIntactOrBlocks(s: State, c: Call)
    requires Inv(s) && !c.CacheCall? && Step(s, c).1.Failed?
    ensures Intact(s, Step(s, c).0) || exists v :: Blocked(Step(s, c).0, v)
  {
    var d := ApplyDeposits(s.stakers, s.pending, s.version + 1, c.version);
    if c.GrowCall? && c.version >= 1 {
      TryGrowFailsInto(s, c.version, c.wv, true, d);
    } else if c.UpdateCall? {
      UpdateFailsInto(s, c.data, c.version, c.wv, d);
    }
    FailedIntactOrBlocked(s, c.version, d, Step(s, c).0);
  }
}
