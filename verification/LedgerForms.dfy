/**
 Closed forms of the two growing loops: what they do to one staker, said without the loop.
 Everything else about the ledger is proved from these.
 */
module LedgerForms {
  import opened Prelude
  import opened Ledger
  import opened Sorting

  predicate Covers(p: Pending, lo: nat, hi: nat) {
    forall v | lo <= v < hi :: v in p
  }

  /** Staker `k`'s pending deposits of versions `lo .. hi - 1`, in version order. */
  function DepositsFor(p: Pending, k: nat, lo: nat, hi: nat): seq<Deposit>
    requires Covers(p, lo, hi)
    decreases hi - lo
  {
    if lo >= hi then []
    else (if p[lo].stakerIndex == k then [p[lo]] else []) + DepositsFor(p, k, lo + 1, hi)
  }

  function Validators(ds: seq<Deposit>): seq<string> {
    seq(|ds|, i requires 0 <= i < |ds| => ds[i].validator)
  }

  /** The deposited amounts in unbounded arithmetic. */
  function Amounts(ds: seq<Deposit>): nat {
    if ds == [] then 0 else ds[0].amount + Amounts(ds[1..])
  }

  /** A balance after adding the amounts one by one in 64 bits. */
  function Accumulate(b: uint64, ds: seq<Deposit>): uint64
    decreases |ds|
  {
    if ds == [] then b else Accumulate(WrapAdd(b, ds[0].amount), ds[1..])
  }

  /** That is the balance plus the amounts, modulo 2^64. */
  lemma {:induction false} AccumulateIsSum(b: uint64, ds: seq<Deposit>)
    ensures Accumulate(b, ds) == (b + Amounts(ds)) % TWO64
    decreases |ds|
  {
    if ds != [] {
      AccumulateIsSum(WrapAdd(b, ds[0].amount), ds[1..]);
      WrapAddIsModular(b, ds[0].amount);
      ModAdd(b + ds[0].amount, Amounts(ds[1..]));
    }
  }

  /** A staker after the deposits `ds`. */
  function Gain(s: Staker, ds: seq<Deposit>): Staker {
    s.(validators := s.validators + Validators(ds), balance := Accumulate(s.balance, ds))
  }

  /** The same, for a staker that may not exist yet: its first deposit brings its address. */
  function Extend(o: Option<Staker>, ds: seq<Deposit>): Option<Staker> {
    if ds == [] then o
    else Some(Gain(if o.Some? then o.value else Staker(ds[0].stakerAddr, [], 0, 0), ds))
  }

  lemma GainStep(s: Staker, d: Deposit, ds: seq<Deposit>)
    ensures Gain(s, [d]) == AddValidator(s, d.validator, d.amount)
    ensures Gain(Gain(s, [d]), ds) == Gain(s, [d] + ds)
  {
    var all := [d] + ds;
    assert all[0] == d && all[1..] == ds;
    assert [d][0] == d && [d][1..] == [];
    assert Validators([d]) == [d.validator];
    assert s.validators + Validators([d]) + Validators(ds) == s.validators + Validators(all);
    assert Accumulate(s.balance, [d]) == Accumulate(WrapAdd(s.balance, d.amount), []);
  }

  lemma ExtendStep(o: Option<Staker>, d: Deposit, ds: seq<Deposit>)
    ensures Extend(Extend(o, [d]), ds) == Extend(o, [d] + ds)
  {
    var s := if o.Some? then o.value else Staker(d.stakerAddr, [], 0, 0);
    GainStep(s, d, ds);
    assert [d] + [] == [d];
  }

  lemma {:induction false} ExtendAppend(o: Option<Staker>, ds: seq<Deposit>, es: seq<Deposit>)
    ensures Extend(Extend(o, ds), es) == Extend(o, ds + es)
    decreases |ds|
  {
    if ds == [] {
      assert ds + es == es;
    } else {
      var d, rest := ds[0], ds[1..];
      assert ds == [d] + rest && ds + es == [d] + (rest + es);
      ExtendStep(o, d, rest);
      ExtendAppend(Extend(o, [d]), rest, es);
      ExtendStep(o, d, rest + es);
    }
  }

  lemma {:induction false} DepositsForSplit(p: Pending, k: nat, lo: nat, mid: nat, hi: nat)
    requires lo <= mid <= hi && Covers(p, lo, hi)
    ensures DepositsFor(p, k, lo, hi) == DepositsFor(p, k, lo, mid) + DepositsFor(p, k, mid, hi)
    decreases mid - lo
  {
    if lo < mid {
      DepositsForSplit(p, k, lo + 1, mid, hi);
    }
  }

  lemma AddDepositLookup(m: StakerMap, d: Deposit, k: nat)
    ensures Lookup(AddDeposit(m, d), k) == Extend(Lookup(m, k), if d.stakerIndex == k then [d] else [])
  {
    GainStep(if k in m then m[k] else Staker(d.stakerAddr, [], 0, 0), d, []);
    assert [] + [d.validator] == [d.validator];
  }

  /**
   The deposit loop, staker by staker: whether it runs to the end or stops early, each staker has
   gained exactly its own deposits of the versions passed, in version order.
   */
  lemma {:induction false} DepositsClosedForm(m: StakerMap, p: Pending, i: nat, version: nat, k: nat)
    ensures var r := ApplyDeposits(m, p, i, version);
            Lookup(r.stakers, k) == Extend(Lookup(m, k), DepositsFor(p, k, i, r.next))
    decreases version + 1 - i
  {
    var r := ApplyDeposits(m, p, i, version);
    if i <= version && i in p && DepositOutcome(m, p[i]).Done? {
      var mine := if p[i].stakerIndex == k then [p[i]] else [];
      var m1 := AddDeposit(m, p[i]);
      DepositsClosedForm(m1, p, i + 1, version, k);
      AddDepositLookup(m, p[i], k);
      var rest := DepositsFor(p, k, i + 1, r.next);
      ExtendAppend(Lookup(m, k), mine, rest);
      assert DepositsFor(p, k, i, r.next) == mine + rest;
    }
  }

  // ---- Getting to the loops -------------------------------------------------------------------

  /** The grow gets past its guards: it moves forward, and something is cached wherever it moves. */
  predicate Guarded(s: State, version: nat, wv: nat) {
    && version >= s.version && wv >= s.withdrawVersion && (version > s.version || wv > s.withdrawVersion)
    && (version > s.version ==> |s.pending| > 0) && (wv > s.withdrawVersion ==> |s.queue| > 0)
  }

  lemma GuardsPass(s: State, version: nat, wv: nat, update: bool, d: DepositRun)
    requires d == ApplyDeposits(s.stakers, s.pending, s.version + 1, version)
    requires Guarded(s, version, wv)
    ensures TryGrow(s, version, wv, update) == AfterDeposits(s, d, wv)
  {
  }

  /** Without its guards a grow fails early, but for one that may stand still and does. */
  lemma GuardsStop(s: State, version: nat, wv: nat, update: bool)
    requires !Guarded(s, version, wv)
    ensures TryGrow(s, version, wv, update).0 == s
    ensures TryGrow(s, version, wv, update).1.Done? <==> !update && version == s.version && wv == s.withdrawVersion
  {
  }

  // ---- When the deposit loop can go on --------------------------------------------------------

  /** The staker indexes there are before version `w`: those of `m` and those deposited to from `lo` on. */
  function IndexesBefore(m: StakerMap, p: Pending, lo: nat, w: nat): set<nat>
    requires Covers(p, lo, w)
  {
    m.Keys + set v | lo <= v < w :: p[v].stakerIndex
  }

  /** The deposit's validator is in its staker's list. */
  predicate Holds(m: StakerMap, d: Deposit) {
    d.stakerIndex in m && d.validator in m[d.stakerIndex].validators
  }

  /** The validator of version `w` is new: its staker does not list it, and no deposit from `lo` on brought it. */
  predicate BringsNew(m: StakerMap, p: Pending, lo: nat, w: nat)
    requires lo <= w && Covers(p, lo, w + 1)
  {
    && !Holds(m, p[w])
    && forall v | lo <= v < w :: p[v].stakerIndex == p[w].stakerIndex ==> p[v].validator != p[w].validator
  }

  /** The index of version `w` is there already, or is the next one free. */
  predicate IndexFits(m: StakerMap, p: Pending, lo: nat, w: nat)
    requires lo <= w && Covers(p, lo, w + 1)
  {
    var indexes := IndexesBefore(m, p, lo, w);
    p[w].stakerIndex in indexes || p[w].stakerIndex == |indexes|
  }

  /** Version `w` can be applied after all those from `lo` on. */
  predicate AppliesAt(m: StakerMap, p: Pending, lo: nat, w: nat) {
    lo <= w && Covers(p, lo, w + 1) && IndexFits(m, p, lo, w) && BringsNew(m, p, lo, w)
  }

  predicate CanApply(m: StakerMap, p: Pending, lo: nat, version: nat) {
    Covers(p, lo, version + 1) && forall w | lo <= w <= version :: AppliesAt(m, p, lo, w)
  }

  /** `next` is the first version from `lo` on that cannot be applied, or the one after `version`. */
  predicate StopsAt(m: StakerMap, p: Pending, lo: nat, version: nat, next: nat) {
    && (forall w | lo <= w < next :: AppliesAt(m, p, lo, w))
    && (if lo <= version then lo <= next <= version + 1 else next == lo)
    && (next <= version ==> !AppliesAt(m, p, lo, next))
  }

  lemma IndexesAfterOne(m: StakerMap, p: Pending, lo: nat, w: nat)
    requires lo < w && Covers(p, lo, w)
    ensures IndexesBefore(AddDeposit(m, p[lo]), p, lo + 1, w) == IndexesBefore(m, p, lo, w)
  {
  }

  lemma ListedAfterOne(m: StakerMap, d: Deposit, e: Deposit)
    ensures Holds(AddDeposit(m, d), e) <==>
              Holds(m, e) || (e.stakerIndex == d.stakerIndex && e.validator == d.validator)
  {
  }

  /** What can be applied after the first deposit is what can be applied with it. */
  lemma AppliesAfterOne(m: StakerMap, p: Pending, lo: nat, w: nat)
    requires lo < w && lo in p
    ensures AppliesAt(AddDeposit(m, p[lo]), p, lo + 1, w) <==> AppliesAt(m, p, lo, w)
  {
    if Covers(p, lo + 1, w + 1) {
      IndexesAfterOne(m, p, lo, w);
      ListedAfterOne(m, p[lo], p[w]);
    }
  }

  lemma FirstApplies(m: StakerMap, p: Pending, lo: nat)
    ensures AppliesAt(m, p, lo, lo) <==> lo in p && DepositOutcome(m, p[lo]).Done?
  {
    if lo in p {
      assert IndexesBefore(m, p, lo, lo) == m.Keys;
      assert |m.Keys| == |m|;
    }
  }

  /** Why a run stops at a version that cannot be applied. */
  function WhyNot(m: StakerMap, p: Pending, lo: nat, w: nat): Error
    requires lo <= w && Covers(p, lo, w)
  {
    if w !in p then MissingDeposit
    else if !IndexFits(m, p, lo, w) then IndexGap
    else DuplicateValidator
  }

  lemma WhyNotAfterOne(m: StakerMap, p: Pending, lo: nat, w: nat)
    requires lo < w && Covers(p, lo, w)
    ensures WhyNot(AddDeposit(m, p[lo]), p, lo + 1, w) == WhyNot(m, p, lo, w)
  {
    IndexesAfterOne(m, p, lo, w);
  }

  lemma StopsAfterOne(m: StakerMap, p: Pending, lo: nat, version: nat, next: nat)
    requires lo <= version && lo in p && AppliesAt(m, p, lo, lo)
    requires StopsAt(AddDeposit(m, p[lo]), p, lo + 1, version, next)
    ensures StopsAt(m, p, lo, version, next)
  {
    forall w | lo < w
      ensures AppliesAt(AddDeposit(m, p[lo]), p, lo + 1, w) <==> AppliesAt(m, p, lo, w)
    {
      AppliesAfterOne(m, p, lo, w);
    }
  }

  /** The run from `lo` stops at the first version that cannot be applied, and for that version's reason. */
  lemma {:induction false} RunStops(m: StakerMap, p: Pending, lo: nat, version: nat, d: DepositRun)
    requires d == ApplyDeposits(m, p, lo, version)
    ensures StopsAt(m, p, lo, version, d.next)
    ensures d.outcome == if d.next <= version then Failed(WhyNot(m, p, lo, d.next)) else Done
    decreases version + 1 - lo
  {
    FirstApplies(m, p, lo);
    if lo <= version && AppliesAt(m, p, lo, lo) {
      RunStops(AddDeposit(m, p[lo]), p, lo + 1, version, d);
      StopsAfterOne(m, p, lo, version, d.next);
      if d.next <= version {
        WhyNotAfterOne(m, p, lo, d.next);
      }
    } else if lo <= version {
      StopsAtOnce(m, p, lo);
    }
  }

  lemma StopsOnce(m: StakerMap, p: Pending, lo: nat, version: nat, a: nat, b: nat)
    requires StopsAt(m, p, lo, version, a) && StopsAt(m, p, lo, version, b)
    ensures a == b
  {
    assert a < b ==> AppliesAt(m, p, lo, a);
    assert b < a ==> AppliesAt(m, p, lo, b);
  }

  lemma StopsAtOnce(m: StakerMap, p: Pending, lo: nat)
    requires !AppliesAt(m, p, lo, lo)
    ensures (if lo in p then DepositOutcome(m, p[lo]) else Failed(MissingDeposit)) == Failed(WhyNot(m, p, lo, lo))
  {
    if lo in p {
      assert IndexesBefore(m, p, lo, lo) == m.Keys;
      assert |m.Keys| == |m|;
    }
  }

  /** The stakers after a run are those there were and those deposited to. */
  lemma {:induction false} RunIndexes(m: StakerMap, p: Pending, lo: nat, version: nat, d: DepositRun)
    requires d == ApplyDeposits(m, p, lo, version)
    ensures d.stakers.Keys == IndexesBefore(m, p, lo, d.next)
    decreases version + 1 - lo
  {
    if d.next > lo {
      RunIndexes(AddDeposit(m, p[lo]), p, lo + 1, version, d);
      IndexesAfterOne(m, p, lo, d.next);
    }
  }

  /** The run comes to its end exactly when every version can be applied. */
  lemma RunCompletes(m: StakerMap, p: Pending, lo: nat, version: nat, d: DepositRun)
    requires d == ApplyDeposits(m, p, lo, version)
    ensures d.outcome.Done? <==> CanApply(m, p, lo, version)
  {
    RunStops(m, p, lo, version, d);
  }

  /** A run to `version` that passes `mid` is the run to `mid` followed by the rest. */
  lemma {:induction false} ApplyDepositsSplit(m: StakerMap, p: Pending, i: nat, mid: nat, version: nat)
    requires i <= mid + 1 <= version + 1
    requires ApplyDeposits(m, p, i, mid).outcome.Done?
    ensures ApplyDeposits(m, p, i, version) == ApplyDeposits(ApplyDeposits(m, p, i, mid).stakers, p, mid + 1, version)
    decreases mid + 1 - i
  {
    if i <= mid {
      ApplyDepositsSplit(AddDeposit(m, p[i]), p, i + 1, mid, version);
    }
  }

  /** The loop looks only at versions it passes. */
  lemma {:induction false} ApplyDepositsFrame(m: StakerMap, p: Pending, p': Pending, i: nat, version: nat)
    requires forall v | i <= v <= version :: (v in p <==> v in p') && (v in p ==> p[v] == p'[v])
    ensures ApplyDeposits(m, p, i, version) == ApplyDeposits(m, p', i, version)
    decreases version + 1 - i
  {
    if i <= version && i in p && DepositOutcome(m, p[i]).Done? {
      ApplyDepositsFrame(AddDeposit(m, p[i]), p, p', i + 1, version);
    }
  }

  lemma {:induction false} DepositsForFrame(p: Pending, p': Pending, k: nat, lo: nat, hi: nat)
    requires Covers(p, lo, hi) && Covers(p', lo, hi)
    requires forall v | lo <= v < hi :: p[v] == p'[v]
    ensures DepositsFor(p, k, lo, hi) == DepositsFor(p', k, lo, hi)
    decreases hi - lo
  {
    if lo < hi {
      DepositsForFrame(p, p', k, lo + 1, hi);
    }
  }

  // ---- Withdraw stamps ------------------------------------------------------------------------

  /** The leading part of the queue that a withdraw target covers. */
  function Due(q: seq<Withdraw>, target: nat): seq<Withdraw> {
    if q == [] || q[0].withdrawVersion > target then [] else [q[0]] + Due(q[1..], target)
  }

  /** The version of the last entry of `q` for staker `k`, or `otherwise`. */
  function Latest(q: seq<Withdraw>, k: nat, otherwise: nat): nat {
    if q == [] then otherwise
    else Latest(q[1..], k, if q[0].stakerIndex == k then q[0].withdrawVersion else otherwise)
  }

  function Stamp(m: StakerMap, q: seq<Withdraw>): StakerMap {
    map k | k in m :: m[k].(withdrawVersion := Latest(q, k, m[k].withdrawVersion))
  }

  predicate Known(m: StakerMap, q: seq<Withdraw>) {
    forall w | w in q :: w.stakerIndex in m
  }

  lemma StampStep(m: StakerMap, w: Withdraw, q: seq<Withdraw>)
    requires w.stakerIndex in m
    ensures Stamp(m[w.stakerIndex := m[w.stakerIndex].(withdrawVersion := w.withdrawVersion)], q) == Stamp(m, [w] + q)
  {
    assert ([w] + q)[0] == w && ([w] + q)[1..] == q;
  }

  /**
   The withdraw loop: it succeeds exactly when every due entry names a known staker, and then each
   staker carries the latest version due for it.
   */
  lemma {:induction false} WithdrawsClosedForm(m: StakerMap, q: seq<Withdraw>, target: nat, prev: map<nat, nat>, latest: nat)
    ensures var r := ApplyWithdraws(m, q, target, prev, latest);
            && (r.outcome.Done? <==> Known(m, Due(q, target)))
            && (r.outcome.Done? ==> r.stakers == Stamp(m, Due(q, target)))
    decreases |q|
  {
    if q == [] || q[0].withdrawVersion > target {
      assert Stamp(m, []) == m;
    } else {
      var w, due := q[0], Due(q[1..], target);
      assert w in [w] + due;
      if w.stakerIndex in m {
        var k := w.stakerIndex;
        var m1 := m[k := m[k].(withdrawVersion := w.withdrawVersion)];
        WithdrawsClosedForm(m1, q[1..], target, if k in prev then prev else prev[k := m[k].withdrawVersion], w.withdrawVersion);
        StampStep(m, w, due);
        assert m1.Keys == m.Keys;
        assert forall x | x in due :: x in [w] + due;
      }
    }
  }

  predicate SortedQueue(q: seq<Withdraw>) {
    SortedBy(q, VersionOf)
  }

  function VersionOf(w: Withdraw): nat {
    w.withdrawVersion
  }

  /** On a sorted queue the prefix cut removes everything up to the version it is given. */
  lemma {:induction false} CutAbove(q: seq<Withdraw>, wv: nat)
    requires SortedQueue(q)
    ensures SortedQueue(CutQueue(q, wv))
    ensures forall w :: w in CutQueue(q, wv) <==> w in q && w.withdrawVersion > wv
  {
    if q != [] && q[0].withdrawVersion <= wv {
      CutAbove(q[1..], wv);
      assert q == [q[0]] + q[1..];
    }
  }

  lemma {:induction false} DueSplit(q: seq<Withdraw>, w1: nat, w2: nat)
    requires w1 <= w2
    ensures Due(q, w2) == Due(q, w1) + Due(CutQueue(q, w1), w2)
    ensures CutQueue(CutQueue(q, w1), w2) == CutQueue(q, w2)
  {
    if q != [] && q[0].withdrawVersion <= w1 {
      DueSplit(q[1..], w1, w2);
    }
  }

  lemma {:induction false} LatestAppend(q: seq<Withdraw>, q': seq<Withdraw>, k: nat, otherwise: nat)
    ensures Latest(q + q', k, otherwise) == Latest(q', k, Latest(q, k, otherwise))
  {
    if q == [] {
      assert q + q' == q';
    } else {
      assert (q + q')[1..] == q[1..] + q' && (q + q')[0] == q[0];
      LatestAppend(q[1..], q', k, if q[0].stakerIndex == k then q[0].withdrawVersion else otherwise);
    }
  }

  /** The two loops touch different fields: equal up to withdraw versions stays equal up to them. */
  ghost predicate SameButStamps(a: StakerMap, b: StakerMap) {
    && a.Keys == b.Keys
    && forall k | k in a :: a[k].(withdrawVersion := 0) == b[k].(withdrawVersion := 0)
  }

  lemma AddDepositStamps(a: StakerMap, b: StakerMap, d: Deposit)
    requires SameButStamps(a, b)
    ensures DepositOutcome(a, d) == DepositOutcome(b, d)
    ensures SameButStamps(AddDeposit(a, d), AddDeposit(b, d))
  {
    assert |a.Keys| == |b.Keys|;
  }

  lemma {:induction false} ApplyDepositsStamps(a: StakerMap, b: StakerMap, p: Pending, i: nat, version: nat)
    requires SameButStamps(a, b)
    ensures var r, r' := ApplyDeposits(a, p, i, version), ApplyDeposits(b, p, i, version);
            r.next == r'.next && r.outcome == r'.outcome && SameButStamps(r.stakers, r'.stakers)
    decreases version + 1 - i
  {
    if i <= version && i in p {
      AddDepositStamps(a, b, p[i]);
      if DepositOutcome(a, p[i]).Done? {
        ApplyDepositsStamps(AddDeposit(a, p[i]), AddDeposit(b, p[i]), p, i + 1, version);
      }
    }
  }

  /** Deposits keep every staker, its address and its withdraw version, and only extend its validators. */
  lemma DepositsKeep(m: StakerMap, p: Pending, i: nat, version: nat)
    ensures var r := ApplyDeposits(m, p, i, version);
            && m.Keys <= r.stakers.Keys
            && (forall k | k in m :: r.stakers[k].withdrawVersion == m[k].withdrawVersion
                                     && r.stakers[k].address == m[k].address
                                     && m[k].validators <= r.stakers[k].validators)
            && (forall k | k in r.stakers && k !in m :: r.stakers[k].withdrawVersion == 0)
  {
    var r := ApplyDeposits(m, p, i, version);
    forall k
      ensures k in m ==> k in r.stakers
      ensures k in m ==> r.stakers[k].withdrawVersion == m[k].withdrawVersion
      ensures k in m ==> r.stakers[k].address == m[k].address
      ensures k in m ==> m[k].validators <= r.stakers[k].validators
      ensures k in r.stakers && k !in m ==> r.stakers[k].withdrawVersion == 0
    {
      DepositsClosedForm(m, p, i, version, k);
    }
  }
}
