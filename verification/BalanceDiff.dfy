/**
 The fetchers' balance diff: each staker's validators are asked for in batches of at most 100, the
 answers are summed, and the stakers whose sum is news are listed by index. The list is what a
 balance update of the ledger applies.
 */
module BalanceDiff {
  import opened Prelude
  import opened Ledger
  import opened LedgerForms
  import opened LedgerRollback
  import opened LedgerPath
  import opened LedgerApply
  import opened Sorting

  const BATCH: nat := 100

  /** The outside service: what it answers to one batch of validators, or that it failed. */
  type Service = seq<string> -> Option<seq<uint64>>

  /** The batches in which a validator list is asked for. */
  function Batches(vs: seq<string>): seq<seq<string>> {
    if |vs| <= BATCH then [vs] else [vs[..BATCH]] + Batches(vs[BATCH..])
  }

  function Flatten(bs: seq<seq<string>>): seq<string> {
    if bs == [] then [] else bs[0] + Flatten(bs[1..])
  }

  /** The batches partition the list in order, none exceeds the limit, and all but the last are full. */
  lemma {:induction false} BatchesPartition(vs: seq<string>)
    ensures Flatten(Batches(vs)) == vs
    ensures forall i | 0 <= i < |Batches(vs)| :: |Batches(vs)[i]| <= BATCH && (i < |Batches(vs)| - 1 ==> |Batches(vs)[i]| == BATCH)
    ensures vs != [] ==> forall i | 0 <= i < |Batches(vs)| :: Batches(vs)[i] != []
    decreases |vs|
  {
    if |vs| <= BATCH {
      assert Flatten([vs]) == vs + Flatten([]);
    } else {
      BatchesPartition(vs[BATCH..]);
      assert ([vs[..BATCH]] + Batches(vs[BATCH..]))[1..] == Batches(vs[BATCH..]);
    }
  }

  /** A running 64-bit sum. */
  function AddAll(b: uint64, xs: seq<uint64>): uint64
    decreases |xs|
  {
    if xs == [] then b else AddAll(WrapAdd(b, xs[0]), xs[1..])
  }

  /** The running sum over the answers to all batches; nothing if one of them fails. */
  function SumBatches(service: Service, bs: seq<seq<string>>, b: uint64): Option<uint64>
    decreases |bs|
  {
    if bs == [] then Some(b)
    else if service(bs[0]).None? then None
    else SumBatches(service, bs[1..], AddAll(b, service(bs[0]).value))
  }

  method AddBalances(b: uint64, xs: seq<uint64>) returns (sum: uint64)
    ensures sum == AddAll(b, xs)
  {
    sum := b;
    var i := 0;
    while i < |xs|
      invariant i <= |xs| && AddAll(sum, xs[i..]) == AddAll(b, xs)
    {
      assert xs[i..][0] == xs[i] && xs[i..][1..] == xs[i + 1..];
      sum := WrapAdd(sum, xs[i]);
      i := i + 1;
    }
  }

  /** The batching loop shared by the fetchers, on top of a starting balance. */
  method FetchBalance(service: Service, validators: seq<string>, start: uint64) returns (balance: Option<uint64>)
    ensures balance == SumBatches(service, Batches(validators), start)
  {
    var sum: uint64 := start;
    var l, i := |validators|, 0;
    while l > BATCH
      invariant i <= |validators| && l == |validators| - i
      invariant SumBatches(service, Batches(validators[i..]), sum) == SumBatches(service, Batches(validators), start)
    {
      var batch := validators[i..i + BATCH];
      assert validators[i..][..BATCH] == batch && validators[i..][BATCH..] == validators[i + BATCH..];
      assert Batches(validators[i..])[1..] == Batches(validators[i + BATCH..]);
      i := i + BATCH;
      l := l - BATCH;
      var answer := service(batch);
      if answer.None? {
        return None;
      }
      sum := AddBalances(sum, answer.value);
    }
    var answer := service(validators[i..]);
    if answer.None? {
      return None;
    }
    sum := AddBalances(sum, answer.value);
    balance := Some(sum);
  }

  // ---- A service that answers validator by validator ------------------------------------------

  function Each(f: string -> uint64, vs: seq<string>): seq<uint64> {
    seq(|vs|, i requires 0 <= i < |vs| => f(vs[i]))
  }

  lemma {:induction false} AddAllSplit(b: uint64, xs: seq<uint64>, ys: seq<uint64>)
    ensures AddAll(b, xs + ys) == AddAll(AddAll(b, xs), ys)
    decreases |xs|
  {
    if xs == [] {
      assert xs + ys == ys;
    } else {
      assert (xs + ys)[0] == xs[0] && (xs + ys)[1..] == xs[1..] + ys;
      AddAllSplit(WrapAdd(b, xs[0]), xs[1..], ys);
    }
  }

  /** Batching does not show: the sum is the one over the whole list. */
  lemma {:induction false} BatchingIsInvisible(service: Service, f: string -> uint64, vs: seq<string>, b: uint64)
    requires forall batch :: |batch| <= BATCH ==> service(batch) == Some(Each(f, batch))
    ensures SumBatches(service, Batches(vs), b) == Some(AddAll(b, Each(f, vs)))
    decreases |vs|
  {
    if |vs| <= BATCH {
      assert [vs][1..] == [];
    } else {
      var first, rest := vs[..BATCH], vs[BATCH..];
      BatchingIsInvisible(service, f, rest, AddAll(b, Each(f, first)));
      assert Each(f, vs) == Each(f, first) + Each(f, rest);
      AddAllSplit(b, Each(f, first), Each(f, rest));
      assert Batches(vs)[1..] == Batches(rest);
    }
  }

  // ---- What the running sums come to ----------------------------------------------------------

  /** The answers added up in unbounded arithmetic, last to first. */
  function Sum(xs: seq<uint64>): nat {
    if xs == [] then 0 else Sum(xs[..|xs| - 1]) + xs[|xs| - 1]
  }

  /** The validators' balances added up, as the service knows them. */
  function SumOver(f: string -> uint64, vs: seq<string>): nat {
    if vs == [] then 0 else SumOver(f, vs[..|vs| - 1]) + f(vs[|vs| - 1])
  }

  lemma AddAllAppend(b: uint64, xs: seq<uint64>, x: uint64)
    ensures AddAll(b, xs + [x]) == WrapAdd(AddAll(b, xs), x)
  {
    AddAllSplit(b, xs, [x]);
    assert [x][1..] == [];
    assert AddAll(AddAll(b, xs), [x]) == AddAll(WrapAdd(AddAll(b, xs), x), []);
  }

  /** A running sum is the start plus all answers, modulo 2^64. */
  lemma {:induction false} AddAllIsSum(b: uint64, xs: seq<uint64>)
    ensures AddAll(b, xs) == (b + Sum(xs)) % TWO64
  {
    if xs != [] {
      var before, last := xs[..|xs| - 1], xs[|xs| - 1];
      assert xs == before + [last];
      AddAllIsSum(b, before);
      AddAllAppend(b, before, last);
      WrapAddIsModular(b + Sum(before), last);
    }
  }

  lemma {:induction false} SumOfEach(f: string -> uint64, vs: seq<string>)
    ensures Sum(Each(f, vs)) == SumOver(f, vs)
  {
    if vs != [] {
      var before := vs[..|vs| - 1];
      SumOfEach(f, before);
      assert Each(f, vs)[..|vs| - 1] == Each(f, before);
    }
  }

  /** The fetched balance is the start plus the balances of all validators, modulo 2^64. */
  lemma BatchedSum(service: Service, f: string -> uint64, vs: seq<string>, b: uint64)
    requires forall batch :: |batch| <= BATCH ==> service(batch) == Some(Each(f, batch))
    ensures SumBatches(service, Batches(vs), b) == Some((b + SumOver(f, vs)) % TWO64)
  {
    BatchingIsInvisible(service, f, vs, b);
    AddAllIsSum(b, Each(f, vs));
    SumOfEach(f, vs);
  }

  predicate FailsOnOne(service: Service, bs: seq<seq<string>>) {
    exists i :: 0 <= i < |bs| && service(bs[i]).None?
  }

  /** Whatever the service, nothing is fetched exactly when it fails on some batch. */
  lemma {:induction false} FailsOnSomeBatch(service: Service, bs: seq<seq<string>>, b: uint64)
    ensures SumBatches(service, bs, b).None? <==> FailsOnOne(service, bs)
    decreases |bs|
  {
    if bs != [] && service(bs[0]).Some? {
      FailsOnSomeBatch(service, bs[1..], AddAll(b, service(bs[0]).value));
      if i :| 0 <= i < |bs| && service(bs[i]).None? {
        assert bs[1..][i - 1] == bs[i];
      }
    }
  }

  // ---- The change list ------------------------------------------------------------------------

  predicate StrictlySorted(cs: seq<Change>) {
    forall i, j | 0 <= i < j < |cs| :: cs[i].stakerIndex < cs[j].stakerIndex
  }

  /** The list holds exactly the stakers picked, each with its new balance. */
  ghost predicate Lists(cs: seq<Change>, news: map<nat, uint64>) {
    forall c: Change :: c in cs <==> c.stakerIndex in news && news[c.stakerIndex] == c.balance
  }

  /** The stakers whose fetched balance differs from the ledger's. */
  function Differing(m: StakerMap, fetched: map<nat, uint64>): map<nat, uint64>
    requires fetched.Keys == m.Keys
  {
    map k | k in m && fetched[k] != m[k].balance :: fetched[k]
  }

  method SortChanges(cs: seq<Change>, ghost news: map<nat, uint64>) returns (sorted: seq<Change>)
    requires Lists(cs, news) && NoRepeats(cs)
    ensures StrictlySorted(sorted) && Lists(sorted, news)
  {
    sorted := Sort(cs, (c: Change) => c.stakerIndex);
    forall c: Change
      ensures c in sorted <==> c in cs
    {
      assert c in sorted <==> c in multiset(sorted);
      assert c in cs <==> c in multiset(cs);
    }
    SortedNoRepeats(cs, sorted, news);
  }

  predicate NoRepeats(cs: seq<Change>) {
    forall i, j | 0 <= i < j < |cs| :: cs[i] != cs[j]
  }

  lemma {:induction false} CountOnce(cs: seq<Change>, c: Change)
    ensures NoRepeats(cs) ==> multiset(cs)[c] <= 1
    ensures forall i, j | 0 <= i < j < |cs| && cs[i] == c && cs[j] == c :: multiset(cs)[c] >= 2
    decreases |cs|
  {
    if cs != [] {
      var first, rest := cs[0], cs[1..];
      assert cs == [first] + rest;
      CountOnce(rest, c);
      if NoRepeats(cs) && first == c {
        assert c !in rest;
        assert c !in multiset(rest);
      }
      forall i, j | 0 <= i < j < |cs| && cs[i] == c && cs[j] == c
        ensures multiset(cs)[c] >= 2
      {
        if i == 0 {
          assert rest[j - 1] == c;
          assert c in multiset(rest);
        } else {
          assert rest[i - 1] == c && rest[j - 1] == c;
        }
      }
    }
  }

  lemma SortedNoRepeats(cs: seq<Change>, sorted: seq<Change>, news: map<nat, uint64>)
    requires NoRepeats(cs) && multiset(sorted) == multiset(cs)
    requires SortedBy(sorted, (c: Change) => c.stakerIndex) && Lists(sorted, news)
    ensures StrictlySorted(sorted)
  {
    forall i, j | 0 <= i < j < |sorted|
      ensures sorted[i].stakerIndex < sorted[j].stakerIndex
    {
      if sorted[i].stakerIndex == sorted[j].stakerIndex {
        assert sorted[i] in sorted && sorted[j] in sorted;
        CountOnce(sorted, sorted[i]);
        CountOnce(cs, sorted[i]);
      }
    }
  }

  /**
   The Solana fetcher: walks the stakers in whatever order the map gives them, and returns the sorted
   list of exactly those whose balance differs; nothing if any request fails.
   */
  method FetchSolanaChanges(service: Service, m: StakerMap) returns (changes: Option<seq<Change>>)
    ensures changes.None? <==> exists k :: k in m && SumBatches(service, Batches(m[k].validators), 0) == None
    ensures changes.Some? ==> StrictlySorted(changes.value)
    ensures changes.Some? ==> forall c: Change :: c in changes.value <==>
              c.stakerIndex in m && c.balance != m[c.stakerIndex].balance
              && SumBatches(service, Batches(m[c.stakerIndex].validators), 0) == Some(c.balance)
  {
    var cs: seq<Change> := [];
    ghost var news: map<nat, uint64> := map[];
    var todo := m.Keys;
    while todo != {}
      invariant todo <= m.Keys && Lists(cs, news) && NoRepeats(cs)
      invariant forall k | k in m && k !in todo ::
                  var b := SumBatches(service, Batches(m[k].validators), 0);
                  b.Some? && (if b.value != m[k].balance then k in news && news[k] == b.value else k !in news)
      invariant forall k | k in news :: k in m && k !in todo
      decreases todo
    {
      var k :| k in todo;
      var balance := FetchBalance(service, m[k].validators, 0);
      if balance.None? {
        assert k in m && SumBatches(service, Batches(m[k].validators), 0) == None;
        return None;
      }
      todo := todo - {k};
      if balance.value != m[k].balance {
        var c := Change(k, balance.value);
        assert c !in cs;
        assert forall x | x in cs + [c] :: x in cs || x == c;
        cs := cs + [c];
        news := news[k := balance.value];
      }
    }
    cs := SortChanges(cs, news);
    changes := Some(cs);
  }

  /** What the beacon fetcher finds at a staker's capsule contract: its balance in wei, if usable. */
  datatype Capsule = CapsuleFailed | CapsuleUnusable | CapsuleHolds(wei: nat)

  datatype Look = Skip | Fail | Total(balance: uint64)

  const GWEI: nat := 1_000_000_000

  /** A staker without validators or with an unusable capsule is passed over; else everything is summed. */
  function BeaconLook(service: Service, capsule: string -> Capsule, s: Staker): Look {
    if s.validators == [] then Skip
    else
      match capsule(s.address)
      case CapsuleFailed => Fail
      case CapsuleUnusable => Skip
      case CapsuleHolds(wei) =>
        match SumBatches(service, Batches(s.validators), wei / GWEI % TWO64)
        case None => Fail
        case Some(b) => Total(b)
  }

  /**
   A staker is passed over exactly if it has no validators or an unusable capsule; only its capsule or
   a batch of its validators can make the look fail.
   */
  lemma LookOutcome(service: Service, capsule: string -> Capsule, s: Staker)
    ensures BeaconLook(service, capsule, s) == Skip <==> s.validators == [] || capsule(s.address).CapsuleUnusable?
    ensures BeaconLook(service, capsule, s) == Fail <==>
              && s.validators != []
              && match capsule(s.address)
                 case CapsuleFailed => true
                 case CapsuleUnusable => false
                 case CapsuleHolds(_) => FailsOnOne(service, Batches(s.validators))
  {
    if s.validators != [] && capsule(s.address).CapsuleHolds? {
      FailsOnSomeBatch(service, Batches(s.validators), capsule(s.address).wei / GWEI % TWO64);
    }
  }

  /** With a usable capsule it has the capsule's whole gwei and its validators' balances, modulo 2^64. */
  lemma LookTotal(service: Service, capsule: string -> Capsule, s: Staker, f: string -> uint64)
    requires s.validators != [] && capsule(s.address).CapsuleHolds?
    requires forall batch :: |batch| <= BATCH ==> service(batch) == Some(Each(f, batch))
    ensures BeaconLook(service, capsule, s) == Total((capsule(s.address).wei / GWEI + SumOver(f, s.validators)) % TWO64)
  {
    var gwei := capsule(s.address).wei / GWEI;
    BatchedSum(service, f, s.validators, gwei % TWO64);
    ModAdd(gwei, SumOver(f, s.validators));
  }

  /** The beacon fetcher also lists a staker again whose withdraw is newer than its last full fetch. */
  predicate BeaconLists(look: Look, s: Staker, finalizedWithdraw: nat) {
    look.Total? && (look.balance != s.balance || s.withdrawVersion > finalizedWithdraw)
  }

  method LookAtStaker(service: Service, capsule: string -> Capsule, s: Staker) returns (look: Look)
    ensures look == BeaconLook(service, capsule, s)
  {
    if |s.validators| == 0 {
      return Skip;
    }
    var found := capsule(s.address);
    if found.CapsuleFailed? {
      return Fail;
    }
    if found.CapsuleUnusable? {
      return Skip;
    }
    var balance := FetchBalance(service, s.validators, found.wei / GWEI % TWO64);
    look := if balance.None? then Fail else Total(balance.value);
  }

  /** The beacon fetcher: the sorted list of exactly the stakers to list; nothing if a request fails. */
  method FetchBeaconChanges(service: Service, capsule: string -> Capsule, m: StakerMap, finalizedWithdraw: nat)
    returns (changes: Option<seq<Change>>)
    ensures changes.None? <==> exists k :: k in m && BeaconLook(service, capsule, m[k]) == Fail
    ensures changes.Some? ==> StrictlySorted(changes.value)
    ensures changes.Some? ==> forall c: Change :: c in changes.value <==>
              && c.stakerIndex in m && BeaconLook(service, capsule, m[c.stakerIndex]) == Total(c.balance)
              && (c.balance != m[c.stakerIndex].balance || m[c.stakerIndex].withdrawVersion > finalizedWithdraw)
  {
    var cs: seq<Change> := [];
    ghost var news: map<nat, uint64> := map[];
    var todo := m.Keys;
    while todo != {}
      invariant todo <= m.Keys && Lists(cs, news) && NoRepeats(cs)
      invariant forall k | k in m && k !in todo ::
                  var look := BeaconLook(service, capsule, m[k]);
                  look != Fail && (if BeaconLists(look, m[k], finalizedWithdraw) then k in news && news[k] == look.balance else k !in news)
      invariant forall k | k in news :: k in m && k !in todo
      decreases todo
    {
      var k :| k in todo;
      var look := LookAtStaker(service, capsule, m[k]);
      if look == Fail {
        assert k in m && BeaconLook(service, capsule, m[k]) == Fail;
        return None;
      }
      todo := todo - {k};
      if look.Total? && (look.balance != m[k].balance || m[k].withdrawVersion > finalizedWithdraw) {
        var c := Change(k, look.balance);
        assert c !in cs;
        assert forall x | x in cs + [c] :: x in cs || x == c;
        cs := cs + [c];
        news := news[k := look.balance];
      }
    }
    cs := SortChanges(cs, news);
    changes := Some(cs);
  }

  /** The Solana fetcher's list, read against the balances its requests came to, is their diff. */
  lemma FetchedListIsDiff(service: Service, m: StakerMap, cs: seq<Change>, fetched: map<nat, uint64>)
    requires fetched.Keys == m.Keys && forall k | k in m :: SumBatches(service, Batches(m[k].validators), 0) == Some(fetched[k])
    requires forall c: Change :: c in cs <==>
               c.stakerIndex in m && c.balance != m[c.stakerIndex].balance
               && SumBatches(service, Batches(m[c.stakerIndex].validators), 0) == Some(c.balance)
    ensures Lists(cs, Differing(m, fetched))
  {
  }

  // ---- Diff then patch ------------------------------------------------------------------------

  lemma {:induction false} LastListed(cs: seq<Change>, news: map<nat, uint64>, k: nat)
    requires Lists(cs, news)
    ensures LastChange(cs, k) == if k in news then Some(news[k]) else None
  {
    LastIsListed(cs, k);
    if k in news {
      assert Change(k, news[k]) in cs;
    }
    if LastChange(cs, k).Some? {
      assert Change(k, LastChange(cs, k).value) in cs;
    }
  }

  lemma {:induction false} LastIsListed(cs: seq<Change>, k: nat)
    ensures LastChange(cs, k).Some? ==> Change(k, LastChange(cs, k).value) in cs
    ensures LastChange(cs, k).None? ==> forall c | c in cs :: c.stakerIndex != k
    decreases |cs|
  {
    if cs != [] {
      var before, last := cs[..|cs| - 1], cs[|cs| - 1];
      LastIsListed(before, k);
      assert forall c | c in cs :: c in before || c == last;
      if last.stakerIndex == k {
        assert last in cs;
      }
    }
  }

  /** Staker `k` after a list of new balances was applied at the ledger's own versions. */
  predicate PatchedAlone(s: State, s': State, news: map<nat, uint64>, k: nat) {
    (k in s'.stakers <==> k in s.stakers) &&
    (k in s.stakers ==>
       s'.stakers[k] == s.stakers[k].(balance :=
         if k in news && s.stakers[k].withdrawVersion <= s.withdrawVersion then news[k] else s.stakers[k].balance))
  }

  lemma PatchedAtSameVersions(s: State, cs: seq<Change>, news: map<nat, uint64>, k: nat)
    requires Settled(s) && news.Keys <= s.stakers.Keys && Lists(cs, news)
    ensures var (s', o) := ApplyChanges(s, RawData(s.version, cs), s.version, s.withdrawVersion);
            o == Done && PatchedAlone(s, s', news, k)
  {
    ApplyRefines(s, RawData(s.version, cs), s.version, s.withdrawVersion, k);
    NothingDue(s.queue, s.withdrawVersion);
    LastListed(cs, news, k);
  }

  /**
   Applying a list of new balances at the ledger's own versions succeeds and gives just the listed
   stakers that are not ahead of the feed their new balance.
   */
  lemma ListThenPatch(s: State, cs: seq<Change>, news: map<nat, uint64>)
    requires Settled(s) && news.Keys <= s.stakers.Keys && Lists(cs, news)
    ensures var (s', o) := ApplyChanges(s, RawData(s.version, cs), s.version, s.withdrawVersion);
            && o == Done && s'.stakers.Keys == s.stakers.Keys
            && forall k: nat :: PatchedAlone(s, s', news, k)
  {
    var s' := ApplyChanges(s, RawData(s.version, cs), s.version, s.withdrawVersion).0;
    forall k: nat
      ensures PatchedAlone(s, s', news, k)
    {
      PatchedAtSameVersions(s, cs, news, k);
    }
    PatchedAtSameVersions(s, cs, news, 0);
    forall k
      ensures k in s'.stakers <==> k in s.stakers
    {
      if k in s'.stakers || k in s.stakers {
        assert PatchedAlone(s, s', news, k);
      }
    }
  }

  /**
   Applying the list of differing balances at the ledger's own versions succeeds, and makes every
   balance the fetched one exactly when no staker with a differing balance is ahead of the feed.
   Nothing but balances changes.
   */
  lemma DiffThenPatch(s: State, cs: seq<Change>, fetched: map<nat, uint64>)
    requires Settled(s) && fetched.Keys == s.stakers.Keys && Lists(cs, Differing(s.stakers, fetched))
    ensures var (s', o) := ApplyChanges(s, RawData(s.version, cs), s.version, s.withdrawVersion);
            && o == Done && s'.stakers.Keys == s.stakers.Keys
            && (forall k | k in s.stakers :: s'.stakers[k].(balance := 0) == s.stakers[k].(balance := 0))
            && ((forall k | k in s.stakers :: s'.stakers[k].balance == fetched[k]) <==>
                 forall k | k in s.stakers && fetched[k] != s.stakers[k].balance :: s.stakers[k].withdrawVersion <= s.withdrawVersion)
  {
    var news := Differing(s.stakers, fetched);
    ListThenPatch(s, cs, news);
    var s' := ApplyChanges(s, RawData(s.version, cs), s.version, s.withdrawVersion).0;
    forall k | k in s.stakers
      ensures s'.stakers[k].(balance := 0) == s.stakers[k].(balance := 0)
      ensures s'.stakers[k].balance == fetched[k] <==>
                fetched[k] == s.stakers[k].balance || s.stakers[k].withdrawVersion <= s.withdrawVersion
    {
      assert PatchedAlone(s, s', news, k);
    }
  }

  /** The balances that the beacon fetcher lists. */
  function BeaconNews(service: Service, capsule: string -> Capsule, m: StakerMap, finalizedWithdraw: nat): map<nat, uint64> {
    map k | k in m && BeaconLists(BeaconLook(service, capsule, m[k]), m[k], finalizedWithdraw) :: BeaconLook(service, capsule, m[k]).balance
  }

  /** The balance a staker has after a beacon fetch is applied: passed over or ahead of the feed it keeps its own. */
  function BeaconBalance(look: Look, s: Staker, feed: nat): uint64 {
    if look.Total? && s.withdrawVersion <= feed then look.balance else s.balance
  }

  /**
   Applying what the beacon fetcher lists at the ledger's own versions succeeds, stakers passed over
   and stakers listed again included: each staker not ahead of the feed gets the balance it was looked
   up with, every other keeps its own, and nothing else changes.
   */
  lemma BeaconThenPatch(s: State, cs: seq<Change>, service: Service, capsule: string -> Capsule, finalizedWithdraw: nat)
    requires Settled(s) && forall k | k in s.stakers :: BeaconLook(service, capsule, s.stakers[k]) != Fail
    requires forall c: Change :: c in cs <==>
               && c.stakerIndex in s.stakers && BeaconLook(service, capsule, s.stakers[c.stakerIndex]) == Total(c.balance)
               && (c.balance != s.stakers[c.stakerIndex].balance || s.stakers[c.stakerIndex].withdrawVersion > finalizedWithdraw)
    ensures var (s', o) := ApplyChanges(s, RawData(s.version, cs), s.version, s.withdrawVersion);
            && o == Done && s'.stakers.Keys == s.stakers.Keys
            && forall k | k in s.stakers ::
                 s'.stakers[k] == s.stakers[k].(balance :=
                   BeaconBalance(BeaconLook(service, capsule, s.stakers[k]), s.stakers[k], s.withdrawVersion))
  {
    var news := BeaconNews(service, capsule, s.stakers, finalizedWithdraw);
    assert Lists(cs, news);
    ListThenPatch(s, cs, news);
    var s' := ApplyChanges(s, RawData(s.version, cs), s.version, s.withdrawVersion).0;
    forall k | k in s.stakers
      ensures s'.stakers[k] == s.stakers[k].(balance :=
                BeaconBalance(BeaconLook(service, capsule, s.stakers[k]), s.stakers[k], s.withdrawVersion))
    {
      assert PatchedAlone(s, s', news, k);
    }
  }
}
