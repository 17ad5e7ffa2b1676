/** What a chain snapshot means as a ledger at a given feed version: the specification of `Reset`. */
module Snapshot {
  import opened Prelude
  import opened Ledger
  import opened LedgerForms

  datatype ValidatorDeposit = ValidatorDeposit(pubkey: string, version: nat, amount: uint64)

  /** One staker as the chain reports it; a missing entry of the balance list reads as `None`. */
  datatype Record = Record(
    stakerIndex: nat,
    address: string,
    validators: seq<ValidatorDeposit>,
    balances: seq<Option<uint64>>,
    withdrawVersion: nat)

  function LastBalance(r: Record): uint64 {
    if |r.balances| > 0 && r.balances[|r.balances| - 1].Some? then r.balances[|r.balances| - 1].value else 0
  }

  function DepositOf(r: Record, e: ValidatorDeposit): Deposit {
    Deposit(r.stakerIndex, r.address, e.pubkey, e.amount)
  }

  /** The validators the feed already covers, in list order. */
  function Fed(vs: seq<ValidatorDeposit>, feed: nat): seq<string> {
    if vs == [] then []
    else
      var last := vs[|vs| - 1];
      Fed(vs[..|vs| - 1], feed) + if last.version <= feed then [last.pubkey] else []
  }

  /** The 64-bit sum of the amounts the feed does not cover yet. */
  function WaitingSum(vs: seq<ValidatorDeposit>, feed: nat): uint64 {
    if vs == [] then 0
    else
      var last := vs[|vs| - 1];
      var before := WaitingSum(vs[..|vs| - 1], feed);
      if last.version <= feed then before else WrapAdd(before, last.amount)
  }

  /** The deposits the feed does not cover yet, by version. */
  function Waiting(r: Record, vs: seq<ValidatorDeposit>, feed: nat): Pending {
    if vs == [] then map[]
    else
      var last := vs[|vs| - 1];
      var before := Waiting(r, vs[..|vs| - 1], feed);
      if last.version <= feed then before else before[last.version := DepositOf(r, last)]
  }

  function AllWaiting(rs: seq<Record>, feed: nat): Pending {
    if rs == [] then map[]
    else AllWaiting(rs[..|rs| - 1], feed) + Waiting(rs[|rs| - 1], rs[|rs| - 1].validators, feed)
  }

  /** The staker a record stands for at a feed version, once some validator of it is covered. */
  function StakerAt(r: Record, feed: nat): Option<Staker> {
    var fed, waiting := Fed(r.validators, feed), WaitingSum(r.validators, feed);
    if fed == [] then None
    else Some(Staker(r.address, fed, WrapSub(LastBalance(r), waiting), r.withdrawVersion))
  }

  function AllStakers(rs: seq<Record>, feed: nat): StakerMap {
    if rs == [] then map[]
    else
      var last := rs[|rs| - 1];
      var before := AllStakers(rs[..|rs| - 1], feed);
      match StakerAt(last, feed)
      case None => before
      case Some(s) => before[last.stakerIndex := s]
  }

  /** The withdraws ahead of the feed, in list order. */
  function Ahead(rs: seq<Record>, feed: nat): seq<Withdraw> {
    if rs == [] then []
    else
      var last := rs[|rs| - 1];
      Ahead(rs[..|rs| - 1], feed) +
      if last.withdrawVersion > feed then [Withdraw(last.stakerIndex, last.withdrawVersion)] else []
  }

  predicate DistinctKeys(vs: seq<ValidatorDeposit>) {
    forall i, j | 0 <= i < j < |vs| :: vs[i].pubkey != vs[j].pubkey
  }

  predicate DistinctStakers(rs: seq<Record>) {
    forall i, j | 0 <= i < j < |rs| :: rs[i].stakerIndex != rs[j].stakerIndex
  }

  predicate RecordFits(r: Record, feed: nat) {
    DistinctKeys(r.validators) && LastBalance(r) >= WaitingSum(r.validators, feed)
  }

  /** The snapshots a reset accepts. */
  predicate Acceptable(rs: seq<Record>, feed: nat) {
    DistinctStakers(rs) && forall i | 0 <= i < |rs| :: RecordFits(rs[i], feed)
  }

  function Waits(p: Pending, v: nat): Option<Deposit> {
    if v in p then Some(p[v]) else None
  }

  /** `s` is the ledger of the snapshot at these feed versions. */
  ghost predicate IsSnapshot(s: State, rs: seq<Record>, feed: nat, feedWithdraw: nat) {
    && s.version == feed && s.withdrawVersion == feedWithdraw
    && (forall k: nat :: Lookup(s.stakers, k) == Lookup(AllStakers(rs, feed), k))
    && (forall v: nat :: Waits(s.pending, v) == Waits(AllWaiting(rs, feed), v))
    && SortedQueue(s.queue) && (forall w :: w in s.queue <==> w in Ahead(rs, feedWithdraw))
    && s.prev == map[]
  }

  // ---- Balances -------------------------------------------------------------------------------

  /** The sum of the amounts the feed does not cover yet, in unbounded arithmetic. */
  function AmountsAbove(vs: seq<ValidatorDeposit>, feed: nat): nat {
    if vs == [] then 0
    else
      var last := vs[|vs| - 1];
      AmountsAbove(vs[..|vs| - 1], feed) + if last.version > feed then last.amount else 0
  }

  lemma {:induction false} WaitingIsSum(vs: seq<ValidatorDeposit>, feed: nat)
    ensures WaitingSum(vs, feed) == AmountsAbove(vs, feed) % TWO64
  {
    if vs != [] {
      WaitingIsSum(vs[..|vs| - 1], feed);
      WrapAddIsModular(AmountsAbove(vs[..|vs| - 1], feed), vs[|vs| - 1].amount);
    }
  }

  lemma {:induction false} FedIffCovered(vs: seq<ValidatorDeposit>, feed: nat)
    ensures Fed(vs, feed) != [] <==> exists j :: 0 <= j < |vs| && vs[j].version <= feed
  {
    if vs != [] {
      var before := vs[..|vs| - 1];
      FedIffCovered(before, feed);
      assert forall j | 0 <= j < |before| :: before[j] == vs[j];
    }
  }

  /** The record's latest balance is `b`: the last of its list, or 0 if that is missing or there is none. */
  predicate HoldsLast(r: Record, b: uint64) {
    if r.balances == [] then b == 0
    else
      match r.balances[|r.balances| - 1]
      case None => b == 0
      case Some(x) => b == x
  }

  /** A staker that is read holds, with its waiting deposits, exactly the chain's latest balance. */
  predicate BalanceSplits(o: Option<Staker>, waiting: nat, b: nat) {
    o.Some? && o.value.balance + waiting == b
  }

  /**
   A record with distinct validators is refused just for a latest balance below its waiting deposits;
   otherwise its staker, if a validator is covered, holds what these leave of the balance.
   */
  lemma RecordBalance(r: Record, feed: nat, b: uint64)
    requires HoldsLast(r, b) && AmountsAbove(r.validators, feed) < TWO64
    ensures RecordFits(r, feed) <==> DistinctKeys(r.validators) && AmountsAbove(r.validators, feed) <= b
    ensures RecordFits(r, feed) && (exists j :: 0 <= j < |r.validators| && r.validators[j].version <= feed) ==>
              BalanceSplits(StakerAt(r, feed), AmountsAbove(r.validators, feed), b)
  {
    WaitingIsSum(r.validators, feed);
    FedIffCovered(r.validators, feed);
  }

  // ---- Reading the ledger of a snapshot -------------------------------------------------------

  lemma {:induction false} StakersAt(rs: seq<Record>, feed: nat, i: nat)
    requires i < |rs| && DistinctStakers(rs)
    ensures Lookup(AllStakers(rs, feed), rs[i].stakerIndex) == StakerAt(rs[i], feed)
    decreases |rs|
  {
    var before := rs[..|rs| - 1];
    if i < |rs| - 1 {
      StakersAt(before, feed, i);
      assert rs[i] == before[i];
    } else {
      StakersKnown(before, feed);
      assert rs[i].stakerIndex !in AllStakers(before, feed);
    }
  }

  lemma {:induction false} StakersKnown(rs: seq<Record>, feed: nat)
    ensures forall k | k in AllStakers(rs, feed) :: exists i :: 0 <= i < |rs| && rs[i].stakerIndex == k
    decreases |rs|
  {
    if rs != [] {
      var before := rs[..|rs| - 1];
      StakersKnown(before, feed);
      forall k | k in AllStakers(rs, feed)
        ensures exists i :: 0 <= i < |rs| && rs[i].stakerIndex == k
      {
        if k in AllStakers(before, feed) {
          var i :| 0 <= i < |before| && before[i].stakerIndex == k;
          assert rs[i].stakerIndex == k;
        } else {
          assert rs[|rs| - 1].stakerIndex == k;
        }
      }
    }
  }

  /** Version `v` is that of validator `j` of record `i`. */
  predicate IsAt(rs: seq<Record>, v: nat, i: nat, j: nat) {
    i < |rs| && j < |rs[i].validators| && rs[i].validators[j].version == v
  }

  predicate WaitsAt(rs: seq<Record>, feed: nat, v: nat, d: Deposit, i: nat, j: nat) {
    IsAt(rs, v, i, j) && v > feed && d == DepositOf(rs[i], rs[i].validators[j])
  }

  lemma {:induction false} WaitingEntry(r: Record, vs: seq<ValidatorDeposit>, feed: nat, v: nat)
    ensures v in Waiting(r, vs, feed) <==> exists j :: 0 <= j < |vs| && vs[j].version == v && v > feed
    ensures v in Waiting(r, vs, feed) ==>
              exists j :: 0 <= j < |vs| && vs[j].version == v && v > feed && Waiting(r, vs, feed)[v] == DepositOf(r, vs[j])
    decreases |vs|
  {
    if vs != [] {
      var before, last := vs[..|vs| - 1], vs[|vs| - 1];
      WaitingEntry(r, before, feed, v);
      if j :| 0 <= j < |vs| && vs[j].version == v && v > feed && last.version != v {
        assert before[j].version == v;
      }
      if v in Waiting(r, before, feed) {
        var j :| 0 <= j < |before| && before[j].version == v && v > feed && Waiting(r, before, feed)[v] == DepositOf(r, before[j]);
        assert vs[j].version == v;
      }
    }
  }

  /** Every waiting deposit comes from some validator of some record. */
  lemma {:induction false} AllWaitingEntry(rs: seq<Record>, feed: nat, v: nat)
    requires v in AllWaiting(rs, feed)
    ensures exists i, j :: WaitsAt(rs, feed, v, AllWaiting(rs, feed)[v], i, j)
    decreases |rs|
  {
    var before, last := rs[..|rs| - 1], rs[|rs| - 1];
    if v in Waiting(last, last.validators, feed) {
      WaitingEntry(last, last.validators, feed, v);
      var j :| 0 <= j < |last.validators| && last.validators[j].version == v && v > feed
               && Waiting(last, last.validators, feed)[v] == DepositOf(last, last.validators[j]);
      assert WaitsAt(rs, feed, v, AllWaiting(rs, feed)[v], |rs| - 1, j);
    } else {
      AllWaitingEntry(before, feed, v);
      var i, j :| WaitsAt(before, feed, v, AllWaiting(before, feed)[v], i, j);
      assert WaitsAt(rs, feed, v, AllWaiting(rs, feed)[v], i, j);
    }
  }

  lemma {:induction false} WaitsIsWaiting(rs: seq<Record>, feed: nat, i: nat, j: nat)
    requires i < |rs| && j < |rs[i].validators| && rs[i].validators[j].version > feed
    ensures rs[i].validators[j].version in AllWaiting(rs, feed)
    decreases |rs|
  {
    if i < |rs| - 1 {
      assert rs[..|rs| - 1][i] == rs[i];
      WaitsIsWaiting(rs[..|rs| - 1], feed, i, j);
    } else {
      WaitingEntry(rs[i], rs[i].validators, feed, rs[i].validators[j].version);
    }
  }

  lemma {:induction false} AheadEntry(rs: seq<Record>, feed: nat, w: Withdraw)
    ensures w in Ahead(rs, feed) <==>
            exists i :: 0 <= i < |rs| && rs[i].withdrawVersion > feed && w == Withdraw(rs[i].stakerIndex, rs[i].withdrawVersion)
    decreases |rs|
  {
    if rs != [] {
      var before, last := rs[..|rs| - 1], rs[|rs| - 1];
      AheadEntry(before, feed, w);
      if w in Ahead(before, feed) {
        var i :| 0 <= i < |before| && before[i].withdrawVersion > feed && w == Withdraw(before[i].stakerIndex, before[i].withdrawVersion);
        assert rs[i] == before[i];
      }
      if i :| 0 <= i < |rs| && rs[i].withdrawVersion > feed && w == Withdraw(rs[i].stakerIndex, rs[i].withdrawVersion) && i < |before| {
        assert before[i] == rs[i];
      }
    }
  }
}
