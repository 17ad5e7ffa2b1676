/**
 The staker ledger as the source keeps it: staker objects updated in place, held in a map by index.
 Every method is proved to take the ledger's value exactly where the functions of `Ledger` take it.
 */
module StakerObjects {
  import opened Prelude
  import opened Ledger
  import opened Snapshot
  import opened LedgerForms
  import opened Sorting

  class StakerInfo {
    var address: string
    var validators: seq<string>
    var balance: uint64
    var withdrawVersion: nat

    ghost function Value(): Staker
      reads this
    {
      Staker(address, validators, balance, withdrawVersion)
    }

    constructor (address: string, validators: seq<string>, balance: uint64, withdrawVersion: nat)
      ensures Value() == Staker(address, validators, balance, withdrawVersion)
    {
      this.address := address;
      this.validators := validators;
      this.balance := balance;
      this.withdrawVersion := withdrawVersion;
    }

    method AddValidator(validator: string, amount: uint64) returns (ok: bool)
      modifies this
      ensures ok <==> validator !in old(validators)
      ensures Value() == if ok then Ledger.AddValidator(old(Value()), validator, amount) else old(Value())
    {
      if validator in validators {
        return false;
      }
      validators := validators + [validator];
      balance := WrapAdd(balance, amount);
      return true;
    }

    method RemoveValidator(validator: string, amount: uint64) returns (ok: bool)
      modifies this
      ensures ok <==> old(balance) >= amount && validator in old(validators)
      ensures Value() == Ledger.RemoveValidator(old(Value()), validator, amount)
    {
      if balance < amount {
        return false;
      }
      var i := 0;
      while i < |validators| && validators[i] != validator
        invariant 0 <= i <= |validators|
        invariant validator !in validators[..i]
      {
        i := i + 1;
      }
      if i == |validators| {
        return false;
      }
      RemoveFirstAt(validators, validator, i);
      balance := balance - amount;
      validators := validators[..i] + validators[i + 1..];
      return true;
    }
  }

  lemma {:induction false} RemoveFirstAt(s: seq<string>, x: string, i: nat)
    requires i < |s| && s[i] == x && x !in s[..i]
    ensures RemoveFirst(s, x) == s[..i] + s[i + 1..]
  {
    if i > 0 {
      assert s[0] in s[..i];
      assert s[1..][..i - 1] == s[..i][1..];
      RemoveFirstAt(s[1..], x, i - 1);
    }
  }

  lemma RestoreStep(m: StakerMap, prev: map<nat, nat>, todo: set<nat>, k: nat)
    requires todo <= prev.Keys && k in todo
    ensures RestoreWithdraws(RestoreWithdraws(m, prev - todo), map[k := prev[k]]) == RestoreWithdraws(m, prev - (todo - {k}))
  {
  }

  class Stakers {
    var version: nat
    var withdrawVersion: nat
    var sInfos: map<nat, StakerInfo>
    var sInfosAdd: Pending
    var withdrawInfos: seq<Withdraw>
    var prevWithdrawInfos: map<nat, nat>

    /** The values of the staker objects, by index. */
    ghost var infos: StakerMap

    /** The objects carry the values of `infos`, and none is held under two indexes. */
    ghost predicate Valid()
      reads this, sInfos.Values
    {
      && infos.Keys == sInfos.Keys
      && (forall k | k in sInfos :: sInfos[k].Value() == infos[k])
      && (forall i, j | i in sInfos && j in sInfos && i != j :: sInfos[i] != sInfos[j])
    }

    ghost function Value(): State
      reads this
    {
      State(version, withdrawVersion, infos, sInfosAdd, withdrawInfos, prevWithdrawInfos)
    }

    constructor ()
      ensures Valid() && Value() == State(0, 0, map[], map[], [], map[])
    {
      version, withdrawVersion := 0, 0;
      sInfos, sInfosAdd, withdrawInfos, prevWithdrawInfos := map[], map[], [], map[];
      infos := map[];
    }

    /** Puts an object that no index holds yet under a new or known index. */
    method Put(k: nat, sInfo: StakerInfo)
      requires Valid() && sInfo !in sInfos.Values
      modifies this`sInfos, this`infos
      ensures Valid() && sInfos == old(sInfos)[k := sInfo] && sInfos.Values <= old(sInfos.Values) + {sInfo}
      ensures infos == old(infos)[k := sInfo.Value()]
    {
      sInfos := sInfos[k := sInfo];
      infos := infos[k := sInfo.Value()];
    }

    /** Adds a validator to the staker under `k`, leaving every other staker alone. */
    method AddTo(k: nat, validator: string, amount: uint64) returns (ok: bool)
      requires Valid() && k in sInfos
      modifies this`infos, sInfos[k]
      ensures Valid()
      ensures ok <==> validator !in old(infos)[k].validators
      ensures infos == if ok then old(infos)[k := AddValidator(old(infos)[k], validator, amount)] else old(infos)
    {
      ok := sInfos[k].AddValidator(validator, amount);
      if ok {
        infos := infos[k := sInfos[k].Value()];
      }
    }

    /** The body of the deposit loop: one pending deposit. */
    method ApplyOne(deposit: Deposit) returns (outcome: Outcome)
      requires Valid()
      modifies this`sInfos, this`infos, sInfos.Values
      ensures Valid() && fresh(sInfos.Values - old(sInfos.Values))
      ensures outcome == DepositOutcome(old(infos), deposit)
      ensures infos == if outcome.Done? then AddDeposit(old(infos), deposit) else old(infos)
    {
      assert |infos.Keys| == |sInfos.Keys|;
      if deposit.stakerIndex !in sInfos {
        if deposit.stakerIndex != |sInfos| {
          return Failed(IndexGap);
        }
        var sInfo := new StakerInfo(deposit.stakerAddr, [deposit.validator], deposit.amount, 0);
        Put(deposit.stakerIndex, sInfo);
      } else {
        var ok := AddTo(deposit.stakerIndex, deposit.validator, deposit.amount);
        if !ok {
          return Failed(DuplicateValidator);
        }
      }
      outcome := Done;
    }

    /** One turn of the deposit loop: the run from here on is that of the ledger it leaves. */
    method Advance(i: nat, target: nat) returns (next: nat, outcome: Outcome)
      requires Valid() && i <= target
      modifies this`sInfos, this`infos, sInfos.Values
      ensures Valid() && fresh(sInfos.Values - old(sInfos.Values))
      ensures outcome.Done? ==> next == i + 1 && ApplyDeposits(infos, sInfosAdd, next, target) == old(ApplyDeposits(infos, sInfosAdd, i, target))
      ensures outcome.Failed? ==> DepositRun(infos, next, outcome) == old(ApplyDeposits(infos, sInfosAdd, i, target))
    {
      if i !in sInfosAdd {
        return i, Failed(MissingDeposit);
      }
      outcome := ApplyOne(sInfosAdd[i]);
      next := if outcome.Done? then i + 1 else i;
    }

    /** The deposit loop of a grow. */
    method ApplyPending(target: nat) returns (next: nat, outcome: Outcome)
      requires Valid()
      modifies this`sInfos, this`infos, sInfos.Values
      ensures Valid() && fresh(sInfos.Values - old(sInfos.Values))
      ensures DepositRun(infos, next, outcome) == old(ApplyDeposits(infos, sInfosAdd, version + 1, target))
    {
      ghost var run := ApplyDeposits(infos, sInfosAdd, version + 1, target);
      next, outcome := version + 1, Done;
      while next <= target
        invariant Valid() && fresh(sInfos.Values - old(sInfos.Values)) && outcome.Done?
        invariant ApplyDeposits(infos, sInfosAdd, next, target) == run
      {
        next, outcome := Advance(next, target);
        if outcome.Failed? {
          assert DepositRun(infos, next, outcome) == run;
          return;
        }
      }
      assert DepositRun(infos, next, outcome) == run;
    }

    /** The body of the withdraw loop: one queued withdraw of a known staker. */
    method StampOne(w: Withdraw)
      requires Valid() && w.stakerIndex in sInfos
      modifies this`infos, this`prevWithdrawInfos, sInfos[w.stakerIndex]
      ensures Valid()
      ensures var k, before := w.stakerIndex, old(infos);
              && infos == before[k := before[k].(withdrawVersion := w.withdrawVersion)]
              && prevWithdrawInfos == if k in old(prevWithdrawInfos) then old(prevWithdrawInfos)
                                      else old(prevWithdrawInfos)[k := before[k].withdrawVersion]
    {
      var sInfo := sInfos[w.stakerIndex];
      if w.stakerIndex !in prevWithdrawInfos {
        prevWithdrawInfos := prevWithdrawInfos[w.stakerIndex := sInfo.withdrawVersion];
      }
      sInfo.withdrawVersion := w.withdrawVersion;
      infos := infos[w.stakerIndex := sInfo.Value()];
    }

    /** The withdraw loop of a grow. */
    method StampDue(target: nat) returns (latest: nat, outcome: Outcome)
      requires Valid()
      modifies this`infos, this`prevWithdrawInfos, sInfos.Values
      ensures Valid()
      ensures var r := old(ApplyWithdraws(infos, withdrawInfos, target, map[], withdrawVersion));
              infos == r.stakers && prevWithdrawInfos == r.prev && latest == r.latest && outcome == r.outcome
    {
      ghost var run := ApplyWithdraws(infos, withdrawInfos, target, map[], withdrawVersion);
      prevWithdrawInfos, latest := map[], withdrawVersion;
      var i := 0;
      while i < |withdrawInfos| && withdrawInfos[i].withdrawVersion <= target
        invariant Valid() && i <= |withdrawInfos|
        invariant ApplyWithdraws(infos, withdrawInfos[i..], target, prevWithdrawInfos, latest) == run
      {
        var w := withdrawInfos[i];
        assert withdrawInfos[i..][0] == w && withdrawInfos[i..][1..] == withdrawInfos[i + 1..];
        if w.stakerIndex !in sInfos {
          outcome := Failed(UnknownStaker);
          assert WithdrawRun(infos, prevWithdrawInfos, latest, outcome) == run;
          return;
        }
        StampOne(w);
        latest := w.withdrawVersion;
        i := i + 1;
      }
      outcome := Done;
      assert WithdrawRun(infos, prevWithdrawInfos, latest, outcome) == run;
    }

    /** Takes one applied deposit back, if its staker is there and can give it back. */
    method RemoveOne(deposit: Deposit)
      requires Valid()
      modifies this`infos, sInfos.Values
      ensures Valid() && infos == RemoveDeposit(old(infos), deposit)
    {
      if deposit.stakerIndex in sInfos {
        var sInfo := sInfos[deposit.stakerIndex];
        var _ := sInfo.RemoveValidator(deposit.validator, deposit.amount);
        infos := infos[deposit.stakerIndex := sInfo.Value()];
      }
    }

    /** The first loop of a downgrade, latest version first. */
    method UndoPending(v: nat)
      requires Valid() && Covers(sInfosAdd, version + 1, v + 1)
      modifies this`infos, sInfos.Values
      ensures Valid() && infos == old(UndoDeposits(infos, sInfosAdd, v, version))
    {
      ghost var undone := UndoDeposits(infos, sInfosAdd, v, version);
      var i: nat := v;
      while i > version
        invariant Valid() && i <= v
        invariant UndoDeposits(infos, sInfosAdd, i, version) == undone
      {
        RemoveOne(sInfosAdd[i]);
        i := i - 1;
      }
    }

    /** Gives the staker under `k`, if there is one, an earlier withdraw version back. */
    method RestoreOne(k: nat, v: nat)
      requires Valid()
      modifies this`infos, sInfos.Values
      ensures Valid() && infos == RestoreWithdraws(old(infos), map[k := v])
    {
      if k in sInfos {
        var sInfo := sInfos[k];
        sInfo.withdrawVersion := v;
        infos := infos[k := sInfo.Value()];
      }
    }

    /** The second loop of a downgrade, in whatever order the map is walked. */
    method RestoreStamps()
      requires Valid()
      modifies this`infos, this`prevWithdrawInfos, sInfos.Values
      ensures Valid() && prevWithdrawInfos == map[]
      ensures infos == old(RestoreWithdraws(infos, prevWithdrawInfos))
    {
      ghost var before := infos;
      var prev := prevWithdrawInfos;
      var todo := prev.Keys;
      assert prev - todo == map[];
      while todo != {}
        invariant Valid() && todo <= prev.Keys
        invariant infos == RestoreWithdraws(before, prev - todo)
        decreases todo
      {
        var k :| k in todo;
        RestoreOne(k, prev[k]);
        RestoreStep(before, prev, todo, k);
        todo := todo - {k};
      }
      assert prev - todo == prev;
      prevWithdrawInfos := map[];
    }

    method DowngradeVersion(v: nat)
      requires Valid() && Covers(sInfosAdd, version + 1, v + 1)
      modifies this`infos, this`prevWithdrawInfos, sInfos.Values
      ensures Valid() && Value() == old(Downgrade(Value(), v))
    {
      UndoPending(v);
      RestoreStamps();
    }

    /** The deferred undo of a failed grow. */
    method UndoGrow(next: nat, latest: nat)
      requires Valid() && next >= 1 && Covers(sInfosAdd, version + 1, next)
      modifies this`infos, this`prevWithdrawInfos, sInfos.Values
      ensures Valid() && Value() == old(DeferredUndo(Value(), next, latest))
    {
      if next > 1 || latest > withdrawVersion {
        DowngradeVersion(next - 1);
      }
    }

    method TryGrowVersionsFromCache(target: nat, wv: nat, update: bool) returns (outcome: Outcome)
      requires Valid()
      modifies this`sInfos, this`infos, this`prevWithdrawInfos, sInfos.Values
      ensures Valid() && fresh(sInfos.Values - old(sInfos.Values))
      ensures Value() == old(TryGrow(Value(), target, wv, update)).0 && outcome == old(TryGrow(Value(), target, wv, update)).1
    {
      ghost var s := Value();
      ghost var grown := TryGrow(s, target, wv, update);
      if target < version || wv < withdrawVersion {
        outcome := Failed(HistoryVersion);
        assert grown.0 == s && grown.1 == outcome;
      } else if target == version && wv == withdrawVersion {
        outcome := if update then Failed(HistoryVersion) else Done;
        assert grown.0 == s && grown.1 == outcome;
      } else if |sInfosAdd| == 0 && target > version {
        outcome := Failed(NoPendingDeposits);
        assert grown.0 == s && grown.1 == outcome;
      } else if |withdrawInfos| == 0 && wv > withdrawVersion {
        outcome := Failed(NoPendingWithdraws);
        assert grown.0 == s && grown.1 == outcome;
      } else {
        ghost var loops := AfterDeposits(s, ApplyDeposits(infos, sInfosAdd, version + 1, target), wv);
        assert loops.0 == grown.0 && loops.1 == grown.1;
        outcome := GrowBehindGuards(target, wv);
        assert Value() == loops.0 && outcome == loops.1;
      }
    }

    method GrowBehindGuards(target: nat, wv: nat) returns (outcome: Outcome)
      requires Valid() && (withdrawInfos == [] ==> wv <= withdrawVersion)
      modifies this`sInfos, this`infos, this`prevWithdrawInfos, sInfos.Values
      ensures Valid() && fresh(sInfos.Values - old(sInfos.Values))
      ensures (Value(), outcome) == old(AfterDeposits(Value(), ApplyDeposits(infos, sInfosAdd, version + 1, target), wv))
    {
      ghost var s := Value();
      var next;
      next, outcome := ApplyPending(target);
      ghost var d := DepositRun(infos, next, outcome);
      if outcome.Failed? {
        UndoGrow(next, withdrawVersion);
        return;
      }
      if wv > withdrawVersion {
        if withdrawInfos[|withdrawInfos| - 1].withdrawVersion < wv {
          return Failed(WithdrawsFallShort);
        }
        var latest;
        latest, outcome := StampDue(wv);
        if outcome.Failed? {
          UndoGrow(next, latest);
        }
      }
    }

    /** Deletes the cached deposits up to `target`, in whatever order the map is walked. */
    method DropApplied(target: nat)
      modifies this`sInfosAdd
      ensures sInfosAdd == old(DropPending(sInfosAdd, target))
    {
      ghost var pending := sInfosAdd;
      var todo := sInfosAdd.Keys;
      while todo != {}
        invariant todo <= pending.Keys
        invariant forall v :: v in sInfosAdd <==> v in pending && (v > target || v in todo)
        invariant forall v | v in sInfosAdd :: sInfosAdd[v] == pending[v]
        decreases todo
      {
        var v :| v in todo;
        todo := todo - {v};
        if v <= target {
          sInfosAdd := sInfosAdd - {v};
        }
      }
      assert sInfosAdd == DropPending(pending, target);
    }

    method CompleteVersions(target: nat, wv: nat)
      requires Valid()
      modifies this`version, this`withdrawVersion, this`sInfosAdd, this`withdrawInfos, this`prevWithdrawInfos
      ensures Valid() && Value() == old(Complete(Value(), target, wv))
    {
      DropApplied(target);
      var i := 0;
      while i < |withdrawInfos| && withdrawInfos[i].withdrawVersion <= wv
        invariant i <= |withdrawInfos| && CutQueue(withdrawInfos[i..], wv) == CutQueue(withdrawInfos, wv)
      {
        assert withdrawInfos[i..][1..] == withdrawInfos[i + 1..];
        i := i + 1;
      }
      withdrawInfos := withdrawInfos[i..];
      prevWithdrawInfos := map[];
      version, withdrawVersion := target, wv;
    }

    method GrowVersionsFromCacheByDepositWithdraw(target: nat, wv: nat) returns (outcome: Outcome)
      requires Valid()
      modifies this, sInfos.Values
      ensures Valid() && fresh(sInfos.Values - old(sInfos.Values))
      ensures (Value(), outcome) == old(Grow(Value(), target, wv))
    {
      if target < 1 {
        return Failed(VersionBelowOne);
      }
      outcome := TryGrowVersionsFromCache(target, wv, true);
      if outcome.Done? {
        CompleteVersions(target, wv);
      }
    }

    /** The first loop of a balance update: copies of the listed stakers with their new balances. */
    method CollectUpdates(changes: seq<Change>) returns (updated: map<nat, StakerInfo>, outcome: Outcome)
      requires Valid()
      ensures var r := CollectPatches(infos, withdrawVersion, changes, map[]);
              && outcome == r.outcome && updated.Keys == r.updated.Keys
              && (forall k | k in updated :: updated[k].Value() == infos[k].(balance := r.updated[k]))
      ensures forall k | k in updated :: fresh(updated[k])
      ensures Distinct(updated)
    {
      ghost var r := CollectPatches(infos, withdrawVersion, changes, map[]);
      ghost var acc: map<nat, uint64> := map[];
      updated, outcome := map[], Done;
      var n := 0;
      while n < |changes|
        invariant n <= |changes| && acc.Keys == updated.Keys && acc.Keys <= infos.Keys
        invariant CollectPatches(infos, withdrawVersion, changes[n..], acc) == r
        invariant forall k | k in updated :: fresh(updated[k]) && updated[k].Value() == infos[k].(balance := acc[k])
        invariant forall i, j | i in updated && j in updated && i != j :: updated[i] != updated[j]
      {
        var change := changes[n];
        assert changes[n..][0] == change && changes[n..][1..] == changes[n + 1..];
        var k := change.stakerIndex;
        if k !in sInfos {
          outcome := Failed(UnknownStaker);
          return;
        }
        var sInfo := sInfos[k];
        if sInfo.withdrawVersion <= withdrawVersion {
          var copy := new StakerInfo(sInfo.address, sInfo.validators, change.balance, sInfo.withdrawVersion);
          updated := updated[k := copy];
          acc := acc[k := change.balance];
        }
        n := n + 1;
      }
    }

    /** The second loop, over a map in no particular order: each copy takes its staker's place. */
    method PutUpdates(updated: map<nat, StakerInfo>, ghost balances: map<nat, uint64>)
      requires Valid() && updated.Keys == balances.Keys && updated.Keys <= infos.Keys
      requires forall k | k in updated :: updated[k].Value() == infos[k].(balance := balances[k])
      requires forall k | k in updated :: updated[k] !in sInfos.Values
      requires Distinct(updated)
      modifies this`sInfos, this`infos
      ensures Valid() && infos == old(Patch(infos, balances))
      ensures sInfos.Values <= old(sInfos.Values) + updated.Values
    {
      sInfos := sInfos + updated;
      infos := Patch(infos, balances);
    }

    /** A balance update after its grow: patch and commit, or undo. */
    method UpdateGrown(changes: seq<Change>, target: nat, wv: nat) returns (outcome: Outcome)
      requires Valid() && Covers(sInfosAdd, version + 1, target + 1)
      modifies this, sInfos.Values
      ensures Valid() && fresh(sInfos.Values - old(sInfos.Values))
      ensures var r := old(AfterPatches(Value(), CollectPatches(infos, withdrawVersion, changes, map[]), target, wv));
              Value() == r.0 && outcome == r.1
    {
      ghost var s, r := Value(), CollectPatches(infos, withdrawVersion, changes, map[]);
      ghost var result := AfterPatches(s, r, target, wv);
      var updated;
      updated, outcome := CollectUpdates(changes);
      if outcome.Failed? {
        if target > 1 || wv > withdrawVersion {
          DowngradeVersion(target);
        }
        assert Value() == result.0 && outcome == result.1;
      } else {
        PutUpdates(updated, r.updated);
        assert Value() == s.(stakers := Patch(s.stakers, r.updated));
        CompleteVersions(target, wv);
        assert Value() == result.0 && outcome == result.1;
      }
    }

    method ApplyBalanceChanges(data: RawData, target: nat, wv: nat) returns (outcome: Outcome)
      requires Valid()
      modifies this, sInfos.Values
      ensures Valid() && fresh(sInfos.Values - old(sInfos.Values))
      ensures (Value(), outcome) == old(ApplyChanges(Value(), data, target, wv))
    {
      if version != data.version {
        return Failed(VersionMismatch);
      }
      outcome := TryGrowVersionsFromCache(target, wv, false);
      if outcome.Done? {
        outcome := UpdateGrown(data.changes, target, wv);
      }
    }

    /** The deposit half of a cache call. */
    method CacheEvent(deposits: Pending, next: nat) returns (outcome: Outcome)
      modifies this`sInfosAdd
      ensures (sInfosAdd, outcome) == old(CacheDeposits(sInfosAdd, deposits, next, 0))
    {
      ghost var cached := CacheDeposits(sInfosAdd, deposits, next, 0);
      var i := 0;
      while i < |deposits|
        invariant i <= |deposits|
        invariant CacheDeposits(sInfosAdd, deposits, next, i) == cached
      {
        var v := next + i;
        if v !in deposits {
          return Failed(NotContinuous);
        }
        if v in sInfosAdd {
          return Failed(VersionExists);
        }
        sInfosAdd := sInfosAdd[v := deposits[v]];
        i := i + 1;
      }
      outcome := Done;
    }

    /** The withdraw half of a cache call. */
    method QueueEvent(withdraws: seq<Withdraw>) returns (outcome: Outcome)
      modifies this`withdrawInfos
      ensures (withdrawInfos, outcome) == old(CacheWithdraws(withdrawInfos, withdrawVersion, withdraws))
    {
      ghost var queued := CacheWithdraws(withdrawInfos, withdrawVersion, withdraws);
      var i := 0;
      while i < |withdraws|
        invariant i <= |withdraws|
        invariant CacheWithdraws(withdrawInfos, withdrawVersion, withdraws[i..]) == queued
      {
        var w := withdraws[i];
        assert withdraws[i..][0] == w && withdraws[i..][1..] == withdraws[i + 1..];
        if w.withdrawVersion == 0 {
          return Failed(WithdrawVersionZero);
        }
        if withdrawVersion >= w.withdrawVersion {
          return Failed(WithdrawVersionExists);
        }
        if |withdrawInfos| > 0 && withdrawInfos[|withdrawInfos| - 1].withdrawVersion + 1 != w.withdrawVersion {
          return Failed(WithdrawNotContinuous);
        }
        withdrawInfos := withdrawInfos + [w];
        i := i + 1;
      }
      outcome := Done;
    }

    method CacheDepositsWithdraws(deposits: Pending, next: nat, withdraws: seq<Withdraw>) returns (outcome: Outcome)
      requires Valid()
      modifies this`sInfosAdd, this`withdrawInfos
      ensures Valid()
      ensures (Value(), outcome) == old(Cache(Value(), deposits, next, withdraws))
    {
      if |deposits| > 0 && next == 0 {
        return Failed(NextVersionZero);
      }
      if |sInfosAdd| > 0 && (next == 0 || next - 1 !in sInfosAdd || next in sInfosAdd) {
        return Failed(NotContinuous);
      }
      if |sInfosAdd| == 0 && version + 1 != next {
        return Failed(VersionMismatch);
      }
      outcome := CacheEvent(deposits, next);
      if outcome.Done? {
        outcome := QueueEvent(withdraws);
      }
    }

    /**
     Rebuilds the ledger from the chain's records, or adds them to it when `all` is not asked for.
     It refuses a repeated staker, a repeated validator of one staker and a balance below the pending
     deposits, and then leaves everything as it was.
     */
    method Reset(records: seq<Record>, feed: nat, feedWithdraw: nat, all: bool) returns (outcome: Outcome)
      requires Valid()
      modifies this
      ensures Valid()
      ensures outcome.Done? <==> (all || old(version) + 1 == feed) && Acceptable(records, feed)
      ensures outcome.Failed? ==> Value() == old(Value())
      ensures outcome.Done? ==> IsReset(old(Value()), Value(), records, feed, feedWithdraw, all)
    {
      if !all && version + 1 != feed {
        return Failed(VersionMismatch);
      }
      var built, deposits, withdraws;
      built, deposits, withdraws, outcome := ReadRecords(records, feed, feedWithdraw);
      if outcome.Failed? {
        return;
      }
      withdraws := Sort(withdraws, VersionOf);
      assert IsSortOf(withdraws, Ahead(records, feedWithdraw));
      if all {
        Replace(built, deposits, withdraws, AllStakers(records, feed));
      } else {
        Merge(built, deposits, withdraws, AllStakers(records, feed));
        assert withdrawInfos[|old(withdrawInfos)|..] == withdraws;
      }
      version, withdrawVersion := feed, feedWithdraw;
    }

    method Replace(built: map<nat, StakerInfo>, deposits: Pending, withdraws: seq<Withdraw>, ghost m: StakerMap)
      requires Distinct(built) && Carries(built, m)
      modifies this`sInfos, this`sInfosAdd, this`withdrawInfos, this`infos
      ensures Valid() && infos == m && sInfosAdd == deposits && withdrawInfos == withdraws
    {
      sInfos, sInfosAdd, withdrawInfos := built, deposits, withdraws;
      infos := m;
    }

    method Merge(built: map<nat, StakerInfo>, deposits: Pending, withdraws: seq<Withdraw>, ghost m: StakerMap)
      requires Valid() && Distinct(built) && Carries(built, m)
      requires forall k | k in built :: built[k] !in sInfos.Values
      modifies this`sInfos, this`sInfosAdd, this`withdrawInfos, this`infos
      ensures Valid() && infos == old(infos) + m && sInfosAdd == old(sInfosAdd) + deposits
      ensures withdrawInfos == old(withdrawInfos) + withdraws
    {
      sInfos, sInfosAdd, withdrawInfos := sInfos + built, sInfosAdd + deposits, withdrawInfos + withdraws;
      infos := infos + m;
    }
  }

  /** No object stands under two indexes. */
  ghost predicate Distinct(objects: map<nat, StakerInfo>) {
    forall i, j | i in objects && j in objects && i != j :: objects[i] != objects[j]
  }

  /** The objects carry the values of `m`. */
  ghost predicate Carries(objects: map<nat, StakerInfo>, m: StakerMap)
    reads objects.Values
  {
    objects.Keys == m.Keys && forall k | k in objects :: objects[k].Value() == m[k]
  }

  /** What a successful reset makes of the ledger `s`. */
  predicate IsReset(s: State, s': State, records: seq<Record>, feed: nat, feedWithdraw: nat, all: bool) {
    && s'.version == feed && s'.withdrawVersion == feedWithdraw && s'.prev == s.prev
    && s'.stakers == (if all then AllStakers(records, feed) else s.stakers + AllStakers(records, feed))
    && s'.pending == (if all then AllWaiting(records, feed) else s.pending + AllWaiting(records, feed))
    && if all then IsSortOf(s'.queue, Ahead(records, feedWithdraw))
       else s.queue <= s'.queue && IsSortOf(s'.queue[|s.queue|..], Ahead(records, feedWithdraw))
  }

  /** A full reset of a ledger without undo notes is the ledger of the snapshot. */
  lemma ResetIsSnapshot(s: State, s': State, records: seq<Record>, feed: nat, feedWithdraw: nat)
    requires IsReset(s, s', records, feed, feedWithdraw, true) && s.prev == map[]
    ensures IsSnapshot(s', records, feed, feedWithdraw)
  {
    forall w: Withdraw
      ensures w in s'.queue <==> w in Ahead(records, feedWithdraw)
    {
      assert w in s'.queue <==> w in multiset(s'.queue);
      assert w in Ahead(records, feedWithdraw) <==> w in multiset(Ahead(records, feedWithdraw));
    }
  }

  /**
   After a full reset each record with a covered validator has its staker under its index, whose balance
   with the record's waiting deposits is the latest one the chain reports.
   */
  lemma ResetBalances(s: State, s': State, records: seq<Record>, feed: nat, feedWithdraw: nat, i: nat, b: uint64)
    requires IsReset(s, s', records, feed, feedWithdraw, true) && Acceptable(records, feed) && i < |records|
    requires HoldsLast(records[i], b) && AmountsAbove(records[i].validators, feed) < TWO64
    requires exists j :: 0 <= j < |records[i].validators| && records[i].validators[j].version <= feed
    ensures BalanceSplits(Lookup(s'.stakers, records[i].stakerIndex), AmountsAbove(records[i].validators, feed), b)
  {
    StakersAt(records, feed, i);
    RecordBalance(records[i], feed, b);
  }

  predicate IsSortOf(q: seq<Withdraw>, ws: seq<Withdraw>) {
    SortedQueue(q) && multiset(q) == multiset(ws)
  }

  /** The validators of one record: those fed, the sum of those waiting, and the latter cached. */
  method ReadValidators(r: Record, feed: nat, deposits: Pending)
    returns (validators: seq<string>, waiting: uint64, deposits': Pending, outcome: Outcome)
    ensures outcome.Done? <==> DistinctKeys(r.validators)
    ensures outcome.Done? ==>
              && validators == Fed(r.validators, feed) && waiting == WaitingSum(r.validators, feed)
              && deposits' == deposits + Waiting(r, r.validators, feed)
  {
    var vs := r.validators;
    var seen: set<string> := {};
    validators, waiting, deposits', outcome := [], 0, deposits, Done;
    var n := 0;
    while n < |vs|
      invariant n <= |vs| && DistinctKeys(vs[..n])
      invariant forall x :: x in seen <==> exists i :: 0 <= i < n && vs[i].pubkey == x
      invariant validators == Fed(vs[..n], feed) && waiting == WaitingSum(vs[..n], feed)
      invariant deposits' == deposits + Waiting(r, vs[..n], feed)
    {
      var e := vs[n];
      if e.pubkey in seen {
        outcome := Failed(DuplicateValidator);
        return;
      }
      assert vs[..n + 1][..n] == vs[..n] && vs[..n + 1][n] == e;
      if e.version <= feed {
        validators := validators + [e.pubkey];
      } else {
        deposits' := deposits'[e.version := DepositOf(r, e)];
        waiting := WrapAdd(waiting, e.amount);
      }
      seen := seen + {e.pubkey};
      n := n + 1;
    }
    assert vs[..n] == vs;
  }

  /** One record: its staker object, if some validator is fed, and its waiting deposits. */
  method ReadRecord(r: Record, feed: nat, deposits: Pending) returns (sInfo: StakerInfo?, deposits': Pending, outcome: Outcome)
    ensures outcome.Done? <==> RecordFits(r, feed)
    ensures outcome.Done? ==> deposits' == deposits + Waiting(r, r.validators, feed)
    ensures outcome.Done? ==> (sInfo != null <==> StakerAt(r, feed).Some?)
    ensures outcome.Done? && sInfo != null ==> fresh(sInfo) && sInfo.Value() == StakerAt(r, feed).value
  {
    var validators, waiting;
    sInfo := null;
    validators, waiting, deposits', outcome := ReadValidators(r, feed, deposits);
    if outcome.Failed? {
      return;
    }
    var balance: uint64 := 0;
    if |r.balances| > 0 && r.balances[|r.balances| - 1].Some? {
      balance := r.balances[|r.balances| - 1].value;
    }
    if balance < waiting {
      outcome := Failed(BalanceBelowPending);
      return;
    }
    if |validators| > 0 {
      sInfo := new StakerInfo(r.address, validators, balance - waiting, r.withdrawVersion);
    }
  }

  lemma RecordsStep(records: seq<Record>, n: nat, feed: nat, feedWithdraw: nat)
    requires n < |records|
    ensures AllStakers(records[..n + 1], feed) ==
            match StakerAt(records[n], feed)
            case None => AllStakers(records[..n], feed)
            case Some(s) => AllStakers(records[..n], feed)[records[n].stakerIndex := s]
    ensures AllWaiting(records[..n + 1], feed)
         == AllWaiting(records[..n], feed) + Waiting(records[n], records[n].validators, feed)
    ensures Ahead(records[..n + 1], feedWithdraw) == Ahead(records[..n], feedWithdraw) +
            if records[n].withdrawVersion > feedWithdraw then [Withdraw(records[n].stakerIndex, records[n].withdrawVersion)] else []
  {
    var before, all := records[..n], records[..n + 1];
    assert all[..n] == before && all[n] == records[n];
  }

  lemma AcceptableStep(records: seq<Record>, n: nat, feed: nat)
    requires n < |records|
    ensures Acceptable(records[..n + 1], feed) <==>
              && Acceptable(records[..n], feed) && RecordFits(records[n], feed)
              && (forall i | 0 <= i < n :: records[i].stakerIndex != records[n].stakerIndex)
  {
    var before, all := records[..n], records[..n + 1];
    assert forall i | 0 <= i < n :: all[i] == before[i] == records[i];
    assert all[n] == records[n];
  }

  /** The staker indexes of the records read so far. */
  ghost predicate AreIndexes(seen: set<nat>, records: seq<Record>) {
    forall k :: k in seen <==> exists i :: 0 <= i < |records| && records[i].stakerIndex == k
  }

  lemma IndexesStep(seen: set<nat>, records: seq<Record>, n: nat)
    requires n < |records| && AreIndexes(seen, records[..n])
    ensures AreIndexes(seen + {records[n].stakerIndex}, records[..n + 1])
    ensures records[n].stakerIndex in seen ==> !DistinctStakers(records)
    ensures records[n].stakerIndex !in seen ==> forall i | 0 <= i < n :: records[i].stakerIndex != records[n].stakerIndex
  {
    var k := records[n].stakerIndex;
    assert records[..n + 1] == records[..n] + [records[n]];
    if k in seen {
      var i :| 0 <= i < |records[..n]| && records[..n][i].stakerIndex == k;
      assert records[i].stakerIndex == k;
    } else {
      forall i | 0 <= i < n
        ensures records[i].stakerIndex != k
      {
        assert records[..n][i] == records[i];
      }
    }
  }

  /** One more object of its own carries one more value. */
  lemma CarriesOneMore(objects: map<nat, StakerInfo>, m: StakerMap, k: nat, x: StakerInfo)
    requires Carries(objects, m) && Distinct(objects) && x !in objects.Values
    ensures Carries(objects[k := x], m[k := x.Value()]) && Distinct(objects[k := x])
  {
    assert forall i | i in objects :: objects[i] in objects.Values;
  }

  /** The loop over the records: fresh staker objects, the cache and the withdraws ahead of the feed. */
  method ReadRecords(records: seq<Record>, feed: nat, feedWithdraw: nat)
    returns (built: map<nat, StakerInfo>, deposits: Pending, withdraws: seq<Withdraw>, outcome: Outcome)
    ensures outcome.Done? <==> Acceptable(records, feed)
    ensures outcome.Done? ==>
              && Carries(built, AllStakers(records, feed))
              && deposits == AllWaiting(records, feed) && withdraws == Ahead(records, feedWithdraw)
    ensures (forall k | k in built :: fresh(built[k])) && Distinct(built)
  {
    built, deposits, withdraws, outcome := map[], map[], [], Done;
    var seen: set<nat> := {};
    var n := 0;
    while n < |records|
      invariant n <= |records| && outcome.Done? && Acceptable(records[..n], feed)
      invariant AreIndexes(seen, records[..n])
      invariant Carries(built, AllStakers(records[..n], feed)) && Distinct(built)
      invariant forall k | k in built :: fresh(built[k])
      invariant deposits == AllWaiting(records[..n], feed) && withdraws == Ahead(records[..n], feedWithdraw)
    {
      var r := records[n];
      IndexesStep(seen, records, n);
      if r.stakerIndex in seen {
        outcome := Failed(DuplicateStaker);
        return;
      }
      seen := seen + {r.stakerIndex};
      var sInfo;
      sInfo, deposits, outcome := ReadRecord(r, feed, deposits);
      if outcome.Failed? {
        assert !RecordFits(records[n], feed);
        return;
      }
      RecordsStep(records, n, feed, feedWithdraw);
      AcceptableStep(records, n, feed);
      if sInfo != null {
        CarriesOneMore(built, AllStakers(records[..n], feed), r.stakerIndex, sInfo);
        built := built[r.stakerIndex := sInfo];
      }
      if r.withdrawVersion > feedWithdraw {
        withdraws := withdraws + [Withdraw(r.stakerIndex, r.withdrawVersion)];
      }
      n := n + 1;
    }
    assert records[..n] == records;
  }
}
