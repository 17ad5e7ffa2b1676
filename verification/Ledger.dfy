/**
 The versioned staker ledger on values: what each operation of the source's `Stakers` does to
 the whole ledger, step by step, including where it stops and what it undoes. The class of the
 same fields is proved against these functions; the properties are proved about them.
 */
module Ledger {
  import opened Prelude

  /** One staker. Validator order is the order in which the deposits were applied. */
  datatype Staker = Staker(address: string, validators: seq<string>, balance: uint64, withdrawVersion: nat)

  datatype Deposit = Deposit(stakerIndex: nat, stakerAddr: string, validator: string, amount: uint64)

  datatype Withdraw = Withdraw(stakerIndex: nat, withdrawVersion: nat)

  datatype Change = Change(stakerIndex: nat, balance: uint64)

  datatype RawData = RawData(version: nat, changes: seq<Change>)

  type StakerMap = map<nat, Staker>

  /** Deposits not yet applied, by version. */
  type Pending = map<nat, Deposit>

  datatype State = State(
    version: nat,
    withdrawVersion: nat,
    stakers: StakerMap,
    pending: Pending,
    queue: seq<Withdraw>,
    prev: map<nat, nat>)

  datatype Error =
    | HistoryVersion
    | VersionBelowOne
    | NoPendingDeposits
    | NoPendingWithdraws
    | MissingDeposit
    | IndexGap
    | DuplicateValidator
    | WithdrawsFallShort
    | UnknownStaker
    | VersionMismatch
    | NextVersionZero
    | NotContinuous
    | VersionExists
    | WithdrawVersionZero
    | WithdrawVersionExists
    | WithdrawNotContinuous
    | DuplicateStaker
    | BalanceBelowPending

  datatype Outcome = Done | Failed(error: Error)

  function Lookup(m: StakerMap, k: nat): Option<Staker> {
    if k in m then Some(m[k]) else None
  }

  // ---- Applying and undoing one deposit ------------------------------------------------------

  function AddValidator(s: Staker, validator: string, amount: uint64): Staker {
    s.(validators := s.validators + [validator], balance := WrapAdd(s.balance, amount))
  }

  /** `RemoveFirst(s, x)` is `s` without the first occurrence of `x`. */
  function RemoveFirst(s: seq<string>, x: string): seq<string> {
    if s == [] then []
    else if s[0] == x then s[1..]
    else [s[0]] + RemoveFirst(s[1..], x)
  }

  function RemoveValidator(s: Staker, validator: string, amount: uint64): Staker {
    if s.balance < amount || validator !in s.validators then s
    else s.(validators := RemoveFirst(s.validators, validator), balance := s.balance - amount)
  }

  /** Why a deposit cannot be applied: its validator is known, or its new index leaves a gap. */
  function DepositOutcome(m: StakerMap, d: Deposit): Outcome {
    if d.stakerIndex !in m then
      if d.stakerIndex != |m| then Failed(IndexGap) else Done
    else if d.validator in m[d.stakerIndex].validators then Failed(DuplicateValidator)
    else Done
  }

  function AddDeposit(m: StakerMap, d: Deposit): StakerMap {
    m[d.stakerIndex :=
      if d.stakerIndex in m then AddValidator(m[d.stakerIndex], d.validator, d.amount)
      else Staker(d.stakerAddr, [d.validator], d.amount, 0)]
  }

  function RemoveDeposit(m: StakerMap, d: Deposit): StakerMap {
    if d.stakerIndex !in m then m
    else m[d.stakerIndex := RemoveValidator(m[d.stakerIndex], d.validator, d.amount)]
  }

  // ---- Growing --------------------------------------------------------------------------------

  /** How far a run over the pending deposits came: `next` is the first version not applied. */
  datatype DepositRun = DepositRun(stakers: StakerMap, next: nat, outcome: Outcome)

  function ApplyDeposits(m: StakerMap, p: Pending, i: nat, version: nat): (r: DepositRun)
    ensures i <= r.next
    ensures i <= version ==> r.next <= version + 1
    ensures r.outcome.Done? ==> r.next == if i <= version then version + 1 else i
    ensures forall v | i <= v < r.next :: v in p
    ensures r.outcome.Failed? ==> r.outcome.error in {MissingDeposit, IndexGap, DuplicateValidator}
    decreases version + 1 - i
  {
    if i > version then DepositRun(m, i, Done)
    else if i !in p then DepositRun(m, i, Failed(MissingDeposit))
    else
      var o := DepositOutcome(m, p[i]);
      if o.Failed? then DepositRun(m, i, o)
      else ApplyDeposits(AddDeposit(m, p[i]), p, i + 1, version)
  }

  datatype WithdrawRun = WithdrawRun(stakers: StakerMap, prev: map<nat, nat>, latest: nat, outcome: Outcome)

  /** Stamps the queued withdraws up to `target` on their stakers, noting in `prev` what each held before. */
  function ApplyWithdraws(m: StakerMap, q: seq<Withdraw>, target: nat, prev: map<nat, nat>, latest: nat): (r: WithdrawRun)
    ensures r.outcome.Failed? ==> r.outcome.error == UnknownStaker
  {
    if q == [] || q[0].withdrawVersion > target then WithdrawRun(m, prev, latest, Done)
    else if q[0].stakerIndex !in m then WithdrawRun(m, prev, latest, Failed(UnknownStaker))
    else
      var k, v := q[0].stakerIndex, q[0].withdrawVersion;
      ApplyWithdraws(m[k := m[k].(withdrawVersion := v)], q[1..], target,
                     if k in prev then prev else prev[k := m[k].withdrawVersion], v)
  }

  /** Removes the deposits of versions `base + 1 .. v` again, latest first. */
  function UndoDeposits(m: StakerMap, p: Pending, v: nat, base: nat): StakerMap
    requires forall i | base < i <= v :: i in p
    decreases v
  {
    if v <= base then m else UndoDeposits(RemoveDeposit(m, p[v]), p, v - 1, base)
  }

  function RestoreWithdraws(m: StakerMap, prev: map<nat, nat>): StakerMap {
    map k | k in m :: if k in prev then m[k].(withdrawVersion := prev[k]) else m[k]
  }

  function Downgrade(s: State, v: nat): State
    requires forall i | s.version < i <= v :: i in s.pending
  {
    s.(stakers := RestoreWithdraws(UndoDeposits(s.stakers, s.pending, v, s.version), s.prev), prev := map[])
  }

  /** The undo a failed grow defers: `next` is the loop's version counter, `latest` its last stamp. */
  function DeferredUndo(s: State, next: nat, latest: nat): State
    requires next >= 1
    requires forall i | s.version < i < next :: i in s.pending
  {
    if next > 1 || latest > s.withdrawVersion then Downgrade(s, next - 1) else s
  }

  /** The end of a grow, after its withdraw loop. */
  function AfterWithdraws(s: State, next: nat, w: WithdrawRun): (State, Outcome)
    requires next >= 1
    requires forall i | s.version < i < next :: i in s.pending
  {
    var s2 := s.(stakers := w.stakers, prev := w.prev);
    if w.outcome.Failed? then (DeferredUndo(s2, next, w.latest), w.outcome) else (s2, Done)
  }

  /** What follows the deposit loop of a grow: the undo if it failed, else the withdraw loop. */
  function AfterDeposits(s: State, d: DepositRun, wv: nat): (State, Outcome)
    requires d.next >= 1
    requires forall i | s.version < i < d.next :: i in s.pending
    requires s.queue == [] ==> wv <= s.withdrawVersion
  {
    var s1 := s.(stakers := d.stakers);
    if d.outcome.Failed? then (DeferredUndo(s1, d.next, s.withdrawVersion), d.outcome)
    else if wv <= s.withdrawVersion then (s1, Done)
    else if s.queue[|s.queue| - 1].withdrawVersion < wv then
      // The source returns here without setting the variable its deferred undo looks at.
      (s1, Failed(WithdrawsFallShort))
    else AfterWithdraws(s, d.next, ApplyWithdraws(d.stakers, s.queue, wv, map[], s.withdrawVersion))
  }

  function TryGrow(s: State, version: nat, wv: nat, update: bool): (r: (State, Outcome))
    ensures r.0 == s.(stakers := r.0.stakers, prev := r.0.prev)
    ensures r.1.Done? ==> forall v | s.version < v <= version :: v in s.pending
  {
    if version < s.version || wv < s.withdrawVersion then (s, Failed(HistoryVersion))
    else if version == s.version && wv == s.withdrawVersion then
      (s, if update then Failed(HistoryVersion) else Done)
    else if |s.pending| == 0 && version > s.version then (s, Failed(NoPendingDeposits))
    else if |s.queue| == 0 && wv > s.withdrawVersion then (s, Failed(NoPendingWithdraws))
    else AfterDeposits(s, ApplyDeposits(s.stakers, s.pending, s.version + 1, version), wv)
  }

  // ---- Committing -----------------------------------------------------------------------------

  function DropPending(p: Pending, version: nat): Pending {
    map v | v in p && v > version :: p[v]
  }

  /** The queue from its first entry above `wv` on. */
  function CutQueue(q: seq<Withdraw>, wv: nat): seq<Withdraw> {
    if q == [] || q[0].withdrawVersion > wv then q else CutQueue(q[1..], wv)
  }

  function Complete(s: State, version: nat, wv: nat): State {
    State(version, wv, s.stakers, DropPending(s.pending, version), CutQueue(s.queue, wv), map[])
  }

  function Grow(s: State, version: nat, wv: nat): (State, Outcome) {
    if version < 1 then (s, Failed(VersionBelowOne))
    else
      var (s1, o) := TryGrow(s, version, wv, true);
      if o.Failed? then (s1, o) else (Complete(s1, version, wv), Done)
  }

  // ---- Balance changes ------------------------------------------------------------------------

  datatype PatchRun = PatchRun(updated: map<nat, uint64>, outcome: Outcome)

  /** Collects the new balances, skipping stakers ahead of the feed's withdraw version. */
  function CollectPatches(m: StakerMap, feed: nat, changes: seq<Change>, acc: map<nat, uint64>): (r: PatchRun)
    requires acc.Keys <= m.Keys
    ensures r.updated.Keys <= m.Keys
    ensures r.outcome.Failed? ==> r.outcome.error == UnknownStaker
  {
    if changes == [] then PatchRun(acc, Done)
    else
      var k := changes[0].stakerIndex;
      if k !in m then PatchRun(acc, Failed(UnknownStaker))
      else if m[k].withdrawVersion > feed then CollectPatches(m, feed, changes[1..], acc)
      else CollectPatches(m, feed, changes[1..], acc[k := changes[0].balance])
  }

  function Patch(m: StakerMap, updated: map<nat, uint64>): StakerMap {
    map k | k in m :: if k in updated then m[k].(balance := updated[k]) else m[k]
  }

  /** The end of a balance update on the grown ledger `g`: commit, or undo if a staker was unknown. */
  function AfterPatches(g: State, r: PatchRun, version: nat, wv: nat): (State, Outcome)
    requires r.updated.Keys <= g.stakers.Keys
    requires forall v | g.version < v <= version :: v in g.pending
  {
    if r.outcome.Failed? then
      (if version > 1 || wv > g.withdrawVersion then Downgrade(g, version) else g, r.outcome)
    else (Complete(g.(stakers := Patch(g.stakers, r.updated)), version, wv), Done)
  }

  function ApplyChanges(s: State, data: RawData, version: nat, wv: nat): (State, Outcome) {
    if s.version != data.version then (s, Failed(VersionMismatch))
    else
      var (g, o) := TryGrow(s, version, wv, false);
      if o.Failed? then (g, o)
      else AfterPatches(g, CollectPatches(g.stakers, g.withdrawVersion, data.changes, map[]), version, wv)
  }

  // ---- Caching chain events -------------------------------------------------------------------

  /** Copies `deposits[next + i ..]` into the cache until done or stuck. */
  function CacheDeposits(p: Pending, deposits: Pending, next: nat, i: nat): (r: (Pending, Outcome))
    requires i <= |deposits|
    decreases |deposits| - i
  {
    if i == |deposits| then (p, Done)
    else if next + i !in deposits then (p, Failed(NotContinuous))
    else if next + i in p then (p, Failed(VersionExists))
    else CacheDeposits(p[next + i := deposits[next + i]], deposits, next, i + 1)
  }

  function CacheWithdraws(q: seq<Withdraw>, wv: nat, withdraws: seq<Withdraw>): (seq<Withdraw>, Outcome)
    decreases |withdraws|
  {
    if withdraws == [] then (q, Done)
    else
      var w := withdraws[0];
      if w.withdrawVersion == 0 then (q, Failed(WithdrawVersionZero))
      else if wv >= w.withdrawVersion then (q, Failed(WithdrawVersionExists))
      else if |q| > 0 && q[|q| - 1].withdrawVersion + 1 != w.withdrawVersion then
        (q, Failed(WithdrawNotContinuous))
      else CacheWithdraws(q + [w], wv, withdraws[1..])
  }

  function Cache(s: State, deposits: Pending, next: nat, withdraws: seq<Withdraw>): (State, Outcome) {
    if |deposits| > 0 && next == 0 then (s, Failed(NextVersionZero))
    else if |s.pending| > 0 && (next == 0 || next - 1 !in s.pending || next in s.pending) then
      (s, Failed(NotContinuous))
    else if |s.pending| == 0 && s.version + 1 != next then (s, Failed(VersionMismatch))
    else
      var (p, o) := CacheDeposits(s.pending, deposits, next, 0);
      if o.Failed? then (s.(pending := p), o)
      else
        var (q, o') := CacheWithdraws(s.queue, s.withdrawVersion, withdraws);
        (s.(pending := p, queue := q), o')
  }
}
