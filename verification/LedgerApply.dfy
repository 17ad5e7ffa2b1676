/**
 A balance update against a specification that looks at one staker at a time: its own deposits, its
 own due withdraws and the last change listed for it.
 */
module LedgerApply {
  import opened Prelude
  import opened Ledger
  import opened LedgerForms
  import opened LedgerRollback
  import opened LedgerPath

  /** The last balance listed for staker `k`, if any. */
  function LastChange(changes: seq<Change>, k: nat): Option<uint64> {
    if changes == [] then None
    else
      var last := changes[|changes| - 1];
      if last.stakerIndex == k then Some(last.balance) else LastChange(changes[..|changes| - 1], k)
  }

  predicate Listed(m: StakerMap, changes: seq<Change>) {
    forall c | c in changes :: c.stakerIndex in m
  }

  lemma {:induction false} LastChangeFront(c: Change, rest: seq<Change>, k: nat)
    ensures LastChange([c] + rest, k) ==
            if LastChange(rest, k).Some? then LastChange(rest, k)
            else if c.stakerIndex == k then Some(c.balance) else None
    decreases |rest|
  {
    var all := [c] + rest;
    if rest == [] {
      assert all[..|all| - 1] == [];
    } else {
      assert all[..|all| - 1] == [c] + rest[..|rest| - 1];
      assert all[|all| - 1] == rest[|rest| - 1];
      LastChangeFront(c, rest[..|rest| - 1], k);
    }
  }

  /** The new balance the update records for `k`: listed, known and not ahead of the feed. */
  predicate PatchedAt(m: StakerMap, feed: nat, changes: seq<Change>, acc: map<nat, uint64>, updated: map<nat, uint64>, k: nat) {
    if k in m && m[k].withdrawVersion <= feed && LastChange(changes, k).Some?
    then k in updated && updated[k] == LastChange(changes, k).value
    else (k in updated <==> k in acc) && (k in acc ==> updated[k] == acc[k])
  }

  /** The collecting loop succeeds exactly when all listed stakers are known; the last listing counts. */
  lemma {:induction false} PatchesClosedForm(m: StakerMap, feed: nat, changes: seq<Change>, acc: map<nat, uint64>, k: nat)
    requires acc.Keys <= m.Keys
    ensures var r := CollectPatches(m, feed, changes, acc);
            && (r.outcome.Done? <==> Listed(m, changes))
            && (r.outcome.Done? ==> PatchedAt(m, feed, changes, acc, r.updated, k))
    decreases |changes|
  {
    if changes != [] {
      var c, rest := changes[0], changes[1..];
      assert changes == [c] + rest;
      LastChangeFront(c, rest, k);
      if c.stakerIndex in m {
        var acc1 := if m[c.stakerIndex].withdrawVersion > feed then acc else acc[c.stakerIndex := c.balance];
        PatchesClosedForm(m, feed, rest, acc1, k);
        assert forall x | x in changes :: x == c || x in rest;
      }
    }
  }

  /** One staker after a balance update, said without any of the loops. */
  function Updated(o: Option<Staker>, ds: seq<Deposit>, due: seq<Withdraw>, feed: nat, change: Option<uint64>, k: nat): Option<Staker> {
    match Extend(o, ds)
    case None => None
    case Some(t) =>
      var stamp := Latest(due, k, t.withdrawVersion);
      Some(t.(withdrawVersion := stamp,
              balance := if change.Some? && stamp <= feed then change.value else t.balance))
  }

  /** The grow that a balance update starts with, which may also stand still. */
  lemma GrowPart(s: State, version: nat, wv: nat, d: DepositRun)
    requires Settled(s)
    requires d == ApplyDeposits(s.stakers, s.pending, s.version + 1, version)
    ensures TryGrow(s, version, wv, false).1.Done? <==> ReachesBy(s, version, wv, d)
    ensures ReachesBy(s, version, wv, d) ==> TryGrow(s, version, wv, false).0.stakers == Stamp(d.stakers, Due(s.queue, wv))
  {
    if Guarded(s, version, wv) {
      GuardsPass(s, version, wv, false, d);
      if d.outcome.Done? {
        AfterDepositsForm(s, d, wv);
      }
    } else {
      GuardsStop(s, version, wv, false);
      if version == s.version && wv == s.withdrawVersion {
        NothingDue(s.queue, s.withdrawVersion);
        assert Stamp(s.stakers, []) == s.stakers;
      } else if ReachesBy(s, version, wv, d) {
        ReachesByIsGuarded(s, version, wv, d);
      }
    }
  }

  /** What a successful update makes of staker `k`. */
  predicate UpdatedAt(s: State, s': State, data: RawData, version: nat, wv: nat, k: nat)
    requires Covers(s.pending, s.version + 1, version + 1)
  {
    Lookup(s'.stakers, k) == Updated(Lookup(s.stakers, k), DepositsFor(s.pending, k, s.version + 1, version + 1),
                                     Due(s.queue, wv), s.withdrawVersion, LastChange(data.changes, k), k)
  }

  lemma PatchedStaker(m: StakerMap, due: seq<Withdraw>, feed: nat, changes: seq<Change>, o: Option<Staker>, ds: seq<Deposit>, k: nat)
    requires Lookup(m, k) == Extend(o, ds)
    requires Listed(m, changes)
    ensures var r := CollectPatches(Stamp(m, due), feed, changes, map[]);
            && r.outcome.Done?
            && Lookup(Patch(Stamp(m, due), r.updated), k) == Updated(o, ds, due, feed, LastChange(changes, k), k)
  {
    assert Listed(Stamp(m, due), changes);
    PatchesClosedForm(Stamp(m, due), feed, changes, map[], k);
  }

  /** The patching half, on a ledger grown from `s` by the deposits `d` and the withdraws `due`. */
  lemma AfterPatchesForm(s: State, g: State, data: RawData, version: nat, wv: nat, d: DepositRun, due: seq<Withdraw>)
    requires g == s.(stakers := Stamp(d.stakers, due), prev := g.prev)
    requires Covers(s.pending, s.version + 1, version + 1)
    ensures var r := CollectPatches(g.stakers, g.withdrawVersion, data.changes, map[]);
            var (s', o) := AfterPatches(g, r, version, wv);
            && (o.Done? <==> Listed(d.stakers, data.changes))
            && (o.Done? ==> s' == State(version, wv, Patch(g.stakers, r.updated), DropPending(s.pending, version),
                                        CutQueue(s.queue, wv), map[]))
  {
    PatchesClosedForm(g.stakers, g.withdrawVersion, data.changes, map[], 0);
    assert g.stakers.Keys == d.stakers.Keys;
    assert Listed(d.stakers, data.changes) <==> Listed(g.stakers, data.changes);
  }

  /** The patched ledger, staker by staker. */
  lemma PatchedForm(s: State, data: RawData, version: nat, due: seq<Withdraw>, d: DepositRun, k: nat)
    requires d == ApplyDeposits(s.stakers, s.pending, s.version + 1, version) && d.next == version + 1
    requires Listed(d.stakers, data.changes)
    ensures var r := CollectPatches(Stamp(d.stakers, due), s.withdrawVersion, data.changes, map[]);
            var ds := DepositsFor(s.pending, k, s.version + 1, version + 1);
            var mine := Updated(Lookup(s.stakers, k), ds, due, s.withdrawVersion, LastChange(data.changes, k), k);
            Lookup(Patch(Stamp(d.stakers, due), r.updated), k) == mine
  {
    DepositsClosedForm(s.stakers, s.pending, s.version + 1, version, k);
    PatchedStaker(d.stakers, due, s.withdrawVersion, data.changes, Lookup(s.stakers, k),
                  DepositsFor(s.pending, k, s.version + 1, version + 1), k);
  }

  /** What the update leaves: `s'` as a whole, and its staker `k`. */
  predicate UpdatesTo(s: State, s': State, data: RawData, version: nat, wv: nat, k: nat)
    requires Covers(s.pending, s.version + 1, version + 1)
  {
    && s' == State(version, wv, s'.stakers, DropPending(s.pending, version), CutQueue(s.queue, wv), map[])
    && UpdatedAt(s, s', data, version, wv, k)
  }

  /** An update in terms of its run of deposits. */
  lemma UpdateByRun(s: State, data: RawData, version: nat, wv: nat, d: DepositRun, k: nat)
    requires Settled(s) && s.version == data.version
    requires d == ApplyDeposits(s.stakers, s.pending, s.version + 1, version)
    ensures var (s', o) := ApplyChanges(s, data, version, wv);
            && (o.Done? <==> ReachesBy(s, version, wv, d) && Listed(d.stakers, data.changes))
            && (o.Done? ==> Covers(s.pending, s.version + 1, version + 1) && UpdatesTo(s, s', data, version, wv, k))
  {
    GrowPart(s, version, wv, d);
    if ReachesBy(s, version, wv, d) {
      AfterPatchesForm(s, TryGrow(s, version, wv, false).0, data, version, wv, d, Due(s.queue, wv));
      if Listed(d.stakers, data.changes) {
        PatchedForm(s, data, version, Due(s.queue, wv), d, k);
      }
    }
  }

  /** Every staker with a listed balance is there, or comes with the deposits. */
  predicate ListedKnown(s: State, changes: seq<Change>, version: nat)
    requires Covers(s.pending, s.version + 1, version + 1)
  {
    forall c | c in changes :: c.stakerIndex in IndexesBefore(s.stakers, s.pending, s.version + 1, version + 1)
  }

  predicate CanUpdate(s: State, data: RawData, version: nat, wv: nat) {
    s.version == data.version && CanReach(s, version, wv) && ListedKnown(s, data.changes, version)
  }

  lemma ListedByRun(s: State, changes: seq<Change>, version: nat, d: DepositRun)
    requires d == ApplyDeposits(s.stakers, s.pending, s.version + 1, version)
    requires version >= s.version && d.outcome.Done?
    ensures Covers(s.pending, s.version + 1, version + 1)
    ensures ListedKnown(s, changes, version) <==> Listed(d.stakers, changes)
  {
    RunIndexes(s.stakers, s.pending, s.version + 1, version, d);
  }

  /**
   A balance update succeeds exactly when it names the ledger's version, every cached version on the
   way can be applied, the withdraws on the way are there, and every staker listed or due is known or
   comes on the way. It then commits the new versions and makes of every staker what the
   specification says: old validators followed by the cached ones in version order, the latest due
   withdraw version, and the listed balance just for stakers that the grow did not put ahead of the
   old feed.
   */
  lemma ApplyRefines(s: State, data: RawData, version: nat, wv: nat, k: nat)
    requires Settled(s)
    ensures ApplyChanges(s, data, version, wv).1.Done? <==> CanUpdate(s, data, version, wv)
    ensures CanUpdate(s, data, version, wv) ==> UpdatesTo(s, ApplyChanges(s, data, version, wv).0, data, version, wv, k)
  {
    if s.version == data.version {
      var d := ApplyDeposits(s.stakers, s.pending, s.version + 1, version);
      UpdateByRun(s, data, version, wv, d, k);
      ReachByRun(s, version, wv, d);
      if ReachesBy(s, version, wv, d) {
        ListedByRun(s, data.changes, version, d);
      }
    }
  }
}
