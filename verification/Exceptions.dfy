/** Inputs at which the code does not keep what one would expect: one for each condition proved elsewhere. */
module Exceptions {
  import opened Prelude
  import opened Ledger
  import opened LedgerForms
  import opened LedgerRollback
  import opened LedgerPath
  import opened Snapshot
  import opened CatchUp
  import TwoPhase
  import TwoPhaseRuns
  import DecimalScale
  import Delivery

  const Full: State :=
    State(0, 0, map[0 := Staker("addr", ["a"], (TWO64 - 1) as uint64, 0)], map[1 := Deposit(0, "addr", "b", 1)], [], map[])

  /** A grow that wraps a balance before it fails keeps the deposit, here with the balance at zero. */
  lemma OverflowIsNotUndone()
    ensures Settled(Full)
    ensures Grow(Full, 2, 0).1 == Failed(MissingDeposit)
    ensures !Intact(Full, Grow(Full, 2, 0).0)
  {
    var d := Full.pending[1];
    var m := AddDeposit(Full.stakers, d);
    assert ApplyDeposits(m, Full.pending, 2, 2) == DepositRun(m, 2, Failed(MissingDeposit));
    assert ApplyDeposits(Full.stakers, Full.pending, 1, 2) == DepositRun(m, 2, Failed(MissingDeposit));
    assert d.amount + BalanceOf(Full.stakers, 0) >= TWO64;
    assert Amounts(DepositsFor(Full.pending, 0, 1, 2)) == 1 by {
      AmountsStep(Full.pending, 0, 1, 2);
    }
    assert BalanceOf(Full.stakers, 0) + Amounts(DepositsFor(Full.pending, 0, 1, 2)) >= TWO64;
    LoopFailureByRun(Full, 2, 0, true, ApplyDeposits(Full.stakers, Full.pending, 1, 2));
  }

  const Fresh: State := State(0, 0, map[], map[1 := Deposit(0, "addr", "a", 5)], [], map[])

  /** The first deposit stays applied when the balance update it comes with names an unknown staker. */
  lemma FirstUpdateIsNotUndone()
    ensures Settled(Fresh)
    ensures ApplyChanges(Fresh, RawData(0, [Change(7, 1)]), 1, 0).1 == Failed(UnknownStaker)
    ensures !Intact(Fresh, ApplyChanges(Fresh, RawData(0, [Change(7, 1)]), 1, 0).0)
  {
    var m := AddDeposit(Fresh.stakers, Fresh.pending[1]);
    assert ApplyDeposits(m, Fresh.pending, 2, 1) == DepositRun(m, 2, Done);
    assert ApplyDeposits(Fresh.stakers, Fresh.pending, 1, 1) == DepositRun(m, 2, Done);
    assert TryGrow(Fresh, 1, 0, false) == (Fresh.(stakers := m), Done);
    ChangeFailureRollback(Fresh, RawData(0, [Change(7, 1)]), 1, 0);
  }

  const Short: State := Fresh.(queue := [Withdraw(0, 1)])

  /** A withdraw version beyond the queue fails the grow and leaves its deposit applied. */
  lemma ShortQueueIsNotUndone()
    ensures Settled(Short)
    ensures Grow(Short, 1, 2).1 == Failed(WithdrawsFallShort)
    ensures !Intact(Short, Grow(Short, 1, 2).0)
  {
    var m := AddDeposit(Short.stakers, Short.pending[1]);
    assert ApplyDeposits(m, Short.pending, 2, 1) == DepositRun(m, 2, Done);
    assert ApplyDeposits(Short.stakers, Short.pending, 1, 1) == DepositRun(m, 2, Done);
    assert TryGrow(Short, 1, 2, true).1 == Failed(WithdrawsFallShort);
    ShortQueueRollback(Short, 1, 2, true);
  }

  // ---- A staker first covered on the way ------------------------------------------------------

  /** A staker with one deposit of 10 at version 2, as the chain reports it. */
  function OneRecord(balance: uint64, withdrawn: nat): Record {
    Record(0, "addr", [ValidatorDeposit("a", 2, 10)], [Some(balance)], withdrawn)
  }

  /** The ledger of a reset to feed version 1: the deposit is cached, the withdraws are all fed. */
  function OneLedger(withdrawn: nat): State {
    State(1, withdrawn, map[], map[2 := Deposit(0, "addr", "a", 10)], [], map[])
  }

  lemma OneRead(r: Record, balance: uint64, withdrawn: nat)
    requires r == OneRecord(balance, withdrawn)
    ensures Fed(r.validators, 1) == [] && Fed(r.validators, 2) == ["a"]
    ensures WaitingSum(r.validators, 1) == 10 && WaitingSum(r.validators, 2) == 0
    ensures Waiting(r, r.validators, 1) == map[2 := Deposit(0, "addr", "a", 10)]
    ensures LastBalance(r) == balance
  {
    assert r.validators[..0] == [];
  }

  lemma OneIsSnapshot(balance: uint64, withdrawn: nat, rs: seq<Record>)
    requires rs == [OneRecord(balance, withdrawn)]
    ensures IsSnapshot(OneLedger(withdrawn), rs, 1, withdrawn)
  {
    OneRead(rs[0], balance, withdrawn);
    assert rs[..0] == [];
    assert AllStakers(rs, 1) == map[] && Ahead(rs, withdrawn) == [];
    assert AllWaiting(rs, 1) == OneLedger(withdrawn).pending;
  }

  lemma OneIsAcceptable(balance: uint64, withdrawn: nat, rs: seq<Record>)
    requires rs == [OneRecord(balance, withdrawn)] && balance >= 10
    ensures Acceptable(rs, 1) && Acceptable(rs, 2) && Ordered(rs, 1) && DistinctWaiting(rs, 1)
  {
    OneRead(rs[0], balance, withdrawn);
  }

  lemma OneGrows(withdrawn: nat)
    ensures Grow(OneLedger(withdrawn), 2, withdrawn).1.Done?
  {
    var s := OneLedger(withdrawn);
    var m := AddDeposit(s.stakers, s.pending[2]);
    assert ApplyDeposits(m, s.pending, 3, 2) == DepositRun(m, 3, Done);
    assert ApplyDeposits(s.stakers, s.pending, 2, 2) == DepositRun(m, 3, Done);
  }

  lemma OneAgrees(r: Record, balance: uint64, withdrawn: nat)
    requires r == OneRecord(balance, withdrawn)
    ensures AgreesAt(r, 1, 2, withdrawn, withdrawn) <==> balance == 10 && withdrawn == 0
  {
    OneRead(r, balance, withdrawn);
  }

  /** Caught up by growing, this ledger is that of the later reset just for a plain deposit. */
  lemma OneCatchesUp(balance: uint64, withdrawn: nat, rs: seq<Record>)
    requires rs == [OneRecord(balance, withdrawn)] && balance >= 10
    ensures IsSnapshot(OneLedger(withdrawn), rs, 1, withdrawn)
    ensures Grow(OneLedger(withdrawn), 2, withdrawn).1.Done?
    ensures IsSnapshot(Grow(OneLedger(withdrawn), 2, withdrawn).0, rs, 2, withdrawn) <==> balance == 10 && withdrawn == 0
  {
    OneIsSnapshot(balance, withdrawn, rs);
    OneIsAcceptable(balance, withdrawn, rs);
    OneGrows(withdrawn);
    CatchUpExactly(OneLedger(withdrawn), rs, 1, 2, withdrawn, withdrawn);
    OneAgrees(rs[0], balance, withdrawn);
  }

  /** A reward beyond the deposit is missed: growing gives the staker the deposit alone. */
  lemma CatchUpMissesRewards()
    ensures IsSnapshot(OneLedger(0), [OneRecord(15, 0)], 1, 0) && Grow(OneLedger(0), 2, 0).1.Done?
    ensures !IsSnapshot(Grow(OneLedger(0), 2, 0).0, [OneRecord(15, 0)], 2, 0)
  {
    OneCatchesUp(15, 0, [OneRecord(15, 0)]);
  }

  /** A withdraw that was fed before the staker was covered is forgotten. */
  lemma CatchUpForgetsWithdraw()
    ensures IsSnapshot(OneLedger(1), [OneRecord(10, 1)], 1, 1) && Grow(OneLedger(1), 2, 1).1.Done?
    ensures !IsSnapshot(Grow(OneLedger(1), 2, 1).0, [OneRecord(10, 1)], 2, 1)
  {
    OneCatchesUp(10, 1, [OneRecord(10, 1)]);
  }

  // ---- A nonce that is used up in vain --------------------------------------------------------

  /** A two-phase feeder without an end, whose first round is at least two blocks long. */
  predicate TwoBlocks(c: TwoPhase.Config) {
    c.twoPhases && c.interval >= 2 && c.endBlock == 0 && c.startRound >= 1
  }

  lemma FirstRound(c: TwoPhase.Config, delta: nat)
    requires c.interval > delta && c.endBlock == 0
    ensures TwoPhase.CalculateRound(c, c.startBase + delta) == TwoPhase.Round(c.startBase, c.startRound, delta, true)
  {
    DecimalScale.Quotient(delta, c.interval, 0, delta);
    assert delta == c.interval * (delta / c.interval) + delta % c.interval;
  }

  /** A height in a round's first blocks, with no second phase to go on with, is its first phase. */
  lemma HeightStarts(c: TwoPhase.Config, f: TwoPhase.Feeder, e: TwoPhase.Event, base: nat, round: nat, delta: nat)
    requires c.twoPhases && c.interval > 0 && f.last == TwoPhase.NoLast && delta < 3
    requires e.Height? && e.priceHeight == 0 && TwoPhase.CalculateRound(c, e.commit) == TwoPhase.Round(base, round, delta, true)
    requires TwoPhase.Sendable(f.info, round) == TwoPhase.NotReady
    ensures TwoPhase.Step(c, f, e) == TwoPhase.FirstPhase(c, f.(roundID := round, baseBlock := base), e.commit, e.fetch, e.oks.0)
  {
  }

  /** After the first event: in the first round, with nothing cached and nonce 1 used up. */
  predicate UsedOne(c: TwoPhase.Config, f: TwoPhase.Feeder) {
    f == TwoPhase.Feeder(c.startRound, c.startBase, TwoPhase.Info(c.startRound, [], None, -1, 0, {}),
                         TwoPhase.Sign(3, c.startRound, 1), TwoPhase.NoLast, [TwoPhase.NoRoot(c.startRound)])
  }

  lemma NoTreeWastes(c: TwoPhase.Config, f: TwoPhase.Feeder, h: int)
    requires TwoBlocks(c) && f == TwoPhase.NewFeeder(3).(roundID := c.startRound, baseBlock := c.startBase)
    ensures UsedOne(c, TwoPhase.FirstPhase(c, f, h, TwoPhase.Fetched("p", 0, None, None), true))
  {
    var g := TwoPhase.EnterRound(c, f);
    assert TwoPhase.NextNonce(g.sign, c.startRound) == (TwoPhase.Sign(3, c.startRound, 1), 1);
    assert g.log + [TwoPhase.NoRoot(c.startRound)] == [TwoPhase.NoRoot(c.startRound)];
  }

  /** The submission under the second nonce. */
  function Second(c: TwoPhase.Config, tree: TwoPhase.Tree): TwoPhase.Msg {
    TwoPhase.PhaseOne(c.startRound, c.startBase, c.startBase + 1, 2, tree.root, tree.leafCount, true)
  }

  lemma TreeIsSubmitted(c: TwoPhase.Config, f: TwoPhase.Feeder, tree: TwoPhase.Tree)
    requires TwoBlocks(c) && UsedOne(c, f)
    ensures TwoPhase.FirstPhase(c, f, c.startBase + 1, TwoPhase.Fetched("q", 0, Some(tree), None), true).log
         == f.log + [Second(c, tree)]
  {
    assert TwoPhase.EnterRound(c, f) == f;
    assert TwoPhase.Cached(c, f, Some(tree)).info.cached == [tree];
    assert TwoPhase.NextNonce(f.sign, c.startRound) == (TwoPhase.Sign(3, c.startRound, 2), 2);
  }

  lemma TwoEvents(c: TwoPhase.Config, f: TwoPhase.Feeder, d: TwoPhase.Event, e: TwoPhase.Event)
    requires c.interval > 0
    ensures TwoPhase.Run(c, f, [d, e]) == TwoPhase.Step(c, TwoPhase.Step(c, f, d), e)
  {
    assert [d, e][1..] == [e] && [e][1..] == [];
    assert TwoPhase.Run(c, TwoPhase.Step(c, f, d), [e]) == TwoPhase.Step(c, TwoPhase.Step(c, f, d), e);
  }

  lemma NoncesOfBoth(first: TwoPhase.Msg, second: TwoPhase.Msg)
    requires first.NoRoot? && second.PhaseOne? && second.ok && second.round == first.round
    ensures TwoPhaseRuns.OkNonces([first] + [second], first.round) == [second.nonce]
    ensures TwoPhaseRuns.NoRoots([first] + [second], first.round) == 1
  {
    TwoPhaseRuns.NoncesAppend([], first);
    TwoPhaseRuns.NoncesAppend([first], second);
    assert [] + [first] == [first];
  }

  lemma StartsAtTwo(log: seq<TwoPhase.Msg>, round: nat)
    requires TwoPhaseRuns.OkNonces(log, round) == [2]
    ensures !Delivery.Counted(log, round)
  {
    assert TwoPhaseRuns.OkNonces(log, round)[0] == 2;
  }

  /**
   The first price of a feeder's first round has no tree, the second one has: the only submission then
   carries nonce 2, as nonce 1 was used up without a root to submit.
   */
  lemma FirstNonceIsWasted(c: TwoPhase.Config, tree: TwoPhase.Tree, d: TwoPhase.Event, e: TwoPhase.Event)
    requires TwoBlocks(c)
    requires d == TwoPhase.Height(c.startBase, 0, TwoPhase.Fetched("p", 0, None, None), (true, true))
    requires e == TwoPhase.Height(c.startBase + 1, 0, TwoPhase.Fetched("q", 0, Some(tree), None), (true, true))
    ensures var f := TwoPhase.Run(c, TwoPhase.NewFeeder(3), [d, e]);
            && TwoPhaseRuns.OkNonces(f.log, c.startRound) == [2] && TwoPhaseRuns.NoRoots(f.log, c.startRound) == 1
            && !Delivery.Counted(f.log, c.startRound)
  {
    var f0 := TwoPhase.NewFeeder(3);
    FirstRound(c, 0);
    HeightStarts(c, f0, d, c.startBase, c.startRound, 0);
    NoTreeWastes(c, f0.(roundID := c.startRound, baseBlock := c.startBase), c.startBase);
    var f1 := TwoPhase.Step(c, f0, d);
    FirstRound(c, 1);
    HeightStarts(c, f1, e, c.startBase, c.startRound, 1);
    TreeIsSubmitted(c, f1, tree);
    TwoEvents(c, f0, d, e);
    NoncesOfBoth(TwoPhase.NoRoot(c.startRound), Second(c, tree));
    StartsAtTwo(TwoPhase.Run(c, f0, [d, e]).log, c.startRound);
  }
}
