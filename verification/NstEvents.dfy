/** What a feeder does with the chain's staker and balance events: its calls to the ledger. */
module NstEvents {
  import opened Prelude
  import opened Ledger
  import opened LedgerForms
  import opened LedgerRollback
  import opened LedgerPath
  import opened LedgerApply
  import opened LedgerRuns
  import opened StakerEvents
  import opened StakerObjects
  import TwoPhase

  /** The answer to a balance event; there may be no agreed tree to take the changes from. */
  datatype Reply = Answered(outcome: Outcome) | NoRawData

  /** A staker event is cached; the very first deposit is fed at once. */
  function OnStakers(s: State, e: StakerEvent): State {
    var (s1, o) := Hand(s, e);
    if o.Done? && |e.deposits| > 0 && e.nextVersion == 1 then Grow(s1, 1, 0).0 else s1
  }

  /** What the agreed tree's pieces put together decode to; trees are told apart by their roots. */
  type Decoder = string -> Option<RawData>

  /** A balance event names the agreed root: that of no changes at all, or that of the finalized tree. */
  function OnBalance(s: State, finalized: Option<TwoPhase.Tree>, decode: Decoder, emptyRoot: string,
                     root: string, version: nat, wv: nat): (State, Reply) {
    if root == emptyRoot then
      var (s', o) := Grow(s, version, wv);
      (s', Answered(o))
    else if finalized.None? || finalized.value.root != root || decode(root).None? then (s, NoRawData)
    else
      var (s', o) := ApplyChanges(s, decode(root).value, version, wv);
      (s', Answered(o))
  }

  method HandleStakers(stakers: Stakers, e: StakerEvent) returns (resetPrice: bool)
    requires stakers.Valid()
    modifies stakers, stakers.sInfos.Values
    ensures stakers.Valid() && fresh(stakers.sInfos.Values - old(stakers.sInfos.Values))
    ensures stakers.Value() == old(OnStakers(stakers.Value(), e))
    ensures resetPrice <==> old(Hand(stakers.Value(), e)).1.Done? && |e.withdraws| > 0
  {
    var outcome := stakers.CacheDepositsWithdraws(e.deposits, e.nextVersion, e.withdraws);
    if outcome.Failed? {
      return false;
    }
    if |e.deposits| > 0 && e.nextVersion == 1 {
      var _ := stakers.GrowVersionsFromCacheByDepositWithdraw(e.nextVersion, 0);
    }
    return |e.withdraws| > 0;
  }

  method ApplyNSTBalanceUpdate(stakers: Stakers, finalized: Option<TwoPhase.Tree>, decode: Decoder, emptyRoot: string,
                               root: string, version: nat, wv: nat) returns (reply: Reply)
    requires stakers.Valid()
    modifies stakers, stakers.sInfos.Values
    ensures stakers.Valid() && fresh(stakers.sInfos.Values - old(stakers.sInfos.Values))
    ensures (stakers.Value(), reply) == old(OnBalance(stakers.Value(), finalized, decode, emptyRoot, root, version, wv))
  {
    if root == emptyRoot {
      var outcome := stakers.GrowVersionsFromCacheByDepositWithdraw(version, wv);
      return Answered(outcome);
    }
    if finalized.None? || finalized.value.root != root {
      return NoRawData;
    }
    var changes := decode(root);
    if changes.None? {
      return NoRawData;
    }
    var outcome := stakers.ApplyBalanceChanges(changes.value, version, wv);
    return Answered(outcome);
  }

  // ---- What one event does --------------------------------------------------------------------

  /** The reply to a grow or update that could not be made, and the ledger it leaves. */
  ghost predicate Refused(s: State, s': State, reply: Reply) {
    reply.Answered? && reply.outcome.Failed? && (Intact(s, s') || exists v :: Blocked(s', v))
  }

  lemma GrowAnswer(s: State, version: nat, wv: nat, k: nat)
    requires Settled(s)
    ensures var (s', o) := Grow(s, version, wv);
            && (o.Done? <==> CanGrow(s, version, wv))
            && (CanGrow(s, version, wv) ==> GrownAt(s, version, wv, s', k))
            && (!CanGrow(s, version, wv) && LedgerRuns.Inv(s) ==> Refused(s, s', Answered(o)))
  {
    GrowForm(s, version, wv, k);
    if !CanGrow(s, version, wv) && LedgerRuns.Inv(s) {
      FailureIsIntactOrBlocks(s, GrowCall(version, wv));
    }
  }

  /** A balance event with the root of no changes grows the ledger to its versions, exactly if that can be done. */
  lemma EmptyRootGrows(s: State, finalized: Option<TwoPhase.Tree>, decode: Decoder, emptyRoot: string, version: nat, wv: nat, k: nat)
    requires Settled(s)
    ensures var (s', reply) := OnBalance(s, finalized, decode, emptyRoot, emptyRoot, version, wv);
            && (reply == Answered(Done) <==> CanGrow(s, version, wv))
            && (CanGrow(s, version, wv) ==> GrownAt(s, version, wv, s', k))
            && (!CanGrow(s, version, wv) && LedgerRuns.Inv(s) ==> Refused(s, s', reply))
  {
    GrowAnswer(s, version, wv, k);
  }

  lemma UpdateAnswer(s: State, data: RawData, version: nat, wv: nat, k: nat)
    requires Settled(s)
    ensures var (s', o) := ApplyChanges(s, data, version, wv);
            && (o.Done? <==> CanUpdate(s, data, version, wv))
            && (CanUpdate(s, data, version, wv) ==> UpdatesTo(s, s', data, version, wv, k))
            && (!CanUpdate(s, data, version, wv) && LedgerRuns.Inv(s) ==> Refused(s, s', Answered(o)))
  {
    ApplyRefines(s, data, version, wv, k);
    if !CanUpdate(s, data, version, wv) && LedgerRuns.Inv(s) {
      FailureIsIntactOrBlocks(s, UpdateCall(data, version, wv));
    }
  }

  /** One with the finalized tree's root applies this tree's changes, exactly if they can be applied. */
  lemma AgreedRootUpdates(s: State, tree: TwoPhase.Tree, decode: Decoder, emptyRoot: string, version: nat, wv: nat, k: nat)
    requires Settled(s) && tree.root != emptyRoot && decode(tree.root).Some?
    ensures var (s', reply) := OnBalance(s, Some(tree), decode, emptyRoot, tree.root, version, wv);
            var data := decode(tree.root).value;
            && (reply == Answered(Done) <==> CanUpdate(s, data, version, wv))
            && (CanUpdate(s, data, version, wv) ==> UpdatesTo(s, s', data, version, wv, k))
            && (!CanUpdate(s, data, version, wv) && LedgerRuns.Inv(s) ==> Refused(s, s', reply))
  {
    UpdateAnswer(s, decode(tree.root).value, version, wv, k);
  }

  /** Any other root is not answered and changes nothing. */
  lemma OtherRootRefused(s: State, finalized: Option<TwoPhase.Tree>, decode: Decoder, emptyRoot: string,
                         root: string, version: nat, wv: nat)
    requires root != emptyRoot && (decode(root).None? || finalized.None? || finalized.value.root != root)
    ensures OnBalance(s, finalized, decode, emptyRoot, root, version, wv) == (s, NoRawData)
  {
  }

  /** The event is the next one: its deposits are the next versions and its withdraws follow the queue. */
  ghost predicate IsNext(s: State, n: nat, e: StakerEvent) {
    && e.nextVersion == s.version + n + 1
    && (forall v :: v in e.deposits <==> e.nextVersion <= v < e.nextVersion + |e.deposits|)
    && Follows(s.queue, s.withdrawVersion, e.withdraws)
  }

  /** A staker event that does not start at version 1 is only cached: all of it exactly if it is the next one. */
  lemma LaterEventCached(s: State, n: nat, e: StakerEvent)
    requires LedgerRuns.Inv(s) && Spans(s.pending, s.version, n)
    requires e.nextVersion != 1 || |e.deposits| == 0
    ensures OnStakers(s, e) == Hand(s, e).0 && (Hand(s, e).1.Done? <==> IsNext(s, n, e))
    ensures IsNext(s, n, e) ==> OnStakers(s, e) == s.(pending := s.pending + e.deposits, queue := s.queue + e.withdraws)
  {
    CacheAccepts(s, n, e.deposits, e.nextVersion, e.withdraws);
    if Hand(s, e).1.Done? {
      CacheTakesAll(s, n, e.deposits, e.nextVersion, e.withdraws);
    }
  }

  /**
   An event that is refused changes nothing if it does not start behind the cache. Else its deposits up
   to the first missing version stay cached, and if none is missing leading ones of its withdraws.
   */
  lemma RefusedEventKept(s: State, n: nat, e: StakerEvent, v: nat) returns (k: nat)
    requires LedgerRuns.Inv(s) && Spans(s.pending, s.version, n) && Hand(s, e).1.Failed?
    ensures var s' := OnStakers(s, e);
            && s' == s.(pending := s'.pending, queue := s'.queue)
            && (e.nextVersion != s.version + n + 1 ==> s' == s)
            && (e.nextVersion == s.version + n + 1 ==>
                  CachedAt(s.pending, s'.pending, e.deposits, e.nextVersion, e.nextVersion + |e.deposits|, v))
    ensures k <= |e.withdraws| && OnStakers(s, e).queue == s.queue + e.withdraws[..k]
    ensures k > 0 ==> e.nextVersion == s.version + n + 1 && Covers(e.deposits, e.nextVersion, e.nextVersion + |e.deposits|)
  {
    CacheStages(s, n, e.deposits, e.nextVersion, e.withdraws);
    CopiedUpToGap(s.pending, e.deposits, e.nextVersion, 0, v);
    k := 0;
    assert s.queue + e.withdraws[..0] == s.queue;
    if e.nextVersion == s.version + n + 1 {
      CachedSpans(s.pending, s.version, n, e.deposits, e.nextVersion, 0);
      if CacheDeposits(s.pending, e.deposits, e.nextVersion, 0).1.Done? {
        k := QueuedPart(s.queue, s.withdrawVersion, e.withdraws);
      }
    }
  }

  // ---- Runs of events -------------------------------------------------------------------------

  datatype Event =
    | StakersEvent(e: StakerEvent)
    | BalanceEvent(finalized: Option<TwoPhase.Tree>, decode: Decoder, emptyRoot: string, root: string, version: nat, wv: nat)

  function OnEvent(s: State, e: Event): State {
    match e
    case StakersEvent(x) => OnStakers(s, x)
    case BalanceEvent(finalized, decode, emptyRoot, root, version, wv) =>
      OnBalance(s, finalized, decode, emptyRoot, root, version, wv).0
  }

  function OnEvents(s: State, events: seq<Event>): State
    decreases |events|
  {
    if events == [] then s else OnEvents(OnEvent(s, events[0]), events[1..])
  }

  lemma EventKeepsInv(s: State, e: Event)
    requires LedgerRuns.Inv(s)
    ensures LedgerRuns.Inv(OnEvent(s, e)) && OnlyGrows(s.stakers, OnEvent(s, e).stakers)
  {
    match e
    case StakersEvent(x) =>
      StepKeepsInv(s, CacheCall(x.deposits, x.nextVersion, x.withdraws));
      var s1 := Hand(s, x).0;
      CacheKeepsInv(s, x.deposits, x.nextVersion, x.withdraws);
      StepKeepsInv(s1, GrowCall(1, 0));
    case BalanceEvent(finalized, decode, emptyRoot, root, version, wv) =>
      StepKeepsInv(s, GrowCall(version, wv));
      if decode(root).Some? {
        StepKeepsInv(s, UpdateCall(decode(root).value, version, wv));
      }
  }

  lemma NewLedgerInv()
    ensures LedgerRuns.Inv(State(0, 0, map[], map[], [], map[]))
  {
    assert Spans(map[], 0, 0);
  }

  /** No sequence of events breaks what the ledger keeps. */
  lemma {:induction false} EventsKeepInv(s: State, events: seq<Event>)
    requires LedgerRuns.Inv(s)
    ensures LedgerRuns.Inv(OnEvents(s, events)) && OnlyGrows(s.stakers, OnEvents(s, events).stakers)
    decreases |events|
  {
    if events != [] {
      EventKeepsInv(s, events[0]);
      EventsKeepInv(OnEvent(s, events[0]), events[1..]);
    }
  }

  /** So it holds of whatever a new feeder's events make of its empty ledger. */
  lemma NewLedgerEvents(events: seq<Event>)
    ensures LedgerRuns.Inv(OnEvents(State(0, 0, map[], map[], [], map[]), events))
  {
    NewLedgerInv();
    EventsKeepInv(State(0, 0, map[], map[], [], map[]), events);
  }

  // ---- The first deposit ----------------------------------------------------------------------

  /** A cached event that starts at version 1 finds a ledger that was never fed and caches nothing else. */
  lemma FirstIsFirst(s: State, e: StakerEvent)
    requires LedgerRuns.Inv(s) && Hand(s, e).1.Done? && e.nextVersion == 1
    ensures s.version == 0 && s.pending == map[] && Hand(s, e).0.pending == e.deposits
    ensures |e.deposits| > 0 ==> 1 in e.deposits
  {
    var n: nat :| Spans(s.pending, s.version, n);
    CacheAccepts(s, n, e.deposits, e.nextVersion, e.withdraws);
    assert s.pending == map[];
    CacheTakesAll(s, n, e.deposits, e.nextVersion, e.withdraws);
  }

  lemma FirstRun(s: State, d: DepositRun)
    requires 1 in s.pending && s.version == 0 && d == ApplyDeposits(s.stakers, s.pending, 1, 1)
    ensures d.outcome == DepositOutcome(s.stakers, s.pending[1])
    ensures d.stakers == if d.outcome.Done? then AddDeposit(s.stakers, s.pending[1]) else s.stakers
  {
  }

  /**
   The event that brings the first deposit leaves it fed exactly when no withdraw was fed before and
   the deposit fits the known stakers; its staker is then the only one changed. Otherwise the stakers
   are as they were, and the event stays cached.
   */
  lemma FirstDepositFed(s: State, e: StakerEvent)
    requires LedgerRuns.Inv(s) && Hand(s, e).1.Done? && e.nextVersion == 1 && |e.deposits| > 0
    ensures 1 in e.deposits
    ensures var s' := OnStakers(s, e);
            if s.withdrawVersion == 0 && DepositOutcome(s.stakers, e.deposits[1]).Done?
            then s'.version == 1 && s'.stakers == AddDeposit(s.stakers, e.deposits[1]) && s'.pending == DropPending(e.deposits, 1)
            else s'.version == 0 && s'.stakers == s.stakers && s'.pending == e.deposits
  {
    FirstIsFirst(s, e);
    CacheKeepsInv(s, e.deposits, e.nextVersion, e.withdraws);
    var s1 := Hand(s, e).0;
    FirstGrow(s1);
  }

  lemma FirstGrow(s: State)
    requires Settled(s) && s.version == 0 && 1 in s.pending
    ensures Grow(s, 1, 0) ==
            if s.withdrawVersion == 0 && DepositOutcome(s.stakers, s.pending[1]).Done?
            then (State(1, 0, AddDeposit(s.stakers, s.pending[1]), DropPending(s.pending, 1), s.queue, map[]), Done)
            else (s, Grow(s, 1, 0).1)
  {
    var d := ApplyDeposits(s.stakers, s.pending, s.version + 1, 1);
    FirstRun(s, d);
    GrowByRun(s, 1, 0, d);
    if s.withdrawVersion == 0 && d.outcome.Done? {
      NothingDue(s.queue, 0);
      assert Stamp(d.stakers, []) == d.stakers;
    }
  }
}
