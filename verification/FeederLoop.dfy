/**
 The feeder as the source keeps it: objects updated in place by the cases of one event loop. Each
 method is proved to take the feeder's value where the functions of `TwoPhase` take it.
 */
module FeederLoop {
  import opened Prelude
  import opened DecimalScale
  import opened TwoPhase
  import opened TwoPhaseRuns
  import opened Submissions

  class SignInfo {
    var maxNonce: int
    var roundID: nat
    var nonce: int

    ghost function Value(): Sign
      reads this
    {
      Sign(maxNonce, roundID, nonce)
    }

    constructor (maxNonce: int)
      ensures Value() == Sign(maxNonce, 0, 0)
    {
      this.maxNonce, roundID, nonce := maxNonce, 0, 0;
    }

    method GetNextNonceAndUpdate(round: nat) returns (next: int)
      modifies this
      ensures (Value(), next) == NextNonce(old(Value()), round)
      ensures maxNonce >= 1 && old(nonce) <= maxNonce ==> nonce <= maxNonce && next <= maxNonce
      ensures next >= 0 ==> roundID == round && next == nonce && (round > old(roundID) || next == old(nonce) + 1)
    {
      if round < roundID {
        return -1;
      } else if round > roundID {
        roundID := round;
        nonce := 1;
        return 1;
      }
      nonce := nonce + 1;
      if nonce > maxNonce {
        nonce := maxNonce;
        return -1;
      }
      return nonce;
    }

    method RevertNonce(round: nat)
      modifies this
      ensures Value() == TwoPhase.RevertNonce(old(Value()), round)
      ensures round != old(roundID) ==> Value() == old(Value())
    {
      if roundID == round && nonce > 0 {
        nonce := nonce - 1;
      }
    }
  }

  lemma FindIs(cached: seq<Tree>, root: string, i: nat)
    requires i <= |cached| && (i < |cached| ==> cached[i].root == root)
    requires forall j | 0 <= j < i :: cached[j].root != root
    ensures Find(cached, root) == i
  {
  }

  class TwoPhasesInfo {
    var roundID: nat
    var cachedTree: seq<Tree>
    var finalizedTree: Option<Tree>
    var sentLatestPieceIndex: int
    var nextPieceIndex: nat
    var seenIndex: set<nat>

    ghost function Value(): Info
      reads this
    {
      Info(roundID, cachedTree, finalizedTree, sentLatestPieceIndex, nextPieceIndex, seenIndex)
    }

    constructor ()
      ensures Value() == NewInfo
    {
      roundID, cachedTree, finalizedTree := 0, [], None;
      sentLatestPieceIndex, nextPieceIndex, seenIndex := -1, 0, {};
    }

    method AddMT(round: nat, mt: Tree) returns (added: bool)
      modifies this
      ensures Value() == AddTree(old(Value()), round, mt)
      ensures added <==> Value() != old(Value())
      ensures old(DistinctRoots(cachedTree)) ==> DistinctRoots(cachedTree)
    {
      if round < roundID {
        return false;
      }
      if round > roundID {
        roundID, cachedTree, finalizedTree := round, [mt], None;
        return true;
      }
      if finalizedTree.Some? {
        return false;
      }
      var i := 0;
      while i < |cachedTree|
        invariant i <= |cachedTree|
        invariant forall j | 0 <= j < i :: cachedTree[j].root != mt.root
      {
        if cachedTree[i].root == mt.root {
          FindIs(cachedTree, mt.root, i);
          return false;
        }
        i := i + 1;
      }
      FindIs(cachedTree, mt.root, i);
      cachedTree := cachedTree + [mt];
      return true;
    }

    method ResetFinalize()
      modifies this
      ensures Value() == TwoPhase.ResetFinalize(old(Value()))
    {
      finalizedTree := None;
      sentLatestPieceIndex, nextPieceIndex, seenIndex := -1, 0, {};
    }

    method FinalizeRawData(round: nat, root: string) returns (done: bool)
      modifies this
      ensures Value() == Finalize(old(Value()), round, root)
      ensures done <==> old(finalizedTree).None? && finalizedTree.Some?
      ensures done ==> finalizedTree.value in old(cachedTree) && finalizedTree.value.root == root
      ensures old(InfoInv(Value())) ==> InfoInv(Value())
    {
      if round != roundID || finalizedTree.Some? {
        return false;
      }
      var i := 0;
      while i < |cachedTree|
        invariant i <= |cachedTree|
        invariant forall j | 0 <= j < i :: cachedTree[j].root != root
      {
        if cachedTree[i].root == root {
          FindIs(cachedTree, root, i);
          var mt := cachedTree[i];
          ResetFinalize();
          finalizedTree, cachedTree := Some(mt), [];
          return true;
        }
        i := i + 1;
      }
      FindIs(cachedTree, root, i);
      ResetFinalize();
      return false;
    }

    method SetRoundID(round: nat) returns (moved: bool)
      modifies this
      ensures Value() == SetRound(old(Value()), round) && (moved <==> round > old(roundID))
    {
      if round > roundID {
        roundID, cachedTree := round, [];
        ResetFinalize();
        return true;
      }
      return false;
    }

    method UpdateNSTPieceIndex(index: nat) returns (taken: bool)
      modifies this
      ensures (Value(), taken) == Acknowledge(old(Value()), index)
      ensures old(InfoInv(Value())) ==> InfoInv(Value())
      ensures old(InfoInv(Value())) && taken ==> index !in old(seenIndex) && old(nextPieceIndex) < nextPieceIndex && index < nextPieceIndex
      ensures taken ==> nextPieceIndex == (if index > old(nextPieceIndex) then index else old(nextPieceIndex)) + 1
      ensures taken <==> finalizedTree.Some? && index !in old(seenIndex)
                         && old(nextPieceIndex) < finalizedTree.value.leafCount - 1 && index < finalizedTree.value.leafCount - 1
    {
      if finalizedTree.None? || nextPieceIndex >= finalizedTree.value.leafCount - 1 || index in seenIndex {
        return false;
      }
      if index <= nextPieceIndex {
        nextPieceIndex := nextPieceIndex + 1;
        seenIndex := seenIndex + {index};
        return true;
      }
      if index < finalizedTree.value.leafCount - 1 {
        nextPieceIndex := index + 1;
        seenIndex := seenIndex + {index};
        return true;
      }
      return false;
    }

    method NextSendablePieces(round: nat) returns (window: Window)
      ensures window == Sendable(Value(), round)
      ensures InfoInv(Value()) && window.Pieces? ==>
                (forall i | 0 <= i < |window.indexes| :: sentLatestPieceIndex < window.indexes[i] < finalizedTree.value.leafCount)
    {
      if roundID != round || finalizedTree.None? {
        return NotReady;
      }
      var leaves := finalizedTree.value.leafCount;
      if nextPieceIndex < sentLatestPieceIndex {
        return Nothing;
      }
      var last := nextPieceIndex >= leaves - 1;
      var pieces := [];
      if nextPieceIndex > sentLatestPieceIndex {
        if nextPieceIndex >= leaves {
          return NotReady;
        }
        pieces := [nextPieceIndex];
        if last {
          return Pieces(pieces);
        }
      }
      if last {
        return Nothing;
      }
      if nextPieceIndex + 1 < leaves {
        pieces := pieces + [nextPieceIndex + 1];
      }
      return Pieces(pieces);
    }
  }

  lemma SendSecondKeeps(c: Config, f: Feeder, oks: (bool, bool))
    ensures var f' := SendSecond(c, f, oks).0; InfoInv(f.info) && PiecesInv(f) ==> InfoInv(f'.info) && PiecesInv(f')
  {
    if InfoInv(f.info) && PiecesInv(f) {
      SendSecondInfo(c, f, oks);
      SendSecondPieces(c, f, oks);
    }
  }

  /** What held of the feeder at height `h` still holds after the event. */
  lemma EventKeeps(c: Config, f: Feeder, f': Feeder, e: Event)
    requires c.interval > 0 && f' == Step(c, f, e)
    ensures forall h | Inv(c, f, h) && After(h, e) >= h :: Inv(c, f', After(h, e))
  {
    forall h | Inv(c, f, h) && After(h, e) >= h
      ensures Inv(c, f', After(h, e))
    {
      StepKeepsInv(c, f, h, e);
    }
  }

  class FeederRoutine {
    const config: Config
    const twoPhasesInfo: TwoPhasesInfo?
    const lastSent: SignInfo
    var roundID: nat
    var baseBlock: nat
    var lastPrice: Last
    ghost var log: seq<Msg>

    ghost predicate Valid() {
      config.interval > 0 && (config.twoPhases <==> twoPhasesInfo != null)
    }

    ghost function Value(): Feeder
      reads this, twoPhasesInfo, lastSent
    {
      Feeder(roundID, baseBlock, if twoPhasesInfo == null then NewInfo else twoPhasesInfo.Value(), lastSent.Value(), lastPrice, log)
    }

    constructor (config: Config, maxNonce: int)
      requires config.interval > 0
      ensures Valid() && Value() == NewFeeder(maxNonce) && this.config == config
      ensures fresh(lastSent) && (twoPhasesInfo != null ==> fresh(twoPhasesInfo))
    {
      this.config := config;
      lastSent := new SignInfo(maxNonce);
      if config.twoPhases {
        twoPhasesInfo := new TwoPhasesInfo();
      } else {
        twoPhasesInfo := null;
      }
      roundID, baseBlock, lastPrice, log := 0, 0, NoLast, [];
    }

    /** Submits one piece; the answer of the submitter is `ok`. */
    method SubmitPiece(index: nat, ok: bool)
      requires Valid() && config.twoPhases && twoPhasesInfo.finalizedTree.Some?
      modifies this`log, twoPhasesInfo
      ensures Value() == old(SendPiece(Value(), index, ok))
    {
      var previous := twoPhasesInfo.sentLatestPieceIndex;
      twoPhasesInfo.sentLatestPieceIndex := index;
      log := log + [Piece(roundID, index, twoPhasesInfo.finalizedTree.value.root, ok)];
      if !ok {
        twoPhasesInfo.sentLatestPieceIndex := previous;
      }
    }

    method Send2ndPhaseTx(oks: (bool, bool)) returns (second: bool)
      requires Valid()
      modifies this`log, twoPhasesInfo
      ensures (Value(), second) == old(SendSecond(config, Value(), oks))
      ensures old(InfoInv(Value().info) && PiecesInv(Value())) ==> InfoInv(Value().info) && PiecesInv(Value())
    {
      SendSecondKeeps(config, Value(), oks);
      if twoPhasesInfo == null {
        return false;
      }
      var window := twoPhasesInfo.NextSendablePieces(roundID);
      match window
      case NotReady => return false;
      case Nothing => return true;
      case Pieces(indexes) =>
        ghost var f := Value();
        var i := 0;
        while i < |indexes|
          invariant i <= |indexes| <= 2 && f.info.finalized.Some? && twoPhasesInfo.finalizedTree == f.info.finalized
          invariant Value() == if i == 0 then f
                               else if i == 1 then SendPiece(f, indexes[0], true)
                               else SendPiece(SendPiece(f, indexes[0], true), indexes[1], true)
          invariant i > 0 ==> oks.0
          invariant i > 1 ==> oks.1
        {
          var ok := if i == 0 then oks.0 else oks.1;
          SubmitPiece(indexes[i], ok);
          if !ok {
            break;
          }
          i := i + 1;
        }
        return true;
    }

    /** The end of the first phase: take a nonce, submit, and give the nonce back on failure. */
    method Submit(height: int, price: string, ok: bool)
      requires Valid()
      modifies this`log, lastSent
      ensures Value() == old(SubmitPhaseOne(config, Value(), height, price, ok))
      ensures old(log) <= log && |log| <= |old(log)| + 1
      ensures |log| > |old(log)| && log[|old(log)|].PhaseOne? ==>
                var tree := twoPhasesInfo.cachedTree[|twoPhasesInfo.cachedTree| - 1];
                log[|old(log)|].root == tree.root && log[|old(log)|].count == tree.leafCount
    {
      var nonce := lastSent.GetNextNonceAndUpdate(roundID);
      if nonce < 0 {
        return;
      }
      if twoPhasesInfo != null {
        if |twoPhasesInfo.cachedTree| == 0 {
          log := log + [NoRoot(roundID)];
          return;
        }
        var tree := twoPhasesInfo.cachedTree[|twoPhasesInfo.cachedTree| - 1];
        log := log + [PhaseOne(roundID, baseBlock, height, nonce, tree.root, tree.leafCount, ok)];
      } else {
        log := log + [Single(roundID, baseBlock, height, nonce, price, ok)];
      }
      if !ok {
        lastSent.RevertNonce(roundID);
      }
    }

    /** The first phase of a two-phase feeder once a price is fetched. */
    method OfferFetchedTree(height: int, tree: Option<Tree>, withdrawVersion: Option<nat>, ok: bool)
      requires Valid() && config.twoPhases
      modifies this`log, lastSent, twoPhasesInfo
      ensures Value() == old(OfferTree(config, Value(), height, tree, withdrawVersion, ok))
    {
      if tree.Some? {
        var _ := twoPhasesInfo.AddMT(roundID, tree.value);
      }
      if |lastPrice.price| > 0 {
        if withdrawVersion.None? || lastPrice.withdrawVersion.None? {
          return;
        }
        if tree.Some? && tree.value.root == lastPrice.price && withdrawVersion.value <= lastPrice.withdrawVersion.value {
          return;
        }
      }
      Submit(height, "", ok);
    }

    method SubmitFirstPhase(height: int, fetch: Fetch, ok: bool)
      requires Valid()
      modifies this`log, lastSent, twoPhasesInfo
      ensures Value() == old(FirstPhase(config, Value(), height, fetch, ok))
    {
      if twoPhasesInfo != null {
        var _ := twoPhasesInfo.SetRoundID(roundID);
      }
      if !fetch.Fetched? {
        return;
      }
      if config.twoPhases {
        OfferFetchedTree(height, fetch.tree, fetch.withdrawVersion, ok);
      } else {
        var price := fetch.price;
        if fetch.decimal != config.decimal {
          price := ConvertDecimal(price, fetch.decimal, config.decimal);
        }
        if price != lastPrice.price {
          Submit(height, price, ok);
        }
      }
    }

    /** The event loop's case for a new height. */
    method HandleHeight(commit: int, priceHeight: int, fetch: Fetch, oks: (bool, bool))
      requires Valid()
      modifies this, lastSent, twoPhasesInfo
      ensures Value() == old(Step(config, Value(), Height(commit, priceHeight, fetch, oks)))
      ensures forall h | old(Inv(config, Value(), h)) && commit >= h :: Inv(config, Value(), commit)
    {
      ghost var e := Height(commit, priceHeight, fetch, oks);
      EventKeeps(config, Value(), Step(config, Value(), e), e);
      if priceHeight > lastPrice.height {
        return;
      }
      var round := CalculateRound(config, commit);
      roundID, baseBlock := round.roundID, round.base;
      if !round.active {
        return;
      }
      var second := Send2ndPhaseTx(oks);
      if !second && round.delta < 3 {
        SubmitFirstPhase(commit, fetch, oks.0);
      }
    }

    /** The event loop's case for an agreed price, or for one to forget. */
    method HandlePrice(update: PriceUpdate, oks: (bool, bool))
      requires Valid()
      modifies this, lastSent, twoPhasesInfo
      ensures Value() == old(Step(config, Value(), Price(update, oks)))
      ensures forall h | old(Inv(config, Value(), h)) :: Inv(config, Value(), h)
    {
      EventKeeps(config, Value(), Step(config, Value(), Price(update, oks)), Price(update, oks));
      match update
      case PriceReset =>
        lastPrice := NoLast;
      case PriceUnreadable =>
      case PriceAgreed(price, height, withdrawVersion) =>
        lastPrice := Last(price, height, withdrawVersion);
        if twoPhasesInfo != null {
          var done := twoPhasesInfo.FinalizeRawData(roundID, price);
          if done {
            log := log + [Finalized(roundID, twoPhasesInfo.finalizedTree.value.root)];
          }
          var _ := Send2ndPhaseTx(oks);
        }
    }

    /** The event loop's case for an acknowledged piece. */
    method HandlePiece(index: nat, oks: (bool, bool)) returns (taken: bool)
      requires Valid()
      modifies this, lastSent, twoPhasesInfo
      ensures Value() == old(Step(config, Value(), PieceAck(index, oks)))
      ensures forall h | old(Inv(config, Value(), h)) :: Inv(config, Value(), h)
      ensures taken <==> config.twoPhases && old(Acknowledge(Value().info, index).1)
    {
      EventKeeps(config, Value(), Step(config, Value(), PieceAck(index, oks)), PieceAck(index, oks));
      if twoPhasesInfo == null {
        return false;
      }
      taken := twoPhasesInfo.UpdateNSTPieceIndex(index);
      var _ := Send2ndPhaseTx(oks);
    }
  }
}
