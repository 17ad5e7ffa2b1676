/** What the runs of `TwoPhaseRuns` mean for the chain: roots, pieces and nonces that arrive. */
module Delivery {
  import opened Prelude
  import opened TwoPhase
  import opened TwoPhaseRuns

  /** The state of a new feeder after a run of events at non-falling heights. */
  ghost predicate Reachable(c: Config, maxNonce: int, h: int, events: seq<Event>, f: Feeder)
    requires c.interval > 0
  {
    maxNonce >= 1 && Rising(h, events) && f == Run(c, NewFeeder(maxNonce), events)
  }

  lemma ReachableInv(c: Config, maxNonce: int, h: int, events: seq<Event>, f: Feeder)
    requires c.interval > 0 && Reachable(c, maxNonce, h, events, f)
    ensures Inv(c, f, LastHeight(h, events)) && f.sign.maxNonce == maxNonce
  {
    NewFeederInv(c, maxNonce, h);
    RunKeepsInv(c, NewFeeder(maxNonce), h, events);
    MaxNonceFixed(c, NewFeeder(maxNonce), events);
  }

  lemma StepMaxNonce(c: Config, f: Feeder, e: Event)
    requires c.interval > 0
    ensures Step(c, f, e).sign.maxNonce == f.sign.maxNonce
  {
    StepForm(c, f, e);
  }

  lemma {:induction false} MaxNonceFixed(c: Config, f: Feeder, events: seq<Event>)
    requires c.interval > 0
    ensures Run(c, f, events).sign.maxNonce == f.sign.maxNonce
    decreases |events|
  {
    if events != [] {
      StepMaxNonce(c, f, events[0]);
      MaxNonceFixed(c, Step(c, f, events[0]), events[1..]);
    }
  }

  // ---- First phase ----------------------------------------------------------------------------

  /** The nonces of a round's successful submissions are 1, 2, and so on. */
  ghost predicate Counted(log: seq<Msg>, round: nat) {
    forall i | 0 <= i < |OkNonces(log, round)| :: OkNonces(log, round)[i] == i + 1
  }

  /**
   The successful first-phase submissions of a round carry rising nonces within the bound: they follow
   on the ones that went to the round without any root. So they run from 1 exactly if there were none
   of these, or there is no submission.
   */
  lemma NoncesOfRound(c: Config, maxNonce: int, h: int, events: seq<Event>, f: Feeder, round: nat)
    requires c.interval > 0 && Reachable(c, maxNonce, h, events, f)
    ensures var nonces, wasted := OkNonces(f.log, round), NoRoots(f.log, round);
            && |nonces| + wasted <= maxNonce
            && (forall i | 0 <= i < |nonces| :: nonces[i] == wasted + i + 1 <= maxNonce)
    ensures Counted(f.log, round) <==> NoRoots(f.log, round) == 0 || OkNonces(f.log, round) == []
  {
    ReachableInv(c, maxNonce, h, events, f);
    assert NoncesAt(f.sign, round, OkNonces(f.log, round), NoRoots(f.log, round));
    if OkNonces(f.log, round) != [] && NoRoots(f.log, round) > 0 {
      assert OkNonces(f.log, round)[0] == NoRoots(f.log, round) + 1;
    }
  }

  /** A nonce of the round is left. */
  predicate NonceLeft(s: Sign, round: nat) {
    round > s.roundID || (round == s.roundID && s.nonce < s.maxNonce)
  }

  /**
   The event uses a nonce of the round up in vain: it is a height in the round's first three blocks
   whose price is in, no agreed tree is there, nothing is cached for the round, and the fetched price
   has no tree but is worth sending, with a nonce left.
   */
  predicate Wastes(c: Config, f: Feeder, e: Event, round: nat)
    requires c.interval > 0
  {
    && c.twoPhases && e.Height? && e.priceHeight <= f.last.height
    && CalculateRound(c, e.commit).active && CalculateRound(c, e.commit).delta < 3
    && CalculateRound(c, e.commit).roundID == round
    && Sendable(f.info, round) == NotReady && (round > f.info.roundID || f.info.cached == [])
    && e.fetch.Fetched? && e.fetch.tree.None? && WorthSending(f.last, None, e.fetch.withdrawVersion)
    && NonceLeft(f.sign, round)
  }

  /** How often a nonce of the round is used up in vain on the way. */
  function Wasted(c: Config, f: Feeder, events: seq<Event>, round: nat): nat
    requires c.interval > 0
    decreases |events|
  {
    if events == [] then 0
    else (if Wastes(c, f, events[0], round) then 1 else 0) + Wasted(c, Step(c, f, events[0]), events[1..], round)
  }

  lemma SendSecondNoRoots(c: Config, f: Feeder, oks: (bool, bool), round: nat)
    ensures NoRoots(SendSecond(c, f, oks).0.log, round) == NoRoots(f.log, round)
  {
    if c.twoPhases && Sendable(f.info, f.roundID).Pieces? && Sendable(f.info, f.roundID).indexes != [] {
      var indexes := Sendable(f.info, f.roundID).indexes;
      var f1 := SendPiece(f, indexes[0], oks.0);
      NoncesAppend(f.log, f1.log[|f.log|]);
      if oks.0 && |indexes| > 1 {
        NoncesAppend(f1.log, SendPiece(f1, indexes[1], oks.1).log[|f1.log|]);
      }
    }
  }

  lemma SubmitNoRoots(c: Config, b: Feeder, h: int, price: string, ok: bool, round: nat)
    ensures NoRoots(SubmitPhaseOne(c, b, h, price, ok).log, round) == NoRoots(b.log, round) +
            if c.twoPhases && b.info.cached == [] && NextNonce(b.sign, b.roundID).1 >= 0 && b.roundID == round then 1 else 0
  {
    var f' := SubmitPhaseOne(c, b, h, price, ok);
    if f'.log != b.log {
      NoncesAppend(b.log, f'.log[|b.log|]);
    }
  }

  /** A nonce is handed out exactly when one is left. */
  lemma LeftIsHandedOut(s: Sign, round: nat)
    requires s.maxNonce >= 1 && s.nonce >= 0
    ensures NextNonce(s, round).1 >= 0 <==> NonceLeft(s, round)
  {
  }

  /** What a first phase wastes, for a feeder with no agreed tree of the round. */
  lemma FirstPhaseNoRoots(c: Config, f: Feeder, h: int, fetch: Fetch, ok: bool, round: nat)
    requires f.sign.maxNonce >= 1 && f.sign.nonce >= 0
    requires c.twoPhases ==> InfoInv(f.info) && f.info.roundID <= f.roundID && Sendable(f.info, f.roundID) == NotReady
    ensures NoRoots(FirstPhase(c, f, h, fetch, ok).log, round) == NoRoots(f.log, round) +
            if && c.twoPhases && f.roundID == round && (round > f.info.roundID || f.info.cached == [])
               && fetch.Fetched? && fetch.tree.None? && WorthSending(f.last, None, fetch.withdrawVersion)
               && NonceLeft(f.sign, round)
            then 1 else 0
  {
    PreparedFrame(c, f, fetch);
    var b := Prepared(c, f, fetch);
    LeftIsHandedOut(f.sign, f.roundID);
    if c.twoPhases {
      PreparedRound(c, f, fetch);
      TreeIsCached(c, f, fetch);
      if fetch.Fetched? && WorthSending(f.last, fetch.tree, fetch.withdrawVersion) {
        SubmitNoRoots(c, b, h, "", ok, round);
      }
    } else {
      var price, submits := FirstPhaseForm(c, f, h, fetch, ok);
      if submits {
        SubmitNoRoots(c, b, h, price, ok, round);
      }
    }
  }

  /** Once the round is entered, something is cached if a tree was fetched or the round had some. */
  lemma TreeIsCached(c: Config, f: Feeder, fetch: Fetch)
    requires c.twoPhases && InfoInv(f.info) && f.info.roundID <= f.roundID && Sendable(f.info, f.roundID) == NotReady
    ensures Prepared(c, f, fetch).info.cached == [] <==>
              (f.roundID > f.info.roundID || f.info.cached == []) && !(fetch.Fetched? && fetch.tree.Some?)
  {
    PreparedRound(c, f, FetchFailed);
  }

  lemma SignCounts(c: Config, f: Feeder)
    requires NonceInv(c, f)
    ensures f.sign.maxNonce >= 1 && f.sign.nonce >= 0
  {
    assert NoncesAt(f.sign, f.sign.roundID, OkNonces(f.log, f.sign.roundID), NoRoots(f.log, f.sign.roundID));
  }

  lemma StartNoRoots(c: Config, f: Feeder, e: Event, round: nat)
    requires c.interval > 0
    ensures NoRoots(Start(c, f, e).log, round) == NoRoots(f.log, round) && Start(c, f, e).sign == f.sign
  {
    var s := Start(c, f, e);
    if s.log != f.log {
      NoncesAppend(f.log, s.log[|f.log|]);
    }
  }

  /** An event uses up a nonce in vain exactly when `Wastes` says so beforehand. */
  lemma WasteIsForeseen(c: Config, f: Feeder, h: int, e: Event, round: nat)
    requires c.interval > 0 && Inv(c, f, h) && After(h, e) >= h
    ensures NoRoots(Step(c, f, e).log, round) == NoRoots(f.log, round) + if Wastes(c, f, e, round) then 1 else 0
  {
    var s := Start(c, f, e);
    StepForm(c, f, e);
    StartNoRoots(c, f, e, round);
    SendSecondNoRoots(c, s, e.oks, round);
    SignCounts(c, f);
    if StartsFirst(c, f, e) {
      FirstStart(c, f, e);
      TimeLater(c, f, h, e.commit);
      FirstPhaseNoRoots(c, s, e.commit, e.fetch, e.oks.0, round);
    }
  }

  lemma {:induction false} RunWastes(c: Config, f: Feeder, h: int, events: seq<Event>, round: nat)
    requires c.interval > 0 && Inv(c, f, h) && Rising(h, events)
    ensures NoRoots(Run(c, f, events).log, round) == NoRoots(f.log, round) + Wasted(c, f, events, round)
    decreases |events|
  {
    if events != [] {
      var e := events[0];
      WasteIsForeseen(c, f, h, e, round);
      StepKeepsInv(c, f, h, e);
      RunWastes(c, Step(c, f, e), After(h, e), events[1..], round);
    }
  }

  /**
   The nonces of a round are 1, 2, and so on if and only if no event on the way used one up in vain,
   or nothing of the round was submitted; in any case the i-th one is the number of those plus i.
   */
  lemma NoncesExactly(c: Config, maxNonce: int, h: int, events: seq<Event>, f: Feeder, round: nat)
    requires c.interval > 0 && Reachable(c, maxNonce, h, events, f)
    ensures var wasted := Wasted(c, NewFeeder(maxNonce), events, round);
            && (Counted(f.log, round) <==> wasted == 0 || OkNonces(f.log, round) == [])
            && forall i | 0 <= i < |OkNonces(f.log, round)| :: OkNonces(f.log, round)[i] == wasted + i + 1
  {
    NewFeederInv(c, maxNonce, h);
    RunWastes(c, NewFeeder(maxNonce), h, events, round);
    NoncesOfRound(c, maxNonce, h, events, f, round);
  }

  /** The event's price, if it is one of the round, has a tree. */
  predicate Derives(c: Config, e: Event, round: nat)
    requires c.interval > 0
  {
    e.Height? && CalculateRound(c, e.commit).roundID == round && e.fetch.Fetched? ==> e.fetch.tree.Some?
  }

  lemma {:induction false} NothingWasted(c: Config, f: Feeder, events: seq<Event>, round: nat)
    requires c.interval > 0 && (!c.twoPhases || forall e | e in events :: Derives(c, e, round))
    ensures Wasted(c, f, events, round) == 0
    decreases |events|
  {
    if events != [] {
      assert events[0] in events;
      NothingWasted(c, Step(c, f, events[0]), events[1..], round);
    }
  }

  /** If a tree can be derived for each price of a round, its nonces are exactly 1 up to their number. */
  lemma NoncesAreCounted(c: Config, maxNonce: int, h: int, events: seq<Event>, f: Feeder, round: nat)
    requires c.interval > 0 && Reachable(c, maxNonce, h, events, f)
    requires !c.twoPhases || forall e | e in events :: Derives(c, e, round)
    ensures Counted(f.log, round)
  {
    NothingWasted(c, NewFeeder(maxNonce), events, round);
    NoncesExactly(c, maxNonce, h, events, f, round);
  }

  /** Every submission names the base block of its round, comes within three blocks, and rounds only rise. */
  lemma SubmissionsTimed(c: Config, maxNonce: int, h: int, events: seq<Event>, f: Feeder, i: nat, j: nat)
    requires c.interval > 0 && Reachable(c, maxNonce, h, events, f)
    requires i <= j < |f.log| && IsFirst(f.log[i]) && IsFirst(f.log[j])
    ensures f.log[i].round >= c.startRound
    ensures f.log[i].base == c.startBase + (f.log[i].round - c.startRound) * c.interval
    ensures 0 <= f.log[i].height - f.log[i].base < 3
    ensures f.log[i].round <= f.log[j].round
  {
    ReachableInv(c, maxNonce, h, events, f);
    BaseIs(c, f.log[i].round - c.startRound);
  }

  /**
   Any root submitted for the current round, whatever became of the submission, can still be agreed
   on: the price event that brings it finalizes a tree with that root and leaf count.
   */
  lemma SubmittedCanFinalize(c: Config, maxNonce: int, h: int, events: seq<Event>, f: Feeder, i: nat, height: int,
                             withdrawVersion: Option<nat>, oks: (bool, bool))
    requires c.interval > 0 && c.twoPhases && Reachable(c, maxNonce, h, events, f)
    requires i < |f.log| && f.log[i].PhaseOne? && f.log[i].round == f.roundID == f.info.roundID && f.info.finalized.None?
    ensures var f' := Step(c, f, Price(PriceAgreed(f.log[i].root, height, withdrawVersion), oks));
            f'.info.finalized == Some(MerkleTree(f.log[i].root, f.log[i].count))
  {
    ReachableInv(c, maxNonce, h, events, f);
    var root, count := f.log[i].root, f.log[i].count;
    var k :| 0 <= k < |f.info.cached| && f.info.cached[k].root == root && f.info.cached[k].leafCount == count;
    assert Find(f.info.cached, root) == k;
    var f1 := f.(last := Last(root, height, withdrawVersion));
    FinalizeInv(f.info, f.roundID, root);
    SendSecondInfo(c, Agreed(f1, root), oks);
  }

  /** A round is finalized at most once; after that no root of it is submitted; its pieces are of that root. */
  lemma RoundSettles(c: Config, maxNonce: int, h: int, events: seq<Event>, f: Feeder, i: nat, j: nat)
    requires c.interval > 0 && Reachable(c, maxNonce, h, events, f)
    requires i < |f.log| && j < |f.log| && f.log[i].Finalized? && f.log[j].round == f.log[i].round
    ensures f.log[j].Finalized? ==> j == i
    ensures f.log[j].PhaseOne? ==> j < i
    ensures f.log[j].Piece? ==> j > i && f.log[j].root == f.log[i].root
  {
    ReachableInv(c, maxNonce, h, events, f);
    if f.log[j].Piece? {
      assert Finalized(f.log[j].round, f.log[j].root) in f.log[..j];
      var k :| 0 <= k < j && f.log[k] == Finalized(f.log[j].round, f.log[j].root);
      assert k == i;
    }
  }

  // ---- Second phase ---------------------------------------------------------------------------

  /** Over any run the pieces submitted successfully in a round only rise: none is sent twice. */
  lemma PiecesOnlyRise(c: Config, maxNonce: int, h: int, events: seq<Event>, f: Feeder, round: nat)
    requires c.interval > 0 && Reachable(c, maxNonce, h, events, f)
    ensures Increasing(OkPieces(f.log, round))
  {
    ReachableInv(c, maxNonce, h, events, f);
  }

  /** The window over any run: two pieces past the acknowledged ones at most, and never past the tree. */
  lemma WindowKept(c: Config, maxNonce: int, h: int, events: seq<Event>, f: Feeder)
    requires c.interval > 0 && Reachable(c, maxNonce, h, events, f) && f.info.finalized.Some?
    ensures f.info.sent <= Min(f.info.next + 1, f.info.finalized.value.leafCount - 1)
    ensures f.info.next <= f.info.finalized.value.leafCount - 1
    ensures |f.info.seen| <= f.info.next && forall i | i in f.info.seen :: i < f.info.next
  {
    ReachableInv(c, maxNonce, h, events, f);
  }

  function WindowEnd(t: Info): int
    requires t.finalized.Some?
  {
    Min(t.next + 1, t.finalized.value.leafCount - 1)
  }

  /** Whatever failed before, one round of successful submissions fills the window. */
  lemma SuccessFillsWindow(c: Config, f: Feeder)
    requires c.twoPhases && InfoInv(f.info) && f.info.finalized.Some? && f.roundID == f.info.roundID
    ensures SendSecond(c, f, (true, true)).0.info == f.info.(sent := WindowEnd(f.info)) && SendSecond(c, f, (true, true)).1
  {
  }

  function UpTo(n: nat): (s: seq<nat>)
    ensures |s| == n && forall i | 0 <= i < n :: s[i] == i
  {
    seq(n, i => i)
  }

  /** Pieces delivered without a gap so far: exactly the ones up to the last sent. */
  ghost predicate Gapless(f: Feeder) {
    f.info.sent >= -1 && OkPieces(f.log, f.roundID) == UpTo(f.info.sent + 1)
  }

  /** Pieces are delivered without a gap, and none was acknowledged that was not delivered. */
  ghost predicate Delivering(c: Config, f: Feeder) {
    && c.twoPhases && InfoInv(f.info) && f.info.finalized.Some? && f.roundID == f.info.roundID
    && Gapless(f) && f.info.sent >= f.info.next - 1
  }

  /** All pieces up to the window's end are delivered, each once and in order. */
  ghost predicate CaughtUp(c: Config, f: Feeder) {
    Delivering(c, f) && f.info.sent == WindowEnd(f.info)
  }

  lemma NextPieceGapless(f: Feeder, index: nat, ok: bool)
    requires f.info.finalized.Some? && Gapless(f) && index == f.info.sent + 1
    ensures Gapless(SendPiece(f, index, ok))
  {
    OkPiecesAppend(f.log, Piece(f.roundID, index, f.info.finalized.value.root, ok));
    assert UpTo(f.info.sent + 1) + [index] == UpTo(index + 1);
  }

  /** The window starts right behind the last piece sent, if nothing undelivered was acknowledged. */
  lemma WindowFollows(t: Info, roundID: nat)
    requires InfoInv(t) && t.finalized.Some? && t.sent >= t.next - 1
    ensures var w := Sendable(t, roundID);
            w.Pieces? && w.indexes != [] ==>
              && w.indexes[0] == t.sent + 1
              && (|w.indexes| > 1 ==> |w.indexes| == 2 && w.indexes[1] == t.sent + 2)
  {
  }

  /** Whatever the submitter answers, no gap is left behind. */
  lemma SendsGapless(c: Config, f: Feeder, oks: (bool, bool))
    requires Delivering(c, f)
    ensures Gapless(SendSecond(c, f, oks).0) && SendSecond(c, f, oks).0.info.sent >= f.info.sent
  {
    WindowFollows(f.info, f.roundID);
    var w := Sendable(f.info, f.roundID);
    if w.Pieces? && w.indexes != [] {
      NextPieceGapless(f, w.indexes[0], oks.0);
      if oks.0 && |w.indexes| > 1 {
        NextPieceGapless(SendPiece(f, w.indexes[0], true), w.indexes[1], oks.1);
      }
    }
  }

  /** Submissions keep the delivery going, and successful ones catch up whatever failed before. */
  lemma SendsDeliver(c: Config, f: Feeder, oks: (bool, bool))
    requires Delivering(c, f)
    ensures var f' := SendSecond(c, f, oks).0;
            && Delivering(c, f') && (oks == (true, true) ==> CaughtUp(c, f'))
            && f'.info == f.info.(sent := f'.info.sent) && f'.roundID == f.roundID
  {
    SendSecondInfo(c, f, oks);
    SendsGapless(c, f, oks);
    SuccessFillsWindow(c, f);
  }

  predicate StaysInRound(c: Config, f: Feeder, e: Event)
    requires c.interval > 0
  {
    e.Height? ==> e.priceHeight > f.last.height || (CalculateRound(c, e.commit).active && CalculateRound(c, e.commit).roundID == f.roundID)
  }

  /** The round goes on, with acknowledgements in order of pieces that were sent; sends may fail. */
  predicate GoesOn(c: Config, f: Feeder, e: Event)
    requires c.interval > 0
  {
    StaysInRound(c, f, e) && (e.PieceAck? ==> e.index == f.info.next <= f.info.sent)
  }

  /** The event makes the feeder submit what the window allows. */
  predicate Submits(f: Feeder, e: Event) {
    match e
    case Height(_, priceHeight, _, _) => priceHeight <= f.last.height
    case Price(update, _) => update.PriceAgreed?
    case PieceAck(_, _) => true
  }

  /** Before its submissions an event leaves the delivery going, at the same round and tree. */
  lemma StartDelivers(c: Config, f: Feeder, e: Event)
    requires c.interval > 0 && Delivering(c, f) && GoesOn(c, f, e) && Submits(f, e)
    ensures var s := Start(c, f, e);
            && Delivering(c, s) && s.info.finalized == f.info.finalized && s.roundID == f.roundID
            && s.info.next == if e.PieceAck? && !AtLast(f.info) && e.index !in f.info.seen then f.info.next + 1 else f.info.next
  {
    if e.PieceAck? {
      AcknowledgeInv(f.info, e.index);
    }
  }

  /** A feeder that delivers answers such an event by submitting what the window allows. */
  lemma StepSubmits(c: Config, f: Feeder, e: Event)
    requires c.interval > 0 && Delivering(c, f) && GoesOn(c, f, e) && Submits(f, e)
    ensures Step(c, f, e) == SendSecond(c, Start(c, f, e), e.oks).0
  {
    StartDelivers(c, f, e);
    FinalizedIsReady(Start(c, f, e).info);
  }

  lemma StepDelivers(c: Config, f: Feeder, e: Event)
    requires c.interval > 0 && Delivering(c, f) && GoesOn(c, f, e)
    ensures var f' := Step(c, f, e);
            && Delivering(c, f') && f'.roundID == f.roundID && f'.info.finalized == f.info.finalized
            && (Submits(f, e) && e.oks == (true, true) ==> CaughtUp(c, f'))
            && (CaughtUp(c, f) && e.oks == (true, true) ==> CaughtUp(c, f'))
            && f'.info.next == if e.PieceAck? && !AtLast(f.info) && e.index !in f.info.seen then f.info.next + 1 else f.info.next
  {
    if Submits(f, e) {
      StartDelivers(c, f, e);
      StepSubmits(c, f, e);
      SendsDeliver(c, Start(c, f, e), e.oks);
    }
  }

  predicate AllGoOn(c: Config, f: Feeder, events: seq<Event>)
    requires c.interval > 0
    decreases |events|
  {
    events == [] || (GoesOn(c, f, events[0]) && AllGoOn(c, Step(c, f, events[0]), events[1..]))
  }

  lemma {:induction false} RunDelivers(c: Config, f: Feeder, events: seq<Event>)
    requires c.interval > 0 && Delivering(c, f) && AllGoOn(c, f, events)
    ensures var f' := Run(c, f, events); Delivering(c, f') && f'.roundID == f.roundID && f'.info.finalized == f.info.finalized
    decreases |events|
  {
    if events != [] {
      StepDelivers(c, f, events[0]);
      RunDelivers(c, Step(c, f, events[0]), events[1..]);
    }
  }

  /** Events of a chain that works: heights of the round, acknowledgements in order, sends that succeed. */
  predicate GoesWell(c: Config, f: Feeder, e: Event)
    requires c.interval > 0
  {
    e.oks == (true, true) && StaysInRound(c, f, e) && (e.PieceAck? ==> e.index == f.info.next)
  }

  lemma StaysCaughtUp(c: Config, f: Feeder, e: Event)
    requires c.interval > 0 && CaughtUp(c, f) && GoesWell(c, f, e)
    ensures CaughtUp(c, Step(c, f, e))
    ensures var f' := Step(c, f, e);
            && f'.roundID == f.roundID && f'.info.finalized == f.info.finalized
            && f'.info.next == if e.PieceAck? && !AtLast(f.info) && e.index !in f.info.seen then f.info.next + 1 else f.info.next
  {
    StepDelivers(c, f, e);
  }

  predicate AllGoWell(c: Config, f: Feeder, events: seq<Event>)
    requires c.interval > 0
    decreases |events|
  {
    events == [] || (GoesWell(c, f, events[0]) && AllGoWell(c, Step(c, f, events[0]), events[1..]))
  }

  lemma {:induction false} RunStaysCaughtUp(c: Config, f: Feeder, events: seq<Event>)
    requires c.interval > 0 && CaughtUp(c, f) && AllGoWell(c, f, events)
    ensures var f' := Run(c, f, events); CaughtUp(c, f') && f'.roundID == f.roundID && f'.info.finalized == f.info.finalized
    decreases |events|
  {
    if events != [] {
      StaysCaughtUp(c, f, events[0]);
      RunStaysCaughtUp(c, Step(c, f, events[0]), events[1..]);
    }
  }

  lemma NothingSentYet(f: Feeder)
    requires PiecesInv(f) && f.info.sent == -1
    ensures OkPieces(f.log, f.info.roundID) == []
  {
    assert PiecesAt(f.info, f.info.roundID, OkPieces(f.log, f.info.roundID));
  }

  lemma AgreedInfo(f: Feeder, root: string)
    requires InfoInv(f.info)
    requires f.roundID == f.info.roundID && f.info.finalized.None? && Find(f.info.cached, root) < |f.info.cached|
    ensures var t := Agreed(f, root).info;
            && InfoInv(t) && t.finalized.Some? && t.finalized.value.root == root
            && t.roundID == f.info.roundID && t.next == 0 && t.sent == -1
    ensures Agreed(f, root).log == f.log + [Finalized(f.roundID, root)]
  {
  }

  /** The agreed root of a cached tree arrives: its pieces are still to come. */
  lemma AgreementIsGapless(f: Feeder, root: string)
    requires InfoInv(f.info) && PiecesInv(f)
    requires f.roundID == f.info.roundID && f.info.finalized.None? && Find(f.info.cached, root) < |f.info.cached|
    ensures var s := Agreed(f, root);
            && InfoInv(s.info) && s.info.finalized.Some? && s.info.finalized.value.root == root
            && s.roundID == s.info.roundID == f.roundID && s.info.next == 0 && s.info.sent == -1 && Gapless(s)
  {
    NothingSentYet(f);
    AgreedInfo(f, root);
    OkPiecesAppend(f.log, Finalized(f.roundID, root));
  }

  /** The agreed root of a cached tree arrives and the first pieces are submitted, with success or not. */
  lemma AgreementDelivers(c: Config, f: Feeder, h: int, root: string, height: int, withdrawVersion: Option<nat>, oks: (bool, bool))
    requires c.interval > 0 && c.twoPhases && Inv(c, f, h)
    requires f.roundID == f.info.roundID && f.info.finalized.None? && Find(f.info.cached, root) < |f.info.cached|
    ensures var f' := Step(c, f, Price(PriceAgreed(root, height, withdrawVersion), oks));
            && Delivering(c, f') && (oks == (true, true) ==> CaughtUp(c, f'))
            && f'.info.next == 0 && f'.info.finalized.value.root == root && f'.roundID == f.roundID
  {
    var f1 := f.(last := Last(root, height, withdrawVersion));
    AgreementIsGapless(f1, root);
    SendsDeliver(c, Agreed(f1, root), oks);
  }

  /** What is to be shown of a delivery: exactly the window is sent, and the whole tree when it reaches the end. */
  ghost predicate Delivered(f: Feeder, round: nat, root: string) {
    && f.info.finalized.Some? && f.info.finalized.value.root == root
    && OkPieces(f.log, round) == UpTo(WindowEnd(f.info) + 1)
    && (AtLast(f.info) ==> OkPieces(f.log, round) == UpTo(f.info.finalized.value.leafCount))
  }

  lemma CaughtUpIsDelivered(c: Config, f: Feeder, round: nat, root: string)
    requires CaughtUp(c, f) && f.roundID == round && f.info.finalized.value.root == root
    ensures Delivered(f, round, root)
  {
  }

  /**
   Complete delivery: from the agreement on a cached root, through any events of a chain that works,
   the round's successfully sent pieces are exactly the first ones up to the window's end; once all
   pieces before the last are acknowledged they are all the pieces of the tree.
   */
  lemma CompleteDelivery(c: Config, f: Feeder, h: int, root: string, height: int, withdrawVersion: Option<nat>, events: seq<Event>)
    requires c.interval > 0 && c.twoPhases && Inv(c, f, h)
    requires f.roundID == f.info.roundID && f.info.finalized.None? && Find(f.info.cached, root) < |f.info.cached|
    requires AllGoWell(c, Step(c, f, Price(PriceAgreed(root, height, withdrawVersion), (true, true))), events)
    ensures Delivered(Run(c, Step(c, f, Price(PriceAgreed(root, height, withdrawVersion), (true, true))), events), f.roundID, root)
  {
    var f1 := Step(c, f, Price(PriceAgreed(root, height, withdrawVersion), (true, true)));
    AgreementDelivers(c, f, h, root, height, withdrawVersion, (true, true));
    RunStaysCaughtUp(c, f1, events);
    CaughtUpIsDelivered(c, Run(c, f1, events), f.roundID, root);
  }

  /**
   Failures only delay it: whatever sends fail from the agreement on, while the round goes on, one
   event that submits with success completes the window.
   */
  lemma DeliveryDespiteFailures(c: Config, f: Feeder, h: int, root: string, height: int, withdrawVersion: Option<nat>,
                                oks: (bool, bool), events: seq<Event>, last: Event)
    requires c.interval > 0 && c.twoPhases && Inv(c, f, h)
    requires f.roundID == f.info.roundID && f.info.finalized.None? && Find(f.info.cached, root) < |f.info.cached|
    requires AllGoOn(c, Step(c, f, Price(PriceAgreed(root, height, withdrawVersion), oks)), events)
    requires var g := Run(c, Step(c, f, Price(PriceAgreed(root, height, withdrawVersion), oks)), events);
             GoesOn(c, g, last) && Submits(g, last) && last.oks == (true, true)
    ensures var g := Run(c, Step(c, f, Price(PriceAgreed(root, height, withdrawVersion), oks)), events);
            Delivered(Step(c, g, last), f.roundID, root)
  {
    var f1 := Step(c, f, Price(PriceAgreed(root, height, withdrawVersion), oks));
    AgreementDelivers(c, f, h, root, height, withdrawVersion, oks);
    RunDelivers(c, f1, events);
    StepDelivers(c, Run(c, f1, events), last);
    CaughtUpIsDelivered(c, Step(c, Run(c, f1, events), last), f.roundID, root);
  }

  /** Acknowledgements of pieces `from .. to - 1`, one after the other. */
  function Acks(from: nat, to: nat): seq<Event>
    requires from <= to
  {
    seq(to - from, i requires 0 <= i < to - from => PieceAck(from + i, (true, true)))
  }

  /** In-order acknowledgements of all pieces but the last see the whole tree delivered. */
  lemma {:induction false} InOrderAcksDeliver(c: Config, f: Feeder)
    requires c.interval > 0 && CaughtUp(c, f) && forall i | i in f.info.seen :: i < f.info.next
    ensures var leaves := f.info.finalized.value.leafCount;
            OkPieces(Run(c, f, Acks(f.info.next, leaves - 1)).log, f.roundID) == UpTo(leaves)
    decreases f.info.finalized.value.leafCount - f.info.next
  {
    var leaves := f.info.finalized.value.leafCount;
    var acks := Acks(f.info.next, leaves - 1);
    if f.info.next < leaves - 1 {
      assert acks[0] == PieceAck(f.info.next, (true, true));
      StaysCaughtUp(c, f, acks[0]);
      var f1 := Step(c, f, acks[0]);
      assert acks[1..] == Acks(f1.info.next, leaves - 1);
      InOrderAcksDeliver(c, f1);
    }
  }
}
