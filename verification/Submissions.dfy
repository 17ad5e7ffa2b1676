/**
 What an event makes a feeder submit in the first phase, said of the state and the event before it:
 which message exactly, and that there is no other.
 */
module Submissions {
  import opened Prelude
  import opened DecimalScale
  import opened TwoPhase
  import opened TwoPhaseRuns
  import opened Delivery

  // ---- When the first phase is open -----------------------------------------------------------

  /** A feeder is active from its start block on, to its end block if it has one. */
  lemma ActiveFromStartToEnd(c: Config, h: int)
    requires c.interval > 0
    ensures CalculateRound(c, h).active <==> c.startBase <= h && (c.endBlock == 0 || h <= c.endBlock)
    ensures !CalculateRound(c, h).active ==> CalculateRound(c, h).roundID == 0 && CalculateRound(c, h).base == 0
  {
  }

  /** The event is a height in the first blocks of a round whose price is in and whose root is not agreed. */
  predicate Opens(c: Config, f: Feeder, e: Event)
    requires c.interval > 0
  {
    && e.Height? && e.priceHeight <= f.last.height
    && CalculateRound(c, e.commit).active && CalculateRound(c, e.commit).delta < 3
    && (c.twoPhases ==> f.info.roundID != CalculateRound(c, e.commit).roundID || f.info.finalized.None?)
  }

  /** The first phase starts exactly if it is open. */
  lemma OpensIffStarts(c: Config, f: Feeder, e: Event)
    requires c.interval > 0 && InfoInv(f.info)
    ensures Opens(c, f, e) <==> StartsFirst(c, f, e)
  {
    if c.twoPhases && e.Height? && f.info.roundID == CalculateRound(c, e.commit).roundID && f.info.finalized.Some? {
      FinalizedIsReady(f.info);
    }
  }

  // ---- Two-phase feeders ----------------------------------------------------------------------

  /** No price was agreed on yet, or the tree has another root than the last one, or a withdraw came since. */
  predicate RootIsNews(last: Last, tree: Option<Tree>, withdrawVersion: Option<nat>) {
    || last.price == ""
    || (withdrawVersion.Some? && last.withdrawVersion.Some?
        && (tree.None? || tree.value.root != last.price || withdrawVersion.value > last.withdrawVersion.value))
  }

  predicate HasNoRoot(cached: seq<Tree>, root: string) {
    forall k | 0 <= k < |cached| :: cached[k].root != root
  }

  /** The trees cached for a round once a price of it is fetched: a new root comes last. */
  function CachedFor(t: Info, round: nat, tree: Option<Tree>): seq<Tree> {
    var before := if round > t.roundID then [] else t.cached;
    if tree.Some? && HasNoRoot(before, tree.value.root) then before + [tree.value] else before
  }

  lemma PreparedCaches(c: Config, s: Feeder, fetch: Fetch)
    requires c.twoPhases && InfoInv(s.info) && s.info.roundID <= s.roundID && Sendable(s.info, s.roundID) == NotReady
    ensures Prepared(c, s, fetch).info.cached == CachedFor(s.info, s.roundID, if fetch.Fetched? then fetch.tree else None)
  {
    PreparedRound(c, s, FetchFailed);
    var t := EnterRound(c, s).info;
    if fetch.Fetched? && fetch.tree.Some? {
      assert HasNoRoot(t.cached, fetch.tree.value.root) <==> Find(t.cached, fetch.tree.value.root) == |t.cached|;
    }
  }

  lemma OffersNews(c: Config, s: Feeder, h: int, fetch: Fetch, ok: bool)
    requires c.twoPhases
    ensures FirstPhase(c, s, h, fetch, ok) ==
            if fetch.Fetched? && RootIsNews(s.last, fetch.tree, fetch.withdrawVersion)
            then SubmitPhaseOne(c, Prepared(c, s, fetch), h, "", ok) else Prepared(c, s, fetch)
  {
    PreparedFrame(c, s, fetch);
  }

  /** The first-phase message of a round: the root of the last cached tree under the round's next nonce. */
  function RootMsg(f: Feeder, r: Round, h: int, cached: seq<Tree>, ok: bool): Msg {
    if cached == [] then NoRoot(r.roundID)
    else
      var tree := cached[|cached| - 1];
      PhaseOne(r.roundID, r.base, h, |OkNonces(f.log, r.roundID)| + NoRoots(f.log, r.roundID) + 1, tree.root, tree.leafCount, ok)
  }

  lemma SubmitsRoot(c: Config, f: Feeder, b: Feeder, r: Round, h: int, ok: bool)
    requires c.twoPhases && NonceInv(c, f) && b.sign == f.sign && b.log == f.log
    requires b.roundID == r.roundID && b.baseBlock == r.base
    ensures SubmitPhaseOne(c, b, h, "", ok).log ==
            if NonceLeft(f.sign, r.roundID) then f.log + [RootMsg(f, r, h, b.info.cached, ok)] else f.log
    ensures SubmitPhaseOne(c, b, h, "", ok).info == b.info
  {
    SignCounts(c, f);
    LeftIsHandedOut(f.sign, r.roundID);
    NextNonceExtends(f.sign, r.roundID, OkNonces(f.log, r.roundID), NoRoots(f.log, r.roundID));
  }

  /** The trees and the log after an event that opens the first phase. */
  predicate Submitted(c: Config, f: Feeder, e: Event, f': Feeder)
    requires c.interval > 0 && e.Height?
  {
    var r := CalculateRound(c, e.commit);
    && f'.info.cached == CachedFor(f.info, r.roundID, if e.fetch.Fetched? then e.fetch.tree else None)
    && f'.info.roundID == r.roundID && f'.info.finalized == None
    && f'.log ==
       if e.fetch.Fetched? && RootIsNews(f.last, e.fetch.tree, e.fetch.withdrawVersion) && NonceLeft(f.sign, r.roundID)
       then f.log + [RootMsg(f, r, e.commit, f'.info.cached, e.oks.0)] else f.log
  }

  lemma OpenRound(c: Config, f: Feeder, h: int, e: Event)
    requires c.interval > 0 && c.twoPhases && Inv(c, f, h) && After(h, e) >= h && Opens(c, f, e)
    ensures var r := CalculateRound(c, e.commit);
            && f.info.roundID <= r.roundID && Sendable(f.info, r.roundID) == NotReady
            && Step(c, f, e) == FirstPhase(c, f.(roundID := r.roundID, baseBlock := r.base), e.commit, e.fetch, e.oks.0)
  {
    OpensIffStarts(c, f, e);
    StepForm(c, f, e);
    FirstStart(c, f, e);
    TimeLater(c, f, h, e.commit);
    BaseOfRound(c, e.commit);
  }

  /**
   An open first phase caches the fetched tree, and submits the root of the last tree cached if and only
   if a price was fetched, it is news, and a nonce is left; it uses the round's next nonce.
   */
  lemma OpenSubmits(c: Config, f: Feeder, h: int, e: Event)
    requires c.interval > 0 && c.twoPhases && Inv(c, f, h) && After(h, e) >= h && Opens(c, f, e)
    ensures Submitted(c, f, e, Step(c, f, e))
  {
    var r := CalculateRound(c, e.commit);
    var s := f.(roundID := r.roundID, baseBlock := r.base);
    OpenRound(c, f, h, e);
    OffersNews(c, s, e.commit, e.fetch, e.oks.0);
    PreparedFrame(c, s, e.fetch);
    PreparedRound(c, s, e.fetch);
    PreparedCaches(c, s, e.fetch);
    SubmitsRoot(c, f, Prepared(c, s, e.fetch), r, e.commit, e.oks.0);
  }

  /** Messages of the second phase. */
  predicate OnlySecond(log: seq<Msg>, log': seq<Msg>) {
    log <= log' && forall i | |log| <= i < |log'| :: log'[i].Piece? || log'[i].Finalized?
  }

  lemma SendsOnlySecond(c: Config, f: Feeder, oks: (bool, bool))
    ensures OnlySecond(f.log, SendSecond(c, f, oks).0.log)
  {
  }

  /** Any other event submits nothing of the first phase. */
  lemma OthersSubmitNothing(c: Config, f: Feeder, e: Event)
    requires c.interval > 0 && InfoInv(f.info) && !Opens(c, f, e)
    ensures OnlySecond(f.log, Step(c, f, e).log)
  {
    OpensIffStarts(c, f, e);
    StepForm(c, f, e);
    SendsOnlySecond(c, Start(c, f, e), e.oks);
  }

  /**
   Whatever root an event submits is that of the tree cached last, with its leaf count; if the event
   fetched a tree whose root was not cached for the round before, it is this one.
   */
  lemma LastTreeSubmitted(c: Config, f: Feeder, h: int, e: Event, i: nat)
    requires c.interval > 0 && c.twoPhases && Inv(c, f, h) && After(h, e) >= h
    requires |f.log| <= i < |Step(c, f, e).log| && Step(c, f, e).log[i].PhaseOne?
    ensures Opens(c, f, e) && e.fetch.Fetched?
    ensures var f' := Step(c, f, e);
            && f'.info.cached != []
            && f'.log[i].root == f'.info.cached[|f'.info.cached| - 1].root
            && f'.log[i].count == f'.info.cached[|f'.info.cached| - 1].leafCount
    ensures e.fetch.tree.Some? && (f.info.roundID < CalculateRound(c, e.commit).roundID || HasNoRoot(f.info.cached, e.fetch.tree.value.root)) ==>
              Step(c, f, e).log[i].root == e.fetch.tree.value.root && Step(c, f, e).log[i].count == e.fetch.tree.value.leafCount
  {
    if Opens(c, f, e) {
      OpenSubmits(c, f, h, e);
    } else {
      OthersSubmitNothing(c, f, e);
    }
  }

  // ---- Single-phase feeders -------------------------------------------------------------------

  /** What a single-phase feeder submits: the fetched price in its own decimals, under the next nonce. */
  function PriceMsg(c: Config, f: Feeder, e: Event): Msg
    requires c.interval > 0 && e.Height? && e.fetch.Fetched?
  {
    var r := CalculateRound(c, e.commit);
    Single(r.roundID, r.base, e.commit, |OkNonces(f.log, r.roundID)| + NoRoots(f.log, r.roundID) + 1,
           ConvertDecimal(e.fetch.price, e.fetch.decimal, c.decimal), e.oks.0)
  }

  /** A single-phase feeder's only messages are the prices that differ from the last one, while a nonce is left. */
  lemma PriceSubmitted(c: Config, f: Feeder, e: Event)
    requires c.interval > 0 && !c.twoPhases && NonceInv(c, f)
    ensures Step(c, f, e).log ==
            if && Opens(c, f, e) && e.fetch.Fetched? && NonceLeft(f.sign, CalculateRound(c, e.commit).roundID)
               && ConvertDecimal(e.fetch.price, e.fetch.decimal, c.decimal) != f.last.price
            then f.log + [PriceMsg(c, f, e)] else f.log
  {
    SignCounts(c, f);
    if Opens(c, f, e) {
      var r := CalculateRound(c, e.commit);
      LeftIsHandedOut(f.sign, r.roundID);
      assert NoncesAt(f.sign, r.roundID, OkNonces(f.log, r.roundID), NoRoots(f.log, r.roundID));
      NextNonceExtends(f.sign, r.roundID, OkNonces(f.log, r.roundID), NoRoots(f.log, r.roundID));
    }
  }

  // ---- What is remembered ---------------------------------------------------------------------

  /** The last agreed price is that of the last price event that could be read; a reset forgets it. */
  lemma LastIsRemembered(c: Config, f: Feeder, e: Event)
    requires c.interval > 0
    ensures Step(c, f, e).last ==
            if e.Price? && e.update.PriceAgreed? then Last(e.update.price, e.update.height, e.update.withdrawVersion)
            else if e.Price? && e.update.PriceReset? then NoLast
            else f.last
  {
  }

  /** A height whose price is not in yet changes nothing at all. */
  lemma WaitsForPrice(c: Config, f: Feeder, e: Event)
    requires c.interval > 0 && e.Height? && e.priceHeight > f.last.height
    ensures Step(c, f, e) == f
  {
  }

  /**
   An agreed root finalizes the cached tree that has it, for the current round and once only; a foreign
   root leaves the trees cached, and any other state of the round is kept.
   */
  lemma AgreementForm(c: Config, f: Feeder, update: PriceUpdate, oks: (bool, bool))
    requires c.interval > 0 && c.twoPhases && InfoInv(f.info) && update.PriceAgreed?
    ensures var t, t' := f.info, Step(c, f, Price(update, oks)).info;
            && t'.roundID == t.roundID
            && (f.roundID != t.roundID || t.finalized.Some? ==> t'.cached == t.cached && t'.finalized == t.finalized && t'.next == t.next && t'.seen == t.seen)
            && (f.roundID == t.roundID && t.finalized.None? ==> t'.next == 0 && t'.seen == {})
            && (f.roundID == t.roundID && t.finalized.None? && HasNoRoot(t.cached, update.price) ==> t'.cached == t.cached && t'.finalized == None)
            && (forall k | 0 <= k < |t.cached| && t.cached[k].root == update.price && f.roundID == t.roundID && t.finalized.None? ::
                  t'.cached == [] && t'.finalized == Some(t.cached[k]))
  {
    FinalizeInv(f.info, f.roundID, update.price);
    SendSecondInfo(c, Start(c, f, Price(update, oks)), oks);
  }

  /**
   An acknowledgement is taken in exactly if the index is new and both it and the next piece lie before
   the tree's last; the next piece then moves up by one, or right behind an index ahead of it.
   */
  lemma AcknowledgedIff(t: Info, index: nat)
    ensures Acknowledge(t, index).1 <==>
              t.finalized.Some? && t.next < t.finalized.value.leafCount - 1 && index < t.finalized.value.leafCount - 1 && index !in t.seen
    ensures Acknowledge(t, index).1 ==>
              Acknowledge(t, index).0 == t.(seen := t.seen + {index}, next := if index > t.next then index + 1 else t.next + 1)
    ensures !Acknowledge(t, index).1 ==> Acknowledge(t, index).0 == t
  {
  }

  /** The same of the event: beyond it only the last piece sent can change. */
  lemma AckForm(c: Config, f: Feeder, index: nat, oks: (bool, bool))
    requires c.interval > 0 && c.twoPhases && InfoInv(f.info)
    ensures var t, t' := f.info, Step(c, f, PieceAck(index, oks)).info;
            t' == if && t.finalized.Some? && t.next < t.finalized.value.leafCount - 1
                     && index < t.finalized.value.leafCount - 1 && index !in t.seen
                  then t.(seen := t.seen + {index}, next := if index > t.next then index + 1 else t.next + 1, sent := t'.sent)
                  else t.(sent := t'.sent)
  {
    AcknowledgedIff(f.info, index);
    AcknowledgeInv(f.info, index);
    SendSecondInfo(c, Start(c, f, PieceAck(index, oks)), oks);
  }

  // ---- The second phase -----------------------------------------------------------------------

  /** The first piece still to be sent: behind the last one sent, and none that is acknowledged. */
  function FirstToSend(t: Info): int {
    if t.sent + 1 < t.next then t.next else t.sent + 1
  }

  /** The round's tree is agreed on. */
  predicate InSecond(c: Config, f: Feeder) {
    c.twoPhases && f.roundID == f.info.roundID && f.info.finalized.Some?
  }

  function PieceMsg(f: Feeder, index: nat, ok: bool): Msg
    requires f.info.finalized.Some?
  {
    Piece(f.roundID, index, f.info.finalized.value.root, ok)
  }

  /** What is submitted of the pieces up to the window's end: none follows a failure. */
  function PiecesSent(f: Feeder, oks: (bool, bool)): seq<Msg>
    requires f.info.finalized.Some? && f.info.sent >= -1
  {
    var first, end := FirstToSend(f.info), WindowEnd(f.info);
    if first > end then []
    else if first == end || !oks.0 then [PieceMsg(f, first, oks.0)]
    else [PieceMsg(f, first, true), PieceMsg(f, first + 1, oks.1)]
  }

  /** The last piece that is sent with success. */
  function SentAfter(t: Info, oks: (bool, bool)): int
    requires t.finalized.Some?
  {
    var first, end := FirstToSend(t), WindowEnd(t);
    if first > end || !oks.0 then t.sent else if first == end || !oks.1 then first else first + 1
  }

  /** A feeder is in the second phase exactly once the root is agreed on, and then submits the window in order. */
  lemma SecondPhaseForm(c: Config, f: Feeder, oks: (bool, bool))
    requires InfoInv(f.info)
    ensures var (f', second) := SendSecond(c, f, oks);
            && (second <==> InSecond(c, f))
            && (InSecond(c, f) ==> f' == f.(info := f.info.(sent := SentAfter(f.info, oks)), log := f.log + PiecesSent(f, oks)))
            && (!InSecond(c, f) ==> f' == f)
  {
    if InSecond(c, f) {
      var w := Sendable(f.info, f.roundID);
      if w.Pieces? && |w.indexes| > 0 {
        assert w.indexes[0] == FirstToSend(f.info);
        assert |w.indexes| > 1 <==> FirstToSend(f.info) < WindowEnd(f.info);
      } else {
        assert FirstToSend(f.info) > WindowEnd(f.info);
        assert f.log + [] == f.log;
      }
    }
  }
}
