/** What holds of a feeder after any run of its events, whatever the submitter and the chain answer. */
module TwoPhaseRuns {
  import opened Prelude
  import opened TwoPhase
  import opened DecimalScale

  // ---- The bookkeeping of one round -----------------------------------------------------------

  predicate DistinctRoots(cached: seq<Tree>) {
    forall i, j | 0 <= i < j < |cached| :: cached[i].root != cached[j].root
  }

  /**
   Before finalization the second phase stands at its start. After it the next piece stays within
   the tree, every acknowledged index lies below it, and the last piece sent lies within the window
   of two behind it.
   */
  ghost predicate InfoInv(t: Info) {
    && DistinctRoots(t.cached)
    && match t.finalized
       case None => t.sent == -1 && t.next == 0 && t.seen == {}
       case Some(tree) =>
         && t.next <= tree.leafCount - 1
         && -1 <= t.sent <= Min(t.next + 1, tree.leafCount - 1)
         && (forall i | i in t.seen :: i < t.next)
         && |t.seen| <= t.next
  }

  lemma AddTreeInv(t: Info, roundID: nat, mt: Tree)
    requires InfoInv(t) && roundID <= t.roundID
    ensures InfoInv(AddTree(t, roundID, mt))
  {
  }

  lemma FinalizeInv(t: Info, roundID: nat, root: string)
    requires InfoInv(t)
    ensures InfoInv(Finalize(t, roundID, root))
  {
  }

  /** An acknowledgement that is taken in is new, moves the next piece up past it, and stays inside. */
  lemma AcknowledgeInv(t: Info, index: nat)
    requires InfoInv(t)
    ensures var (t', taken) := Acknowledge(t, index);
            && InfoInv(t')
            && (taken ==> index !in t.seen && t'.seen == t.seen + {index} && t.next < t'.next && index < t'.next)
            && (!taken ==> t' == t)
  {
  }

  /** At most as many acknowledgements are taken in as the tree has pieces before its last. */
  lemma AcksBounded(t: Info)
    requires InfoInv(t) && t.finalized.Some?
    ensures |t.seen| <= t.finalized.value.leafCount - 1
  {
  }

  /** Once finalized, a window is open or empty for the round: the first phase is over. */
  lemma FinalizedIsReady(t: Info)
    requires InfoInv(t) && t.finalized.Some?
    ensures Sendable(t, t.roundID) != NotReady
  {
  }

  /** The pieces offered lie above the last one sent, in order, within window and tree. */
  lemma WindowAhead(t: Info, roundID: nat, indexes: seq<nat>)
    requires InfoInv(t) && Sendable(t, roundID) == Pieces(indexes)
    ensures t.roundID == roundID && t.finalized.Some? && |indexes| <= 2
    ensures |indexes| > 0 ==> t.sent < indexes[0]
    ensures |indexes| > 1 ==> indexes[0] < indexes[1]
    ensures forall i | 0 <= i < |indexes| :: indexes[i] <= Min(t.next + 1, t.finalized.value.leafCount - 1)
  {
  }

  lemma SendSecondInfo(c: Config, f: Feeder, oks: (bool, bool))
    requires InfoInv(f.info)
    ensures var f' := SendSecond(c, f, oks).0;
            && InfoInv(f'.info) && f'.info == f.info.(sent := f'.info.sent)
            && f' == f.(info := f'.info, log := f'.log)
  {
    if c.twoPhases && Sendable(f.info, f.roundID).Pieces? {
      WindowAhead(f.info, f.roundID, Sendable(f.info, f.roundID).indexes);
    }
  }

  // ---- Pieces in the log ----------------------------------------------------------------------

  /** The pieces of a round that were submitted successfully, in order. */
  function OkPieces(log: seq<Msg>, round: nat): seq<nat> {
    if log == [] then []
    else
      var m := log[|log| - 1];
      OkPieces(log[..|log| - 1], round) + if m.Piece? && m.ok && m.round == round then [m.index] else []
  }

  predicate Increasing(s: seq<nat>) {
    forall i, j | 0 <= i < j < |s| :: s[i] < s[j]
  }

  /** One round's successful pieces: they increase; the current round's end at `sent`, a later one has none. */
  predicate PiecesAt(t: Info, round: nat, pieces: seq<nat>) {
    && Increasing(pieces)
    && (round > t.roundID ==> pieces == [])
    && (round == t.roundID ==> LastIs(pieces, t.sent))
  }

  ghost predicate PiecesInv(f: Feeder) {
    forall r: nat :: PiecesAt(f.info, r, OkPieces(f.log, r))
  }

  predicate LastIs(s: seq<nat>, last: int) {
    if s == [] then last == -1 else s[|s| - 1] == last
  }

  lemma OkPiecesAppend(log: seq<Msg>, m: Msg)
    ensures forall r: nat :: OkPieces(log + [m], r) == if m.Piece? && m.ok && m.round == r then OkPieces(log, r) + [m.index] else OkPieces(log, r)
  {
    assert (log + [m])[..|log|] == log;
    assert forall r: nat :: OkPieces(log, r) + [] == OkPieces(log, r);
  }

  lemma IncreasingAppend(s: seq<nat>, last: int, x: nat)
    requires Increasing(s) && LastIs(s, last) && last < x
    ensures Increasing(s + [x]) && LastIs(s + [x], x)
  {
  }

  lemma SendPieceLog(f: Feeder, index: nat, ok: bool)
    requires PiecesInv(f) && f.info.finalized.Some? && f.roundID == f.info.roundID && f.info.sent < index
    ensures PiecesInv(SendPiece(f, index, ok))
  {
    OkPiecesAppend(f.log, Piece(f.roundID, index, f.info.finalized.value.root, ok));
    var f' := SendPiece(f, index, ok);
    forall r: nat
      ensures PiecesAt(f'.info, r, OkPieces(f'.log, r))
    {
      assert PiecesAt(f.info, r, OkPieces(f.log, r));
      if r == f.roundID && ok {
        IncreasingAppend(OkPieces(f.log, r), f.info.sent, index);
      }
    }
  }

  lemma SendSecondPieces(c: Config, f: Feeder, oks: (bool, bool))
    requires InfoInv(f.info) && PiecesInv(f)
    ensures PiecesInv(SendSecond(c, f, oks).0)
  {
    if c.twoPhases && Sendable(f.info, f.roundID).Pieces? {
      var indexes := Sendable(f.info, f.roundID).indexes;
      WindowAhead(f.info, f.roundID, indexes);
      if indexes != [] {
        SendPieceLog(f, indexes[0], oks.0);
        if oks.0 && |indexes| > 1 {
          SendPieceLog(SendPiece(f, indexes[0], oks.0), indexes[1], oks.1);
        }
      }
    }
  }

  // ---- Roots and finalization -----------------------------------------------------------------

  predicate HasRoot(cached: seq<Tree>, root: string, count: nat) {
    exists k :: 0 <= k < |cached| && cached[k].root == root && cached[k].leafCount == count
  }

  /** A round is finalized once, and no root of it is submitted afterwards. */
  predicate SettledOnce(log: seq<Msg>) {
    forall i, j | 0 <= i < j < |log| ::
      log[i].Finalized? && (log[j].Finalized? || log[j].PhaseOne?) ==> log[j].round != log[i].round
  }

  /** Pieces are sent only for a root that was finalized for their round before. */
  predicate PiecesOfAgreed(log: seq<Msg>) {
    forall j | 0 <= j < |log| && log[j].Piece? :: Finalized(log[j].round, log[j].root) in log[..j]
  }

  /** Submitted roots of the current round are cached until one is finalized. */
  ghost predicate RootsInv(f: Feeder) {
    && (forall i | 0 <= i < |f.log| && f.log[i].PhaseOne? ::
          && f.log[i].round <= f.info.roundID
          && (f.log[i].round == f.info.roundID && f.info.finalized.None? ==> HasRoot(f.info.cached, f.log[i].root, f.log[i].count)))
    && (forall i | 0 <= i < |f.log| && f.log[i].Finalized? ::
          f.log[i].round < f.info.roundID || (f.log[i].round == f.info.roundID && f.info.finalized.Some?))
    && (f.info.finalized.Some? ==> Finalized(f.info.roundID, f.info.finalized.value.root) in f.log)
  }

  ghost predicate RootInv(f: Feeder) {
    SettledOnce(f.log) && PiecesOfAgreed(f.log) && RootsInv(f)
  }

  lemma PiecesOfAgreedAppend(log: seq<Msg>, m: Msg)
    requires PiecesOfAgreed(log) && (m.Piece? ==> Finalized(m.round, m.root) in log)
    ensures PiecesOfAgreed(log + [m])
  {
    forall j | 0 <= j < |log + [m]| && (log + [m])[j].Piece?
      ensures Finalized((log + [m])[j].round, (log + [m])[j].root) in (log + [m])[..j]
    {
      assert (log + [m])[..j] == log[..j];
      assert log[..|log|] == log;
    }
  }

  lemma SendPieceRoots(f: Feeder, index: nat, ok: bool)
    requires RootInv(f) && f.info.finalized.Some? && f.roundID == f.info.roundID
    ensures RootInv(SendPiece(f, index, ok))
  {
    PiecesOfAgreedAppend(f.log, Piece(f.roundID, index, f.info.finalized.value.root, ok));
  }

  lemma SendSecondRoots(c: Config, f: Feeder, oks: (bool, bool))
    requires InfoInv(f.info) && RootInv(f)
    ensures RootInv(SendSecond(c, f, oks).0)
  {
    if c.twoPhases && Sendable(f.info, f.roundID).Pieces? {
      var indexes := Sendable(f.info, f.roundID).indexes;
      WindowAhead(f.info, f.roundID, indexes);
      if indexes != [] {
        SendPieceRoots(f, indexes[0], oks.0);
        if oks.0 && |indexes| > 1 {
          SendPieceRoots(SendPiece(f, indexes[0], oks.0), indexes[1], oks.1);
        }
      }
    }
  }

  lemma SetRoundRoots(f: Feeder, roundID: nat)
    requires RootInv(f)
    ensures RootInv(f.(info := SetRound(f.info, roundID)))
  {
  }

  lemma AddTreeRoots(f: Feeder, mt: Tree)
    requires RootInv(f) && f.roundID <= f.info.roundID
    ensures RootInv(f.(info := AddTree(f.info, f.roundID, mt)))
  {
    var t, t' := f.info, AddTree(f.info, f.roundID, mt);
    forall root, count | HasRoot(t.cached, root, count)
      ensures HasRoot(t'.cached, root, count)
    {
      var k :| 0 <= k < |t.cached| && t.cached[k].root == root && t.cached[k].leafCount == count;
      assert t'.cached[k] == t.cached[k];
    }
  }

  /** The agreed root arrives: the state and the log after finalizing, before pieces are sent. */
  function Agreed(f: Feeder, root: string): Feeder {
    var info := Finalize(f.info, f.roundID, root);
    f.(info := info,
       log := if f.info.finalized.None? && info.finalized.Some? then f.log + [Finalized(f.roundID, info.finalized.value.root)] else f.log)
  }

  lemma AgreedRoots(f: Feeder, root: string)
    requires RootInv(f)
    ensures RootInv(Agreed(f, root))
  {
    if Agreed(f, root).log != f.log {
      PiecesOfAgreedAppend(f.log, Finalized(f.roundID, Agreed(f, root).info.finalized.value.root));
    }
  }

  /** A submission in a round that is current and not finalized. */
  lemma SubmitRoots(c: Config, f: Feeder, height: int, price: string, ok: bool)
    requires RootInv(f) && (c.twoPhases ==> f.roundID == f.info.roundID && f.info.finalized.None?)
    ensures RootInv(SubmitPhaseOne(c, f, height, price, ok))
  {
    var f' := SubmitPhaseOne(c, f, height, price, ok);
    if f'.log != f.log {
      PiecesOfAgreedAppend(f.log, f'.log[|f.log|]);
      if f'.log[|f.log|].PhaseOne? {
        assert HasRoot(f.info.cached, f'.log[|f.log|].root, f'.log[|f.log|].count);
      }
    }
  }

  // ---- Nonces ---------------------------------------------------------------------------------

  predicate IsFirst(m: Msg) {
    m.PhaseOne? || m.Single?
  }

  /** The nonces of a round's successful first-phase submissions, in order. */
  function OkNonces(log: seq<Msg>, round: nat): seq<int> {
    if log == [] then []
    else
      var m := log[|log| - 1];
      OkNonces(log[..|log| - 1], round) + if IsFirst(m) && m.ok && m.round == round then [m.nonce] else []
  }

  /** How often a nonce of the round was used up without a root to submit. */
  function NoRoots(log: seq<Msg>, round: nat): nat {
    if log == [] then 0
    else
      var m := log[|log| - 1];
      NoRoots(log[..|log| - 1], round) + if m.NoRoot? && m.round == round then 1 else 0
  }

  /** A round's nonces follow on those that were used up in vain, and stay within the bound. */
  predicate NoncesFine(maxNonce: int, nonces: seq<int>, wasted: nat) {
    && |nonces| + wasted <= maxNonce
    && forall i | 0 <= i < |nonces| :: nonces[i] == wasted + i + 1
  }

  /** One round's nonces: those of the current round add up to the counter, a later one has none. */
  predicate NoncesAt(sign: Sign, round: nat, nonces: seq<int>, wasted: nat) {
    && NoncesFine(sign.maxNonce, nonces, wasted)
    && (round > sign.roundID ==> nonces == [] && wasted == 0)
    && (round == sign.roundID ==> |nonces| + wasted == sign.nonce)
  }

  predicate NoSingles(log: seq<Msg>) {
    forall i | 0 <= i < |log| :: !log[i].Single?
  }

  ghost predicate NonceInv(c: Config, f: Feeder) {
    && f.sign.maxNonce >= 1 && (c.twoPhases ==> NoSingles(f.log))
    && forall r: nat :: NoncesAt(f.sign, r, OkNonces(f.log, r), NoRoots(f.log, r))
  }

  /** A two-phase feeder that submitted no root for a round has used no nonce of it successfully. */
  lemma {:induction false} NoncesNeedRoots(log: seq<Msg>, round: nat)
    requires NoSingles(log) && forall i | 0 <= i < |log| :: log[i].PhaseOne? ==> log[i].round != round
    ensures OkNonces(log, round) == []
  {
    if log != [] {
      NoncesNeedRoots(log[..|log| - 1], round);
    }
  }

  lemma NoncesAppend(log: seq<Msg>, m: Msg)
    ensures forall r: nat :: OkNonces(log + [m], r) == if IsFirst(m) && m.ok && m.round == r then OkNonces(log, r) + [m.nonce] else OkNonces(log, r)
    ensures forall r: nat :: NoRoots(log + [m], r) == NoRoots(log, r) + if m.NoRoot? && m.round == r then 1 else 0
  {
    assert (log + [m])[..|log|] == log;
    assert forall r: nat :: OkNonces(log, r) + [] == OkNonces(log, r);
  }

  lemma OtherMsgNonces(c: Config, f: Feeder, f': Feeder, m: Msg)
    requires NonceInv(c, f) && f'.log == f.log + [m] && f'.sign == f.sign
    requires m.Piece? || m.Finalized?
    ensures NonceInv(c, f')
  {
    NoncesAppend(f.log, m);
  }

  lemma SendSecondNonces(c: Config, f: Feeder, oks: (bool, bool))
    requires NonceInv(c, f)
    ensures NonceInv(c, SendSecond(c, f, oks).0)
  {
    if c.twoPhases && Sendable(f.info, f.roundID).Pieces? {
      var indexes := Sendable(f.info, f.roundID).indexes;
      if indexes != [] {
        var f1 := SendPiece(f, indexes[0], oks.0);
        OtherMsgNonces(c, f, f1, f1.log[|f.log|]);
        if oks.0 && |indexes| > 1 {
          var f2 := SendPiece(f1, indexes[1], oks.1);
          OtherMsgNonces(c, f1, f2, f2.log[|f1.log|]);
        }
      }
    }
  }

  /** The nonce handed out extends the round's run by one; nothing is handed out beyond the bound. */
  lemma NextNonceExtends(s: Sign, round: nat, nonces: seq<int>, wasted: nat)
    requires s.maxNonce >= 1 && NoncesAt(s, round, nonces, wasted)
    ensures var (sign, nonce) := NextNonce(s, round);
            if nonce < 0 then sign == s
            else
              && sign == s.(roundID := round, nonce := nonce) && s.roundID <= round
              && nonce == |nonces| + wasted + 1 <= s.maxNonce
  {
  }

  /**
   A message with the nonce of its round: a success takes the nonce, a missing root wastes it, a
   failure gives it back. No root is missing once one was submitted.
   */
  lemma NonceTaken(s: Sign, s': Sign, m: Msg, r: nat, nonces: seq<int>, wasted: nat)
    requires s.maxNonce >= 1 && NoncesAt(s, r, nonces, wasted) && (IsFirst(m) || m.NoRoot?)
    requires NextNonce(s, m.round).1 >= 0 && (IsFirst(m) ==> m.nonce == NextNonce(s, m.round).1)
    requires m.NoRoot? && m.round == r ==> nonces == []
    requires s' == if IsFirst(m) && !m.ok then RevertNonce(NextNonce(s, m.round).0, m.round) else NextNonce(s, m.round).0
    ensures NoncesAt(s', r, if IsFirst(m) && m.ok && m.round == r then nonces + [m.nonce] else nonces,
                     wasted + if m.NoRoot? && m.round == r then 1 else 0)
  {
    if r == m.round {
      NextNonceExtends(s, r, nonces, wasted);
    }
  }

  /** The message is sent with the nonce its round is given, after a state of these counters. */
  predicate TakesNonce(f: Feeder, f': Feeder, m: Msg) {
    && f'.log == f.log + [m] && (IsFirst(m) || m.NoRoot?)
    && NextNonce(f.sign, m.round).1 >= 0 && (IsFirst(m) ==> m.nonce == NextNonce(f.sign, m.round).1)
    && f'.sign == if IsFirst(m) && !m.ok then RevertNonce(NextNonce(f.sign, m.round).0, m.round) else NextNonce(f.sign, m.round).0
  }

  lemma NonceTakenAt(f: Feeder, f': Feeder, m: Msg, r: nat)
    requires f.sign.maxNonce >= 1 && NoncesAt(f.sign, r, OkNonces(f.log, r), NoRoots(f.log, r))
    requires TakesNonce(f, f', m) && (m.NoRoot? ==> OkNonces(f.log, m.round) == [])
    ensures NoncesAt(f'.sign, r, OkNonces(f'.log, r), NoRoots(f'.log, r))
  {
    NoncesAppend(f.log, m);
    NonceTaken(f.sign, f'.sign, m, r, OkNonces(f.log, r), NoRoots(f.log, r));
  }

  lemma NonceTakenInv(c: Config, f: Feeder, f': Feeder, m: Msg)
    requires NonceInv(c, f) && TakesNonce(f, f', m)
    requires (c.twoPhases ==> !m.Single?) && (m.NoRoot? ==> OkNonces(f.log, m.round) == [])
    ensures NonceInv(c, f')
  {
    forall r: nat
      ensures NoncesAt(f'.sign, r, OkNonces(f'.log, r), NoRoots(f'.log, r))
    {
      NonceTakenAt(f, f', m, r);
    }
  }

  /** When no nonce is left the counter stays as it is. */
  lemma NoNonceLeft(c: Config, f: Feeder, round: nat)
    requires NonceInv(c, f) && NextNonce(f.sign, round).1 < 0
    ensures NextNonce(f.sign, round).0 == f.sign
  {
    if round >= f.sign.roundID {
      assert NoncesAt(f.sign, round, OkNonces(f.log, round), NoRoots(f.log, round));
    }
  }

  lemma SubmitNonces(c: Config, f: Feeder, height: int, price: string, ok: bool)
    requires NonceInv(c, f) && (c.twoPhases && f.info.cached == [] ==> OkNonces(f.log, f.roundID) == [])
    ensures NonceInv(c, SubmitPhaseOne(c, f, height, price, ok))
  {
    var f' := SubmitPhaseOne(c, f, height, price, ok);
    if NextNonce(f.sign, f.roundID).1 >= 0 {
      NonceTakenInv(c, f, f', f'.log[|f.log|]);
    } else {
      NoNonceLeft(c, f, f.roundID);
    }
  }

  // ---- Rounds and heights ---------------------------------------------------------------------

  /** The round of a height, whether or not the feeder is active there. */
  function RoundAt(c: Config, h: int): nat
    requires c.interval > 0
  {
    if h < c.startBase then 0 else (h - c.startBase) / c.interval + c.startRound
  }

  lemma DivStep(x: nat, d: nat)
    requires d > 0
    ensures x / d <= (x + 1) / d
  {
    var q, r := x / d, x % d;
    assert x == d * q + r;
    if r + 1 < d {
      Quotient(x + 1, d, q, r + 1);
    } else {
      assert d * (q + 1) == d * q + d;
      Quotient(x + 1, d, q + 1, 0);
    }
  }

  lemma {:induction false} DivMonotone(a: nat, b: nat, d: nat)
    requires a <= b && d > 0
    ensures a / d <= b / d
    decreases b - a
  {
    if a < b {
      DivStep(a, d);
      DivMonotone(a + 1, b, d);
    }
  }

  /** Rounds never go back while heights rise. */
  lemma RoundsNeverGoBack(c: Config, h: int, h': int)
    requires c.interval > 0 && h <= h'
    ensures RoundAt(c, h) <= RoundAt(c, h')
  {
    if h >= c.startBase {
      DivMonotone(h - c.startBase, h' - c.startBase, c.interval);
    }
  }

  /** The first block of the `n`-th round since the start. */
  function Base(c: Config, n: nat): nat {
    if n == 0 then c.startBase else Base(c, n - 1) + c.interval
  }

  lemma {:induction false} BaseIs(c: Config, n: nat)
    ensures Base(c, n) == c.startBase + n * c.interval
  {
    if n > 0 {
      BaseIs(c, n - 1);
      assert (n - 1) * c.interval + c.interval == n * c.interval;
    }
  }

  /** The base block is the one the round starts at. */
  lemma BaseOfRound(c: Config, h: int)
    requires c.interval > 0 && CalculateRound(c, h).active
    ensures var r := CalculateRound(c, h);
            && r.roundID == RoundAt(c, h) && r.roundID >= c.startRound
            && r.base == Base(c, r.roundID - c.startRound)
            && r.delta == h - r.base && 0 <= r.delta < c.interval
  {
    var n := h - c.startBase;
    var rounds, delta := n / c.interval, n % c.interval;
    assert n == rounds * c.interval + delta;
    BaseIs(c, rounds);
  }

  /** A first-phase message names its round's base block and comes within three blocks of it. */
  predicate MsgTimed(c: Config, m: Msg) {
    IsFirst(m) ==> m.round >= c.startRound && m.base == Base(c, m.round - c.startRound) && 0 <= m.height - m.base < 3
  }

  /** The feeder's round is that of the height, which is one of the round's first three blocks. */
  predicate InFirstBlocks(c: Config, f: Feeder, h: int)
    requires c.interval > 0
  {
    && f.roundID == RoundAt(c, h) && f.roundID >= c.startRound
    && f.baseBlock == Base(c, f.roundID - c.startRound) && 0 <= h - f.baseBlock < 3
  }

  ghost predicate TimeInv(c: Config, f: Feeder, h: int)
    requires c.interval > 0
  {
    && f.info.roundID <= RoundAt(c, h)
    && (forall i | 0 <= i < |f.log| :: MsgTimed(c, f.log[i]))
    && (forall i | 0 <= i < |f.log| && IsFirst(f.log[i]) :: f.log[i].round <= RoundAt(c, h))
    && (forall i, j | 0 <= i < j < |f.log| && IsFirst(f.log[i]) && IsFirst(f.log[j]) :: f.log[i].round <= f.log[j].round)
  }

  lemma SendSecondTimes(c: Config, f: Feeder, h: int, oks: (bool, bool))
    requires c.interval > 0 && InfoInv(f.info) && TimeInv(c, f, h)
    ensures TimeInv(c, SendSecond(c, f, oks).0, h)
  {
    SendSecondInfo(c, f, oks);
  }

  lemma TimeLater(c: Config, f: Feeder, h: int, h': int)
    requires c.interval > 0 && h <= h' && TimeInv(c, f, h)
    ensures TimeInv(c, f, h')
  {
    RoundsNeverGoBack(c, h, h');
  }

  lemma SubmitTimes(c: Config, f: Feeder, h: int, price: string, ok: bool)
    requires c.interval > 0 && TimeInv(c, f, h)
    requires InFirstBlocks(c, f, h)
    ensures TimeInv(c, SubmitPhaseOne(c, f, h, price, ok), h)
  {
  }

  // ---- The first phase ------------------------------------------------------------------------

  /** The feeder with the round entered and the fetched tree cached, before any submission. */
  function Prepared(c: Config, f: Feeder, fetch: Fetch): Feeder {
    if fetch.Fetched? then Cached(c, EnterRound(c, f), fetch.tree) else EnterRound(c, f)
  }

  lemma FirstPhaseForm(c: Config, f: Feeder, h: int, fetch: Fetch, ok: bool) returns (price: string, submits: bool)
    ensures submits ==> fetch.Fetched?
    ensures FirstPhase(c, f, h, fetch, ok) == if submits then SubmitPhaseOne(c, Prepared(c, f, fetch), h, price, ok) else Prepared(c, f, fetch)
  {
    price, submits := "", false;
    if fetch.Fetched? {
      if c.twoPhases {
        submits := WorthSending(f.last, fetch.tree, fetch.withdrawVersion);
      } else {
        price := if fetch.decimal != c.decimal then ConvertDecimal(fetch.price, fetch.decimal, c.decimal) else fetch.price;
        submits := price != f.last.price;
      }
    }
  }

  /** With no second phase to go on with, the round is or becomes current and is not finalized. */
  lemma PreparedRound(c: Config, f: Feeder, fetch: Fetch)
    requires c.twoPhases && InfoInv(f.info) && f.info.roundID <= f.roundID && Sendable(f.info, f.roundID) == NotReady
    ensures var b := Prepared(c, f, fetch); b.roundID == f.roundID == b.info.roundID && b.info.finalized.None?
  {
    if f.info.finalized.Some? && f.info.roundID == f.roundID {
      FinalizedIsReady(f.info);
    }
  }

  /** Neither entering a round nor caching a tree touches the log, the nonces or the timing. */
  lemma PreparedFrame(c: Config, f: Feeder, fetch: Fetch)
    ensures var b := Prepared(c, f, fetch);
            b == f.(info := b.info) && f.info.roundID <= b.info.roundID && (b.info.roundID <= f.roundID || b.info.roundID == f.info.roundID)
  {
  }

  lemma FirstPhaseInfo(c: Config, f: Feeder, h: int, fetch: Fetch, ok: bool)
    requires InfoInv(f.info) && (c.twoPhases ==> f.info.roundID <= f.roundID)
    ensures InfoInv(FirstPhase(c, f, h, fetch, ok).info)
  {
    var price, submits := FirstPhaseForm(c, f, h, fetch, ok);
    var f0 := EnterRound(c, f);
    if c.twoPhases && fetch.Fetched? && fetch.tree.Some? {
      AddTreeInv(f0.info, f0.roundID, fetch.tree.value);
    }
  }

  lemma SubmitPieces(c: Config, f: Feeder, h: int, price: string, ok: bool)
    requires PiecesInv(f)
    ensures PiecesInv(SubmitPhaseOne(c, f, h, price, ok))
  {
    var f' := SubmitPhaseOne(c, f, h, price, ok);
    if f'.log != f.log {
      OkPiecesAppend(f.log, f'.log[|f.log|]);
    }
  }

  lemma PreparedPieces(c: Config, f: Feeder, fetch: Fetch)
    requires PiecesInv(f)
    ensures PiecesInv(Prepared(c, f, fetch))
  {
    PreparedFrame(c, f, fetch);
    var b := Prepared(c, f, fetch);
    assert b.info.roundID == f.info.roundID ==> b.info.sent == f.info.sent;
    assert b.info.roundID > f.info.roundID ==> b.info.sent == -1;
  }

  lemma FirstPhasePieces(c: Config, f: Feeder, h: int, fetch: Fetch, ok: bool)
    requires PiecesInv(f)
    ensures PiecesInv(FirstPhase(c, f, h, fetch, ok))
  {
    var price, submits := FirstPhaseForm(c, f, h, fetch, ok);
    PreparedPieces(c, f, fetch);
    SubmitPieces(c, Prepared(c, f, fetch), h, price, ok);
  }

  lemma PreparedRoots(c: Config, f: Feeder, fetch: Fetch)
    requires RootInv(f) && (c.twoPhases ==> f.info.roundID <= f.roundID)
    ensures RootInv(Prepared(c, f, fetch))
  {
    if c.twoPhases {
      SetRoundRoots(f, f.roundID);
      if fetch.Fetched? && fetch.tree.Some? {
        AddTreeRoots(EnterRound(c, f), fetch.tree.value);
      }
    }
  }

  lemma FirstPhaseRoots(c: Config, f: Feeder, h: int, fetch: Fetch, ok: bool)
    requires InfoInv(f.info) && RootInv(f)
    requires c.twoPhases ==> f.info.roundID <= f.roundID && Sendable(f.info, f.roundID) == NotReady
    ensures RootInv(FirstPhase(c, f, h, fetch, ok))
  {
    var price, submits := FirstPhaseForm(c, f, h, fetch, ok);
    PreparedRoots(c, f, fetch);
    if c.twoPhases {
      PreparedRound(c, f, fetch);
    }
    SubmitRoots(c, Prepared(c, f, fetch), h, price, ok);
  }

  /** With nothing cached for an unfinalized current round, none of its roots was submitted. */
  lemma NothingCached(c: Config, b: Feeder)
    requires NonceInv(c, b) && RootInv(b) && c.twoPhases
    requires b.roundID == b.info.roundID && b.info.finalized.None? && b.info.cached == []
    ensures OkNonces(b.log, b.roundID) == []
  {
    NoncesNeedRoots(b.log, b.roundID);
  }

  lemma FirstPhaseNonces(c: Config, f: Feeder, h: int, fetch: Fetch, ok: bool)
    requires NonceInv(c, f) && InfoInv(f.info) && RootInv(f)
    requires c.twoPhases ==> f.info.roundID <= f.roundID && Sendable(f.info, f.roundID) == NotReady
    ensures NonceInv(c, FirstPhase(c, f, h, fetch, ok))
  {
    var price, submits := FirstPhaseForm(c, f, h, fetch, ok);
    PreparedFrame(c, f, fetch);
    var b := Prepared(c, f, fetch);
    if c.twoPhases {
      PreparedRoots(c, f, fetch);
      PreparedRound(c, f, fetch);
      if b.info.cached == [] {
        NothingCached(c, b);
      }
    }
    SubmitNonces(c, b, h, price, ok);
  }

  lemma FirstPhaseTimes(c: Config, f: Feeder, h: int, fetch: Fetch, ok: bool)
    requires c.interval > 0 && TimeInv(c, f, h) && InFirstBlocks(c, f, h)
    ensures TimeInv(c, FirstPhase(c, f, h, fetch, ok), h)
  {
    var price, submits := FirstPhaseForm(c, f, h, fetch, ok);
    PreparedFrame(c, f, fetch);
    SubmitTimes(c, Prepared(c, f, fetch), h, price, ok);
  }

  // ---- One invariant at a time over a step ----------------------------------------------------

  function After(h: int, e: Event): int {
    if e.Height? then e.commit else h
  }

  /** What a step comes to: a start in which no message was sent, the second phase, perhaps the first. */
  function Start(c: Config, f: Feeder, e: Event): Feeder
    requires c.interval > 0
  {
    match e
    case Height(commit, _, _, _) => f.(roundID := CalculateRound(c, commit).roundID, baseBlock := CalculateRound(c, commit).base)
    case Price(update, _) =>
      if !update.PriceAgreed? then f
      else
        var f1 := f.(last := Last(update.price, update.height, update.withdrawVersion));
        if c.twoPhases then Agreed(f1, update.price) else f1
    case PieceAck(index, _) => if c.twoPhases then f.(info := Acknowledge(f.info, index).0) else f
  }

  predicate StartsFirst(c: Config, f: Feeder, e: Event)
    requires c.interval > 0
  {
    && e.Height? && e.priceHeight <= f.last.height
    && CalculateRound(c, e.commit).active && CalculateRound(c, e.commit).delta < 3
    && !SendSecond(c, Start(c, f, e), e.oks).1
  }

  /** The shapes a step can have. */
  lemma StepForm(c: Config, f: Feeder, e: Event)
    requires c.interval > 0
    ensures var s, f' := Start(c, f, e), Step(c, f, e);
            if StartsFirst(c, f, e) then f' == FirstPhase(c, SendSecond(c, s, e.oks).0, e.commit, e.fetch, e.oks.0)
            else f' == f || f' == s || f' == f.(last := NoLast) || f' == SendSecond(c, s, e.oks).0
  {
  }

  /** When the first phase starts, nothing was sent, and the feeder is in a round's first blocks. */
  lemma FirstStart(c: Config, f: Feeder, e: Event)
    requires c.interval > 0 && StartsFirst(c, f, e)
    ensures var s := Start(c, f, e);
            && SendSecond(c, s, e.oks).0 == s && InFirstBlocks(c, s, e.commit)
            && (c.twoPhases ==> Sendable(s.info, s.roundID) == NotReady)
  {
    BaseOfRound(c, e.commit);
  }

  lemma StepInfo(c: Config, f: Feeder, h: int, e: Event)
    requires c.interval > 0 && InfoInv(f.info) && TimeInv(c, f, h) && After(h, e) >= h
    ensures InfoInv(Step(c, f, e).info)
  {
    var s := Start(c, f, e);
    match e {
      case Height(_, _, _, _) =>
      case Price(update, _) =>
        if update.PriceAgreed? {
          FinalizeInv(f.info, f.roundID, update.price);
        }
      case PieceAck(index, _) => AcknowledgeInv(f.info, index);
    }
    StepForm(c, f, e);
    SendSecondInfo(c, s, e.oks);
    if StartsFirst(c, f, e) {
      FirstStart(c, f, e);
      TimeLater(c, f, h, e.commit);
      FirstPhaseInfo(c, s, e.commit, e.fetch, e.oks.0);
    }
  }

  /** An agreed price starts the pieces of its round afresh, if it starts them at all. */
  lemma AgreedPieces(f: Feeder, root: string)
    requires InfoInv(f.info) && PiecesInv(f)
    ensures InfoInv(Agreed(f, root).info) && PiecesInv(Agreed(f, root))
  {
    FinalizeInv(f.info, f.roundID, root);
    var g := Agreed(f, root);
    if g.log != f.log {
      OkPiecesAppend(f.log, g.log[|f.log|]);
    }
  }

  lemma StartPieces(c: Config, f: Feeder, e: Event)
    requires c.interval > 0 && InfoInv(f.info) && PiecesInv(f)
    ensures InfoInv(Start(c, f, e).info) && PiecesInv(Start(c, f, e))
  {
    match e
    case Height(_, _, _, _) =>
    case Price(update, _) =>
      if update.PriceAgreed? && c.twoPhases {
        AgreedPieces(f.(last := Last(update.price, update.height, update.withdrawVersion)), update.price);
      }
    case PieceAck(index, _) => AcknowledgeInv(f.info, index);
  }

  lemma StepPieces(c: Config, f: Feeder, e: Event)
    requires c.interval > 0 && InfoInv(f.info) && PiecesInv(f)
    ensures PiecesInv(Step(c, f, e))
  {
    var s := Start(c, f, e);
    StartPieces(c, f, e);
    StepForm(c, f, e);
    SendSecondPieces(c, s, e.oks);
    if StartsFirst(c, f, e) {
      FirstStart(c, f, e);
      FirstPhasePieces(c, s, e.commit, e.fetch, e.oks.0);
    }
  }

  lemma StartRoots(c: Config, f: Feeder, e: Event)
    requires c.interval > 0 && InfoInv(f.info) && RootInv(f)
    ensures InfoInv(Start(c, f, e).info) && RootInv(Start(c, f, e))
  {
    match e
    case Height(_, _, _, _) =>
    case Price(update, _) =>
      if update.PriceAgreed? && c.twoPhases {
        FinalizeInv(f.info, f.roundID, update.price);
        AgreedRoots(f.(last := Last(update.price, update.height, update.withdrawVersion)), update.price);
      }
    case PieceAck(index, _) => AcknowledgeInv(f.info, index);
  }

  lemma StepRoots(c: Config, f: Feeder, h: int, e: Event)
    requires c.interval > 0 && InfoInv(f.info) && RootInv(f) && TimeInv(c, f, h) && After(h, e) >= h
    ensures RootInv(Step(c, f, e))
  {
    var s := Start(c, f, e);
    StartRoots(c, f, e);
    StepForm(c, f, e);
    SendSecondRoots(c, s, e.oks);
    if StartsFirst(c, f, e) {
      FirstStart(c, f, e);
      TimeLater(c, f, h, e.commit);
      FirstPhaseRoots(c, s, e.commit, e.fetch, e.oks.0);
    }
  }

  lemma StartNonces(c: Config, f: Feeder, e: Event)
    requires c.interval > 0 && NonceInv(c, f)
    ensures NonceInv(c, Start(c, f, e))
  {
    var s := Start(c, f, e);
    if s.log != f.log {
      OtherMsgNonces(c, f, s, s.log[|f.log|]);
    }
  }

  lemma StepNonces(c: Config, f: Feeder, h: int, e: Event)
    requires c.interval > 0 && InfoInv(f.info) && RootInv(f) && NonceInv(c, f) && TimeInv(c, f, h) && After(h, e) >= h
    ensures NonceInv(c, Step(c, f, e))
  {
    var s := Start(c, f, e);
    StartNonces(c, f, e);
    StepForm(c, f, e);
    SendSecondNonces(c, s, e.oks);
    if StartsFirst(c, f, e) {
      FirstStart(c, f, e);
      TimeLater(c, f, h, e.commit);
      StartRoots(c, f, e);
      FirstPhaseNonces(c, s, e.commit, e.fetch, e.oks.0);
    }
  }

  lemma StartTimes(c: Config, f: Feeder, h: int, e: Event)
    requires c.interval > 0 && TimeInv(c, f, h) && After(h, e) >= h
    ensures TimeInv(c, Start(c, f, e), After(h, e))
  {
    TimeLater(c, f, h, After(h, e));
  }

  lemma StepTimes(c: Config, f: Feeder, h: int, e: Event)
    requires c.interval > 0 && InfoInv(f.info) && PiecesInv(f) && TimeInv(c, f, h) && After(h, e) >= h
    ensures TimeInv(c, Step(c, f, e), After(h, e))
  {
    var s := Start(c, f, e);
    TimeLater(c, f, h, After(h, e));
    StartTimes(c, f, h, e);
    StartPieces(c, f, e);
    StepForm(c, f, e);
    SendSecondTimes(c, s, After(h, e), e.oks);
    if StartsFirst(c, f, e) {
      FirstStart(c, f, e);
      FirstPhaseTimes(c, s, e.commit, e.fetch, e.oks.0);
    }
  }

  // ---- Every run ------------------------------------------------------------------------------

  ghost predicate Inv(c: Config, f: Feeder, h: int)
    requires c.interval > 0
  {
    InfoInv(f.info) && PiecesInv(f) && RootInv(f) && NonceInv(c, f) && TimeInv(c, f, h)
  }

  lemma StepKeepsInv(c: Config, f: Feeder, h: int, e: Event)
    requires c.interval > 0 && Inv(c, f, h) && After(h, e) >= h
    ensures Inv(c, Step(c, f, e), After(h, e))
  {
    StepInfo(c, f, h, e);
    StepPieces(c, f, e);
    StepRoots(c, f, h, e);
    StepNonces(c, f, h, e);
    StepTimes(c, f, h, e);
  }

  /** The heights of the events do not fall, starting from `h`. */
  predicate Rising(h: int, events: seq<Event>)
    decreases |events|
  {
    events == [] || (After(h, events[0]) >= h && Rising(After(h, events[0]), events[1..]))
  }

  function LastHeight(h: int, events: seq<Event>): int
    decreases |events|
  {
    if events == [] then h else LastHeight(After(h, events[0]), events[1..])
  }

  lemma {:induction false} RunKeepsInv(c: Config, f: Feeder, h: int, events: seq<Event>)
    requires c.interval > 0 && Inv(c, f, h) && Rising(h, events)
    ensures Inv(c, Run(c, f, events), LastHeight(h, events))
    decreases |events|
  {
    if events != [] {
      StepKeepsInv(c, f, h, events[0]);
      RunKeepsInv(c, Step(c, f, events[0]), After(h, events[0]), events[1..]);
    }
  }

  lemma NewFeederInv(c: Config, maxNonce: int, h: int)
    requires c.interval > 0 && maxNonce >= 1
    ensures Inv(c, NewFeeder(maxNonce), h)
  {
  }
}
