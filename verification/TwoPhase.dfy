/**
 The submission state machine of one feeder on values. Each case of its event loop is a function
 from state to state; the submitter's answers and the fetcher's are inputs. The log is the history
 of what was sent and finalized, which the source does not keep.
 */
module TwoPhase {
  import opened Prelude
  import opened DecimalScale

  /** A Merkle tree as far as the state machine looks at it: pieces exist exactly below the leaf count. */
  datatype MerkleTree = MerkleTree(root: string, leafCount: nat)

  type Tree = t: MerkleTree | t.leafCount >= 1 witness MerkleTree("", 1)

  /** The source's `twoPhasesInfo`; `sent` is -1 while no piece has been sent. */
  datatype Info = Info(
    roundID: nat,
    cached: seq<Tree>,
    finalized: Option<Tree>,
    sent: int,
    next: nat,
    seen: set<nat>)

  const NewInfo := Info(0, [], None, -1, 0, {})

  /** The next piece is the last one, or lies behind it. */
  predicate AtLast(t: Info)
    requires t.finalized.Some?
  {
    t.next >= t.finalized.value.leafCount - 1
  }

  function ResetFinalize(t: Info): Info {
    t.(finalized := None, sent := -1, next := 0, seen := {})
  }

  /** The index of the first cached tree with the given root, or the number of cached trees. */
  function Find(cached: seq<Tree>, root: string): (i: nat)
    ensures i <= |cached|
    ensures i < |cached| ==> cached[i].root == root
    ensures forall j | 0 <= j < i :: cached[j].root != root
  {
    if cached == [] then 0
    else if cached[0].root == root then 0
    else
      var i := 1 + Find(cached[1..], root);
      assert forall j | 0 < j < i :: cached[j] == cached[1..][j - 1];
      i
  }

  function AddTree(t: Info, roundID: nat, mt: Tree): Info {
    if roundID < t.roundID then t
    else if roundID > t.roundID then t.(roundID := roundID, cached := [mt], finalized := None)
    else if t.finalized.Some? then t
    else if Find(t.cached, mt.root) < |t.cached| then t
    else t.(cached := t.cached + [mt])
  }

  function Finalize(t: Info, roundID: nat, root: string): Info {
    if roundID != t.roundID || t.finalized.Some? then t
    else
      var i := Find(t.cached, root);
      if i < |t.cached| then ResetFinalize(t).(finalized := Some(t.cached[i]), cached := []) else ResetFinalize(t)
  }

  function SetRound(t: Info, roundID: nat): Info {
    if roundID > t.roundID then ResetFinalize(t).(roundID := roundID, cached := []) else t
  }

  /** The chain acknowledged a piece; the flag says whether the index was taken in. */
  function Acknowledge(t: Info, index: nat): (Info, bool) {
    if t.finalized.None? || AtLast(t) || index in t.seen then (t, false)
    else if index <= t.next then (t.(next := t.next + 1, seen := t.seen + {index}), true)
    else if index < t.finalized.value.leafCount - 1 then (t.(next := index + 1, seen := t.seen + {index}), true)
    else (t, false)
  }

  /** What the send window allows: no second phase yet, nothing at the moment, or some pieces. */
  datatype Window = NotReady | Nothing | Pieces(indexes: seq<nat>)

  function Sendable(t: Info, roundID: nat): Window {
    if t.roundID != roundID || t.finalized.None? then NotReady
    else
      var leaves := t.finalized.value.leafCount;
      var second := if t.next + 1 < leaves then [t.next + 1] else [];
      if t.next < t.sent then Nothing
      else if t.next > t.sent then
        if t.next >= leaves then NotReady
        else if AtLast(t) then Pieces([t.next])
        else Pieces([t.next] + second)
      else if AtLast(t) then Nothing
      else Pieces(second)
  }

  // ---- Nonces and rounds ----------------------------------------------------------------------

  datatype Sign = Sign(maxNonce: int, roundID: nat, nonce: int)

  function NextNonce(s: Sign, roundID: nat): (Sign, int) {
    if roundID < s.roundID then (s, -1)
    else if roundID > s.roundID then (s.(roundID := roundID, nonce := 1), 1)
    else if s.nonce + 1 > s.maxNonce then (s.(nonce := s.maxNonce), -1)
    else (s.(nonce := s.nonce + 1), s.nonce + 1)
  }

  function RevertNonce(s: Sign, roundID: nat): Sign {
    if s.roundID == roundID && s.nonce > 0 then s.(nonce := s.nonce - 1) else s
  }

  /** The parameters of a feeder; an `endBlock` of zero means none. */
  datatype Config = Config(twoPhases: bool, startRound: nat, startBase: nat, interval: nat, endBlock: nat, decimal: int)

  datatype Round = Round(base: nat, roundID: nat, delta: nat, active: bool)

  function CalculateRound(c: Config, h: int): Round
    requires c.interval > 0
  {
    if c.startBase > h || (c.endBlock > 0 && h > c.endBlock) then Round(0, 0, 0, false)
    else
      var delta := (h - c.startBase) % c.interval;
      Round(h - delta, (h - c.startBase) / c.interval + c.startRound, delta, true)
  }

  // ---- The feeder -----------------------------------------------------------------------------

  datatype Msg =
    | PhaseOne(round: nat, base: nat, height: int, nonce: int, root: string, count: nat, ok: bool)
    | Single(round: nat, base: nat, height: int, nonce: int, price: string, ok: bool)
    | Piece(round: nat, index: nat, root: string, ok: bool)
    | Finalized(round: nat, root: string)
    | NoRoot(round: nat)

  /** The last price the chain agreed on; two-phase feeders keep the root there. */
  datatype Last = Last(price: string, height: int, withdrawVersion: Option<nat>)

  datatype Feeder = Feeder(roundID: nat, baseBlock: nat, info: Info, sign: Sign, last: Last, log: seq<Msg>)

  /** What the fetcher answers. A two-phase price comes with its tree, if one can be derived. */
  datatype Fetch =
    | FetchFailed
    | NoPrice
    | Fetched(price: string, decimal: int, tree: Option<Tree>, withdrawVersion: Option<nat>)

  /** The last price as the chain reports it; an empty one, like none at all, is a reset. */
  datatype PriceUpdate =
    | PriceReset
    | PriceUnreadable
    | PriceAgreed(price: string, height: int, withdrawVersion: Option<nat>)

  datatype Event =
    | Height(commit: int, priceHeight: int, fetch: Fetch, oks: (bool, bool))
    | Price(update: PriceUpdate, oks: (bool, bool))
    | PieceAck(index: nat, oks: (bool, bool))

  const NoLast := Last("", 0, None)

  function NewFeeder(maxNonce: int): Feeder {
    Feeder(0, 0, NewInfo, Sign(maxNonce, 0, 0), NoLast, [])
  }

  /** Sends one piece: the index moves ahead of the submission and back if it fails. */
  function SendPiece(f: Feeder, index: nat, ok: bool): Feeder
    requires f.info.finalized.Some?
  {
    f.(info := if ok then f.info.(sent := index) else f.info,
       log := f.log + [Piece(f.roundID, index, f.info.finalized.value.root, ok)])
  }

  /** The second phase; the flag says whether the feeder is in it. */
  function SendSecond(c: Config, f: Feeder, oks: (bool, bool)): (Feeder, bool) {
    if !c.twoPhases then (f, false)
    else
      match Sendable(f.info, f.roundID)
      case NotReady => (f, false)
      case Nothing => (f, true)
      case Pieces(indexes) =>
        if indexes == [] then (f, true)
        else
          var f1 := SendPiece(f, indexes[0], oks.0);
          (if oks.0 && |indexes| > 1 then SendPiece(f1, indexes[1], oks.1) else f1, true)
  }

  /** Submits to the chain under the next nonce, if there is one, and gives it back on failure. */
  function SubmitPhaseOne(c: Config, f: Feeder, height: int, price: string, ok: bool): Feeder {
    var (sign, nonce) := NextNonce(f.sign, f.roundID);
    if nonce < 0 then f.(sign := sign)
    else
      var after := if ok then sign else RevertNonce(sign, f.roundID);
      if !c.twoPhases then
        f.(sign := after, log := f.log + [Single(f.roundID, f.baseBlock, height, nonce, price, ok)])
      else if f.info.cached == [] then f.(sign := sign, log := f.log + [NoRoot(f.roundID)])
      else
        var tree := f.info.cached[|f.info.cached| - 1];
        f.(sign := after, log := f.log + [PhaseOne(f.roundID, f.baseBlock, height, nonce, tree.root, tree.leafCount, ok)])
  }

  function Cached(c: Config, f: Feeder, tree: Option<Tree>): Feeder {
    if c.twoPhases && tree.Some? then f.(info := AddTree(f.info, f.roundID, tree.value)) else f
  }

  /** Whether a fetched two-phase price is to be submitted next to the last agreed one. */
  predicate WorthSending(last: Last, tree: Option<Tree>, withdrawVersion: Option<nat>) {
    last.price == "" ||
    (withdrawVersion.Some? && last.withdrawVersion.Some?
     && !(tree.Some? && tree.value.root == last.price && withdrawVersion.value <= last.withdrawVersion.value))
  }

  function EnterRound(c: Config, f: Feeder): Feeder {
    if c.twoPhases then f.(info := SetRound(f.info, f.roundID)) else f
  }

  /** A fetched price of a two-phase feeder: its tree is cached, and a root is perhaps submitted. */
  function OfferTree(c: Config, f: Feeder, height: int, tree: Option<Tree>, withdrawVersion: Option<nat>, ok: bool): Feeder {
    var f1 := Cached(c, f, tree);
    if WorthSending(f1.last, tree, withdrawVersion) then SubmitPhaseOne(c, f1, height, "", ok) else f1
  }

  /** A fetched price of a single-phase feeder: it is submitted if it is news in the feeder's decimals. */
  function OfferPrice(c: Config, f: Feeder, height: int, price: string, decimal: int, ok: bool): Feeder {
    var scaled := if decimal != c.decimal then ConvertDecimal(price, decimal, c.decimal) else price;
    if scaled != f.last.price then SubmitPhaseOne(c, f, height, scaled, ok) else f
  }

  /** The first phase at one height of the current round. */
  function FirstPhase(c: Config, f: Feeder, height: int, fetch: Fetch, ok: bool): Feeder {
    var f0 := EnterRound(c, f);
    match fetch
    case FetchFailed => f0
    case NoPrice => f0
    case Fetched(price, decimal, tree, withdrawVersion) =>
      if c.twoPhases then OfferTree(c, f0, height, tree, withdrawVersion, ok) else OfferPrice(c, f0, height, price, decimal, ok)
  }

  function OnHeight(c: Config, f: Feeder, commit: int, priceHeight: int, fetch: Fetch, oks: (bool, bool)): Feeder
    requires c.interval > 0
  {
    if priceHeight > f.last.height then f
    else
      var r := CalculateRound(c, commit);
      var f1 := f.(roundID := r.roundID, baseBlock := r.base);
      if !r.active then f1
      else
        var (f2, second) := SendSecond(c, f1, oks);
        if second || r.delta >= 3 then f2 else FirstPhase(c, f2, commit, fetch, oks.0)
  }

  function OnPrice(c: Config, f: Feeder, update: PriceUpdate, oks: (bool, bool)): Feeder {
    match update
    case PriceReset => f.(last := NoLast)
    case PriceUnreadable => f
    case PriceAgreed(price, height, withdrawVersion) =>
      var f1 := f.(last := Last(price, height, withdrawVersion));
      if !c.twoPhases then f1
      else
        var info := Finalize(f1.info, f1.roundID, price);
        var f2 := f1.(info := info,
                      log := if f1.info.finalized.None? && info.finalized.Some? then f1.log + [Finalized(f1.roundID, info.finalized.value.root)]
                             else f1.log);
        SendSecond(c, f2, oks).0
  }

  function OnPiece(c: Config, f: Feeder, index: nat, oks: (bool, bool)): Feeder {
    if !c.twoPhases then f
    else SendSecond(c, f.(info := Acknowledge(f.info, index).0), oks).0
  }

  function Step(c: Config, f: Feeder, e: Event): Feeder
    requires c.interval > 0
  {
    match e
    case Height(commit, priceHeight, fetch, oks) => OnHeight(c, f, commit, priceHeight, fetch, oks)
    case Price(update, oks) => OnPrice(c, f, update, oks)
    case PieceAck(index, oks) => OnPiece(c, f, index, oks)
  }

  function Run(c: Config, f: Feeder, events: seq<Event>): Feeder
    requires c.interval > 0
    decreases |events|
  {
    if events == [] then f else Run(c, Step(c, f, events[0]), events[1..])
  }
}
