# Price feeder: models and proofs

This project models the parts of the price feeder whose correctness depends on many steps playing
together, and proves what these parts keep.

* **The staker ledger** (`fetcher/types/types.go`): live stakers, deposits cached by version, and a
  queue of withdraws. A grow applies cached entries one by one and undoes them through a deferred
  rollback; a balance update grows, patches balances and commits or undoes; a reset rebuilds all of
  it from a chain snapshot. `Ledger.dfy` says on values what each operation does, and `Stakers.dfy`
  holds the class of the source's fields, whose methods are proved to do just that. The theorems
  about the values are in `LedgerRollback`, `LedgerPath`, `LedgerApply`, `LedgerConservation`,
  `LedgerRuns` and `CatchUp`; `Snapshot.dfy` is the independent meaning of a reset.
* **The two-phase submission** (`internal/feeder/types.go`): candidate trees, the bounded nonce, the
  agreed root, and the pieces streamed through a window of two. `TwoPhase.dfy` has one function per
  case of the event loop, `FeederLoop.dfy` the classes updated in place and proved against them,
  `TwoPhaseRuns.dfy` the invariants of every run, `Delivery.dfy` what they mean for the chain, and
  `Submissions.dfy` what exactly one event submits.
  A log of what was sent, which the source does not keep, is the history the theorems speak about.
* **What feeds the two**: the fetchers' batched balance diff (`BalanceDiff`), the parser of staker
  events and its hand-over to the cache (`StakerEvents`, `NstEvents`), prices with separators in them
  (`FinalPrice`), decimal rescaling (`DecimalScale`) and the websocket restart (`WsRestart`).

Sorting, splitting texts and sums are defined once (`Sorting`, `Splitting`, `Prelude`). Balances are 64-bit and wrap as in
the source; versions and indexes are natural numbers.

Where the code does not keep what one would expect of it, the theorem says exactly when it does, and
`Exceptions.dfy` and `StakerEvents.dfy` have inputs at which it does not:

* A failed grow gives everything back if and only if no staker's balance outgrows 64 bits before the
  first version that cannot be applied. The one exit that does not set the error its deferred undo
  looks at (`fetcher/types/types.go:940-942`) gives everything back only if no deposit was due, and
  otherwise counts its deposits twice.
* A balance update that meets an unknown staker skips its undo for a first deposit that comes without
  withdraws (`fetcher/types/types.go:1028`).
* A ledger that was not given back can never get past the version it is stuck at; the comment at
  `fetcher/types/types.go:814` leaves such repairs to a full reset.
* Catching up from an older snapshot can differ from a direct reset in the balance and the withdraw
  version of a staker first covered on the way.
* A nonce is used up even when there is no root to submit (`internal/feeder/types.go:709-727`). A
  round's nonces run from 1 without a gap if and only if no event on the way did so, or nothing of the
  round was submitted; which events do is said of the state before them (`Delivery.Wastes`).
* A block with a single staker change is always refused, as its text holds no separator
  (`imuaclient/types.go:373-375`).
* The least deposit version of an event is forgotten if it is 0 and not the last one.

## Model

| member | source | states |
|---|---|---|
| StakerObjects.StakerInfo.AddValidator | fetcher/types/types.go:560-570 | a validator not yet listed is appended and its amount added, wrapping at 64 bits; a listed one changes nothing |
| StakerObjects.StakerInfo.RemoveValidator | fetcher/types/types.go:543-557 | succeeds exactly when the balance covers the amount and the validator is listed; removes its first occurrence only |
| StakerObjects.RemoveFirstAt | fetcher/types/types.go:550-555 | cutting out the index found is removing the first occurrence |
| StakerObjects.Stakers.ApplyPending | fetcher/types/types.go:912-937 | the deposit loop, updating staker objects in place, reaches the stakers, version and outcome of the run of deposits on values |
| StakerObjects.Stakers.StampDue | fetcher/types/types.go:938-961 | the withdraw loop stamps the due stakers and remembers each one's original withdraw version |
| StakerObjects.Stakers.DowngradeVersion | fetcher/types/types.go:998-1012 | takes the deposits back from the latest down and restores the remembered withdraw versions, in whatever order the map is walked |
| StakerObjects.Stakers.TryGrowVersionsFromCache | fetcher/types/types.go:878-963 | every exit, early, undone or not undone, leaves the whole ledger as the grow on values does; no object is shared between stakers |
| StakerObjects.Stakers.CompleteVersions | fetcher/types/types.go:980-996 | commits: cached deposits up to the version gone, the queue's applied prefix gone, versions set |
| StakerObjects.Stakers.GrowVersionsFromCacheByDepositWithdraw | fetcher/types/types.go:966-978 | grow and commit, or the failed grow's ledger; version 0 refused |
| StakerObjects.Stakers.CollectUpdates | fetcher/types/types.go:1036-1052 | fresh copies of exactly the listed stakers not ahead of the feed, each with the last balance listed |
| StakerObjects.Stakers.ApplyBalanceChanges | fetcher/types/types.go:1015-1059 | grow, patch and commit, or the undo with its guard, for the whole ledger |
| StakerObjects.Stakers.CacheDepositsWithdraws | fetcher/types/types.go:815-861 | the three guards, then deposits and withdraws one by one; a failure on the way keeps what was cached before it |
| StakerObjects.Stakers.Reset | fetcher/types/types.go:1062-1145 | succeeds exactly for distinct stakers, distinct validators and balances covering the pending sum (and, if not for all, the next version); a failure changes nothing; a success leaves the snapshot's stakers, cache and sorted queue |
| StakerObjects.ReadRecords | fetcher/types/types.go:1068-1123 | the reading loop accepts exactly the acceptable snapshots and builds fresh objects for stakers with a covered validator |
| StakerObjects.ReadValidators | fetcher/types/types.go:1079-1098 | fails exactly on a repeated validator; else splits the list into covered validators and cached deposits with their 64-bit sum |
| StakerObjects.ResetIsSnapshot | fetcher/types/types.go:1128-1143 | a full reset leaves the independently defined ledger of the snapshot |
| StakerObjects.ResetBalances | fetcher/types/types.go:1099-1115 | after a full reset a staker's balance and its waiting deposits add up to the last entry of the chain's balance list |
| LedgerForms.DepositsClosedForm | fetcher/types/types.go:914-936 | how far the deposit loop may have come, each staker is its old self extended by its own deposits passed, in version order |
| LedgerForms.AccumulateIsSum | fetcher/types/types.go:567 | a balance after deposits is the balance plus their amounts, modulo 2^64 |
| LedgerForms.RunStops | fetcher/types/types.go:914-936 | the loop stops exactly at the first version that is not cached, whose index is neither there, deposited to before nor the next free one, or whose validator is listed or was brought by an earlier deposit; its error is the one of these three |
| LedgerForms.RunIndexes | fetcher/types/types.go:921-931 | after the loop the stakers are those there were and those deposited to |
| LedgerForms.WithdrawsClosedForm | fetcher/types/types.go:944-960 | the withdraw loop succeeds exactly when all due stakers are known, and then each carries its latest due version |
| LedgerForms.CutAbove | fetcher/types/types.go:986-992 | on a sorted queue cutting the prefix is filtering: exactly the entries above the fed version remain, still sorted |
| LedgerForms.DepositsKeep | fetcher/types/types.go:912-937 | applying deposits, however far it comes, keeps every staker, its address and withdraw version, and only appends validators |
| LedgerRollback.RemoveUndoesAdd | fetcher/types/types.go:543-570 | removing undoes adding exactly when the addition did not wrap; a wrapped one is refused by the balance test |
| LedgerRollback.NoWrapIffFits | fetcher/types/types.go:567 | no single addition wraps exactly when every staker's final sum fits 64 bits |
| LedgerRollback.UndoExact | fetcher/types/types.go:998-1003 | undoing a run restores everything if nothing wrapped, else leaves some validator behind |
| LedgerRollback.StampsRestore | fetcher/types/types.go:1004-1011 | the remembered versions give back the withdraw versions before the loop, also for stakers stamped repeatedly |
| LedgerRollback.LoopFailureRollback | fetcher/types/types.go:902-961 | a grow failing in a loop leaves the ledger intact, but for empty shells, if and only if the sums fit 64 bits before the first version that cannot be applied, which is named without the loop |
| LedgerRollback.ShortQueueRollback | fetcher/types/types.go:939-942 | the exit that undoes nothing leaves the ledger intact if and only if no deposit was due |
| LedgerRollback.EarlyFailureKeeps | fetcher/types/types.go:879-898 | any other failing exit changes nothing |
| LedgerRollback.ChangeFailureRollback | fetcher/types/types.go:1026-1042 | an update failing on an unknown staker leaves the ledger intact if and only if the sums fit and the undo was not skipped |
| LedgerRollback.ApplyFailureIsGrowFailure | fetcher/types/types.go:1018-1042 | an update fails in three ways only: version mismatch without effect, the grow's own failure, or an unknown staker |
| LedgerPath.GrowForm | fetcher/types/types.go:878-978 | a grow succeeds exactly when it moves forward, every version on the way can be applied, the queue reaches its target and every due staker is there or comes on the way, all said of the ledger before; each staker and both caches afterwards are given likewise |
| LedgerPath.PathIndependence | fetcher/types/types.go:878-996 | growing in two successful steps and growing at once end in the same ledger, and the direct grow succeeds too |
| LedgerApply.PatchesClosedForm | fetcher/types/types.go:1036-1052 | collecting succeeds exactly when all listed stakers are known; the last listing of each staker not ahead of the feed counts |
| LedgerApply.ApplyRefines | fetcher/types/types.go:1015-1059 | an update succeeds exactly when its versions can be reached and every listed staker is there or comes on the way; it makes of each staker: old validators then cached ones, latest due withdraw version, listed balance unless put ahead of the old feed |
| LedgerConservation.GrowConserves | fetcher/types/types.go:878-996 | balances plus cached amounts stay the same, short of 2^64 per wrapping addition; so exactly when the sums fit |
| LedgerConservation.IntactConserves | fetcher/types/types.go:905-911 | a rolled-back failure keeps the total: shells hold nothing |
| LedgerConservation.ShortQueueCountsTwice | fetcher/types/types.go:939-942 | the exit without undo raises the total by the amounts it applied |
| LedgerConservation.KeysAreRange | fetcher/types/types.go:826-831 | pigeonhole: as many keys as versions looked up, all found, means no other key |
| LedgerConservation.CacheConserves | fetcher/types/types.go:826-844 | a successful cache call raises the total by the sum of all the event's deposits: none is dropped |
| LedgerRuns.CacheAccepts | fetcher/types/types.go:815-859 | a cache call succeeds exactly when the event's keys are the versions right after the last one cached or fed and its withdraws follow the queue without a gap |
| LedgerRuns.CacheTakesAll | fetcher/types/types.go:826-859 | a successful cache call leaves the old cache and queue with all of the event added, and nothing else changed |
| LedgerRuns.CopiedUpToGap | fetcher/types/types.go:826-844 | whatever becomes of the call, exactly the event's versions before the first missing or cached one are added, each as it is |
| LedgerRuns.WithdrawsFollow | fetcher/types/types.go:845-859 | the withdraw loop appends all or stops; all exactly when they are new and consecutive |
| LedgerRuns.StepKeepsInv | fetcher/types/types.go:815-1059 | every call, failed or not, keeps the cache gap-free behind the feed, the queue sorted and ahead of it, stakers ahead of the feed queued, and lets no staker, validator or withdraw version go back |
| LedgerRuns.RunKeepsInv | fetcher/types/types.go:815-1059 | the same over any run of calls |
| LedgerRuns.BlockedForGood | fetcher/types/types.go:812-814 | once an applied deposit is left behind, no run of calls feeds its version any more |
| LedgerRuns.FailureIsIntactOrBlocks | fetcher/types/types.go:878-1059 | a failed grow or update leaves the ledger intact or blocked: no third outcome |
| CatchUp.StakerBothWays | fetcher/types/types.go:1079-1115 | one record, grown from the earlier feed version or read at the later one: same address and validators, and exactly when the same balance |
| CatchUp.CatchUpEquivalence | fetcher/types/types.go:1062-1145 | reset then grow gives each record the staker of the later reset; balance and withdraw version agree exactly under the named conditions |
| CatchUp.CatchUpCache | fetcher/types/types.go:1086-1096 | the cache after reset and grow is the cache of the later reset |
| CatchUp.CatchUpQueue | fetcher/types/types.go:1117-1131 | the queue after reset and grow is sorted and holds exactly what the later reset queues |
| CatchUp.CatchUpExactly | fetcher/types/types.go:1062-1145 | reset then grow is the ledger of the later reset if and only if every staker first covered on the way holds just its waiting deposits and keeps its withdraw version |
| CatchUp.CaughtIsListed | fetcher/types/types.go:1107-1115 | the detour brings no staker the snapshot does not list |
| CatchUp.SnapshotStartsWell | fetcher/types/types.go:1117-1131 | a full reset on a gap-free snapshot establishes the invariant of all runs |
| Snapshot.StakersAt | fetcher/types/types.go:1099-1115 | the snapshot's staker under a record's index is that of this record alone |
| Snapshot.RecordBalance | fetcher/types/types.go:1099-1106 | a record is refused exactly for a repeated validator or for a last balance, 0 if missing, below the unbounded sum of its waiting deposits; else the two make up the balance |
| Snapshot.AllWaitingEntry | fetcher/types/types.go:1088-1095 | every cached deposit is that of a listed validator behind the feed |
| Snapshot.AheadEntry | fetcher/types/types.go:1117-1122 | exactly the stakers ahead of the fed withdraw version are queued, with their own version |
| NstEvents.HandleStakers | internal/feeder/types.go:776-804 | caches the event, feeds a first deposit at once, and asks for the price reset exactly after cached withdraws |
| NstEvents.LaterEventCached | internal/feeder/types.go:776-783 | an event that does not start at version 1 is only cached: all of it exactly if it is the next one |
| NstEvents.RefusedEventKept | fetcher/types/types.go:812-860 | a refused event changes nothing if it starts elsewhere; else its deposits before the first gap stay cached, and leading withdraws if there is none |
| NstEvents.ApplyNSTBalanceUpdate | internal/feeder/types.go:430-456 | the root of no changes grows, the finalized tree's root applies its changes, any other root changes nothing |
| NstEvents.EmptyRootGrows | internal/feeder/types.go:435-442 | the root of no changes is answered with success exactly if the versions can be grown to, and then every staker and both caches are grown; else the ledger is intact or blocked |
| NstEvents.AgreedRootUpdates | internal/feeder/types.go:443-455 | the finalized tree's root is answered with success exactly if its changes can be applied, and then every staker is updated; else the ledger is intact or blocked |
| NstEvents.OtherRootRefused | internal/feeder/types.go:443-451 | any other root, and one whose data cannot be decoded, changes nothing |
| NstEvents.EventsKeepInv | internal/feeder/types.go:776-808 | no sequence of staker and balance events breaks the ledger's invariant |
| NstEvents.NewLedgerEvents | internal/feeder/types.go:776-808 | the invariant holds of whatever any sequence of events makes of a new feeder's empty ledger |
| NstEvents.FirstDepositFed | internal/feeder/types.go:782-793 | the first event is fed exactly when nothing was withdrawn before and its first deposit fits; else it stays cached and stakers are as before |
| FeederLoop.SignInfo.GetNextNonceAndUpdate | internal/feeder/types.go:53-66 | a nonce handed out is the round's next one; with a bound of at least 1, a counter within it stays within it |
| FeederLoop.SignInfo.RevertNonce | internal/feeder/types.go:68-72 | gives a nonce back only to its own round: another round changes nothing |
| FeederLoop.TwoPhasesInfo.AddMT | internal/feeder/types.go:156-181 | a later round starts over, an earlier or finalized one or a known root adds nothing; the flag says whether anything changed, and cached roots stay distinct |
| FeederLoop.TwoPhasesInfo.FinalizeRawData | internal/feeder/types.go:191-209 | finalizes a cached tree with the root, once per round; a foreign root leaves the second phase at its start; the bookkeeping invariant is kept |
| FeederLoop.TwoPhasesInfo.SetRoundID | internal/feeder/types.go:244-252 | only a later round clears trees and progress |
| FeederLoop.TwoPhasesInfo.UpdateNSTPieceIndex | internal/feeder/types.go:394-424 | an index taken in was not seen before and the next piece rises beyond it; the bookkeeping invariant is kept |
| FeederLoop.TwoPhasesInfo.NextSendablePieces | internal/feeder/types.go:354-391 | not in the second phase, nothing now, or pieces above the last one sent and inside the tree |
| FeederLoop.FeederRoutine.Send2ndPhaseTx | internal/feeder/types.go:590-629 | sends the window's pieces in order, puts the sent index back on a failure and stops there; the pieces of every round go on increasing |
| FeederLoop.FeederRoutine.Submit | internal/feeder/types.go:709-743 | takes a nonce, submits the root of the last cached tree or the price, and returns the nonce on failure |
| FeederLoop.FeederRoutine.SubmitFirstPhase | internal/feeder/types.go:661-743 | enters the round, caches the fetched tree, and submits only what is news next to the last agreed price |
| FeederLoop.FeederRoutine.HandleHeight | internal/feeder/types.go:635-745 | the loop's case for a height is the step of the state machine on the fields in place, and keeps the invariant of all runs at every height that is no fall |
| FeederLoop.FeederRoutine.HandlePrice | internal/feeder/types.go:746-767 | the same for an agreed, unreadable or reset price |
| FeederLoop.FeederRoutine.HandlePiece | internal/feeder/types.go:809-814 | the same for an acknowledged piece; the flag says whether it was taken in |
| TwoPhaseRuns.AcknowledgeInv | internal/feeder/types.go:394-424 | an acknowledgement taken in is new, raises the next piece beyond it and keeps it inside the tree; one refused changes nothing |
| Submissions.AckForm | internal/feeder/types.go:394-424 | an acknowledgement is taken in exactly if it is new and it and the next piece lie before the last; one ahead moves the next piece right behind it, any other by one |
| TwoPhaseRuns.AcksBounded | internal/feeder/types.go:403-420 | at most leaf count less one acknowledgements are taken in per finalized round |
| TwoPhaseRuns.WindowAhead | internal/feeder/types.go:354-391 | the pieces offered rise above the last one sent and stay within the window and the tree |
| Submissions.SecondPhaseForm | internal/feeder/types.go:354-391 | in the second phase, which is exactly from the agreement on, the pieces submitted are those from the first unsent and unacknowledged one to the window's end, in order, with none after a failure |
| TwoPhaseRuns.StepKeepsInv | internal/feeder/types.go:631-818 | every event keeps the invariant: window, increasing pieces, roots settled once, nonces in line, submissions in time |
| TwoPhaseRuns.RunKeepsInv | internal/feeder/types.go:631-818 | the same over every run at non-falling heights |
| TwoPhaseRuns.BaseOfRound | internal/feeder/types.go:877-887 | an active height lies in its round's interval, whose base block follows from the round number |
| Submissions.ActiveFromStartToEnd | internal/feeder/types.go:877-883 | active exactly from the start block to the end block, if there is one |
| Submissions.OpenSubmits | internal/feeder/types.go:641-743 | an open first phase caches the fetched tree last if its root is new, and submits exactly if the price is news by root and withdraw version and a nonce is left: one message with the round's next nonce |
| Submissions.OthersSubmitNothing | internal/feeder/types.go:635-815 | no other event submits anything of the first phase |
| Submissions.LastTreeSubmitted | internal/feeder/types.go:237-241 | a root an event submits is that of the tree cached last, with its leaf count; it is the fetched tree if its root was not cached before |
| Submissions.PriceSubmitted | internal/feeder/types.go:698-731 | a single-phase feeder submits exactly the fetched prices that, in its decimals, differ from the last one |
| Submissions.AgreementForm | internal/feeder/types.go:191-209 | an agreed root finalizes the current round's cached tree that has it; a foreign root leaves the trees cached; a finalized or other round is kept |
| Submissions.LastIsRemembered | internal/feeder/types.go:97-121 | the last price is that of the last readable price event; a reset forgets it, nothing else touches it |
| Submissions.WaitsForPrice | internal/feeder/types.go:636-640 | a height whose price is not in yet changes nothing |
| Delivery.NoncesOfRound | internal/feeder/types.go:53-72 | over any run, failures and reverts included, the i-th successful nonce of a round is i plus the number used up without a root, all within the bound; they start at 1 exactly if there were none of these or nothing was submitted |
| Delivery.WasteIsForeseen | internal/feeder/types.go:678-727 | an event uses up a nonce without a root exactly when, beforehand, its round has nothing cached or agreed, its price has no tree but is worth sending, and a nonce is left |
| Delivery.NoncesExactly | internal/feeder/types.go:678-743 | a round's nonces are gap-free from 1 if and only if no event on the way was such, or nothing was submitted |
| Delivery.NoncesAreCounted | internal/feeder/types.go:709-743 | if a tree can be derived for every price of the round, its successful nonces are exactly 1, 2, 3 and so on, whatever happens in other rounds |
| Delivery.SubmissionsTimed | internal/feeder/types.go:641-660 | every first-phase submission names its round's base block, comes within three blocks of it, and rounds never go back |
| Delivery.SubmittedCanFinalize | internal/feeder/types.go:191-242 | any root submitted for the current unfinalized round is still cached: the price event with it finalizes that tree |
| Delivery.RoundSettles | internal/feeder/types.go:191-217 | a round is finalized at most once; afterwards none of its roots is submitted; its pieces are of the agreed root |
| Delivery.PiecesOnlyRise | internal/feeder/types.go:590-629 | over any interleaving the successfully sent pieces of a round strictly increase |
| Delivery.WindowKept | internal/feeder/types.go:354-424 | the last piece sent never passes the window's end nor the tree's; acknowledged indexes are distinct and below the next piece |
| Delivery.SuccessFillsWindow | internal/feeder/types.go:590-629 | one round of successful sends fills the window whatever failed before |
| Delivery.StaysCaughtUp | internal/feeder/types.go:590-629 | every event of a chain that works leaves all pieces up to the window's end delivered, once and in order |
| Delivery.StepDelivers | internal/feeder/types.go:590-629 | whatever sends fail, acknowledgements in order of pieces sent leave the delivery without a gap; one success catches up |
| Delivery.CompleteDelivery | internal/feeder/types.go:354-424 | from agreement on, through any such events, the pieces sent are exactly the first ones up to the window's end, and all once the acknowledgements are in |
| Delivery.DeliveryDespiteFailures | internal/feeder/types.go:590-629 | after any failures since the agreement, one event that submits with success completes the window, and the tree at its end |
| Delivery.InOrderAcksDeliver | internal/feeder/types.go:809-815 | acknowledging 0 to the last but one in order delivers exactly the pieces of the tree |
| Exceptions.OverflowIsNotUndone | fetcher/types/types.go:543-568 | a grow that wraps a balance before it fails is not given back |
| Exceptions.FirstUpdateIsNotUndone | fetcher/types/types.go:1026-1030 | a first deposit stays applied when its balance update names an unknown staker |
| Exceptions.ShortQueueIsNotUndone | fetcher/types/types.go:939-942 | a withdraw version beyond the queue leaves the deposit applied |
| Exceptions.CatchUpMissesRewards | fetcher/types/types.go:927-931 | a ledger of a reset that grows, but not to the ledger of the later reset: the staker's chain balance exceeds its one deposit |
| Exceptions.CatchUpForgetsWithdraw | fetcher/types/types.go:927-931 | the same for a staker whose withdraw was fed before its deposit |
| Exceptions.FirstNonceIsWasted | internal/feeder/types.go:709-727 | the only submission of a first round carries nonce 2 after a price without a tree |
| DecimalScale.ConvertScales | internal/feeder/types.go:1212-1224 | the rescaled digits denote the price times the power of ten, rounded down, for any length |
| DecimalScale.ConvertComposes | internal/feeder/types.go:1212-1224 | two rescalings give the direct one exactly when the step between keeps enough digits or loses only zeros |
| BalanceDiff.BatchesPartition | fetcher/solana/solana_fetch.go:104-120 | batches of at most 100, all full but the last, none empty unless the list is, which together are the list in order |
| BalanceDiff.FetchBalance | fetcher/solana/solana_fetch.go:102-127 | the loop's balance is the running sum over the answers to the batches, and nothing if one fails |
| BalanceDiff.BatchingIsInvisible | fetcher/solana/solana_fetch.go:102-127 | with a service that answers per validator the batched sum is the sum over the whole list |
| BalanceDiff.BatchedSum | fetcher/solana/solana_fetch.go:102-127 | with such a service the fetched balance is the start plus all validators' balances, modulo 2^64 |
| BalanceDiff.AddAllIsSum | fetcher/solana/solana_fetch.go:115-117 | a running sum is the start plus all answers, modulo 2^64, for any service |
| BalanceDiff.FailsOnSomeBatch | fetcher/solana/solana_fetch.go:110-123 | nothing is fetched exactly if some batch fails |
| BalanceDiff.FetchSolanaChanges | fetcher/solana/solana_fetch.go:98-137 | fails exactly when some request fails; else lists exactly the stakers whose balance differs, strictly by index |
| BalanceDiff.FetchBeaconChanges | fetcher/beaconchain/beaconchain_fetch.go:152-222 | fails exactly when some look fails; else lists, strictly by index, exactly the stakers looked up whose balance differs or whose withdraw is newer than the last fetch |
| BalanceDiff.LookOutcome | fetcher/beaconchain/beaconchain_fetch.go:155-203 | a staker is passed over exactly without validators or with an unusable capsule; only its capsule or a batch makes the fetch fail |
| BalanceDiff.LookTotal | fetcher/beaconchain/beaconchain_fetch.go:181-206 | a staker's balance is its capsule's whole gwei plus its validators' balances, modulo 2^64 |
| BalanceDiff.DiffThenPatch | fetcher/types/types.go:1035-1057 | applying the diff of held and fetched balances at the same versions succeeds, touches balances only, and makes all of them the fetched ones exactly when no differing staker is ahead of the feed |
| BalanceDiff.ListThenPatch | fetcher/types/types.go:1035-1057 | any list of known stakers, applied at the ledger's own versions, gives just those not ahead of the feed their listed balance |
| BalanceDiff.BeaconThenPatch | fetcher/beaconchain/beaconchain_fetch.go:155-216 | applying what the beacon fetcher lists succeeds, stakers passed over or listed again included: each gets the balance looked up unless it is ahead of the feed, and nothing else changes |
| BalanceDiff.FetchedListIsDiff | fetcher/solana/solana_fetch.go:128-134 | the fetched list is the diff of fetched and held balances |
| StakerEvents.ParseStakerEvents | imuaclient/types.go:370-446 | fails exactly on a text with a single entry, an unreadable entry or a repeated deposit version of a feeder; else gives each feeder mentioned the event of its own entries |
| StakerEvents.SingleEntryRefused | imuaclient/types.go:373-375 | a block with one staker change is refused, though its entry can be read |
| StakerEvents.EdgeSeparatorRefused | imuaclient/types.go:377-385 | a separator before or behind the entries does not help |
| StakerEvents.LeastAndGreatest | imuaclient/types.go:424-429 | for versions from 1 on, next and latest version are the least and greatest deposit version |
| StakerEvents.DepositsAreEntries | imuaclient/types.go:421-444 | an event holds exactly the versions of its feeder's deposit entries |
| StakerEvents.DepositContents | imuaclient/types.go:409-444 | each deposit has its entry: index, address, validator and amount are the entry's |
| StakerEvents.WithdrawsAreEntries | imuaclient/types.go:413-420 | an event's withdraws are its feeder's withdraw entries, in order |
| StakerEvents.ReadableIffClean | imuaclient/types.go:381-446 | the entries are readable exactly if none is unreadable and no feeder has two deposits of one version |
| StakerEvents.EntryReadBack | imuaclient/types.go:381-388 | an entry written with seven plain fields, the first of them deposit, is read as these fields; any other is unreadable |
| StakerEvents.TextReadBack | imuaclient/types.go:377-382 | a text of several entries is read entry by entry |
| StakerEvents.NextIsLeastUnlessZeroFollowed | imuaclient/types.go:427-429 | the next version is the least one unless a version 0 is followed by another deposit |
| StakerEvents.VersionZeroIsForgotten | imuaclient/types.go:427-429 | an event in which it is not |
| StakerEvents.DepositEventAccepted | imuaclient/types.go:409-444 | the cache takes a deposit event exactly when its versions are the gap-free block after the last version cached or fed |
| StakerEvents.WithdrawsAloneRefused | fetcher/types/types.go:819-824 | an event of withdraws alone is refused without effect |
| Splitting.SplitAcross | imuaclient/types.go:544 | splitting distributes over a separator |
| Splitting.JoinSplit | imuaclient/types.go:547 | joining the parts of a split gives the text back |
| Splitting.SplitJoin | imuaclient/types.go:377-382 | splitting gives joined parts back, if none holds the separator |
| Splitting.SplitsIffHolds | imuaclient/types.go:373-377 | a text has more than one part exactly when it holds the separator |
| FinalPrice.FieldsRecovered | imuaclient/types.go:544-550 | every field of a record comes back, whatever separators its price holds |
| FinalPrice.RecordRecovered | imuaclient/types.go:544-550 | every record of four parts or more is the record of the fields read from it |
| FinalPrice.ReadFinalPrices | imuaclient/types.go:540-581 | valid exactly when there are records and all decode, the token in 64 and the decimal in 32 bits; the prices are the records' fields in order, and a failure keeps those before an undecodable price and none before an undecodable number |
| WsRestart.WsClient.StopWsRoutines | imuaclient/subscribe.go:128-140 | afterwards the channel is closed and no other has changed; a second call closes nothing, and no channel is closed twice |
| WsRestart.Subscriber.Supervise | imuaclient/subscribe.go:45-104 | the supervisor's turn, through the client's locked methods, is the step of the protocol and keeps its invariant |
| WsRestart.Subscriber.MoveRoutine | imuaclient/subscribe.go:216-311 | the same for a routine that sees its channel closed, stops the others, or gives its count back |
| WsRestart.Subscriber.CloseWs | imuaclient/client.go:122-128 | closing from outside keeps the invariant at any moment |
| WsRestart.StepKeepsInv | imuaclient/subscribe.go:41-73 | every interleaved step keeps the protocol's invariant |
| WsRestart.CounterIsExact | imuaclient/subscribe.go:142-171 | over any interleaving the counter is the number of routines running or about to, at most two |
| WsRestart.TwoRoutinesEach | imuaclient/subscribe.go:83-104 | a supervisor that listens has started exactly two routines for its connection |
| WsRestart.NewConnectionAtZero | imuaclient/subscribe.go:52-70 | a new connection is made only when every earlier routine has ended |
| WsRestart.RoutinesAreCurrent | imuaclient/subscribe.go:216-311 | a live routine holds the current connection's channel, so it can only stop its own generation |
| WsRestart.ChannelsCloseOnce | imuaclient/subscribe.go:128-140 | no channel is closed twice or before it is made |
| WsRestart.NothingIsRefused | imuaclient/subscribe.go:142-164 | no start is ever refused and the floor at zero is never needed |
| WsRestart.DrainingOnlyShrinks | imuaclient/subscribe.go:50-68 | while the supervisor waits, every effective step brings the routines nearer to their end |
| WsRestart.DrainCanFinish | imuaclient/subscribe.go:50-70 | from every waiting state the routines can end and the supervisor connect again |
| WsRestart.CanReconnect | imuaclient/subscribe.go:41-73 | from any state of any run short of a panic the next connection can still be made |

## Left out

- Versions, staker indexes and rounds are unbounded naturals: wrap-around of version counters near 2^64 and narrowing of indexes to 32 bits are not modelled; nor is the sign of chain balances converted to 64 bits.
- WsRestart.WsClient.ReplaceStop: the source makes the new channel without holding the lock; here making it and marking the connection active are one step.
- Locks, concurrent readers of the ledger, and the copies handed to fetchers (`GetStakerInfos`, `SetNSTStakers`); operations are atomic.
- The backing arrays of validator lists: lists are values here, so sharing of one array between a copy and the live staker is not seen.
- StakerObjects.Stakers.PutUpdates, StakerObjects.Stakers.Merge: the source's loops over a map are one map union, as no order of theirs can be told apart.
- StakerInfos.Remove, AddAllOrNone, RemoveAllOrNone and both Update methods, which nothing in the modelled flow calls.
- CatchUp.CatchUpExactly: compares withdraw queues by their contents and order of versions; entries of equal version may be ordered differently.
- LedgerRuns.RunKeepsInv: runs consist of cache, grow and update calls; a full reset starts a new run (`CatchUp.SnapshotStartsWell`), and a reset that is not for all is modelled but never called by the feeder.
- Merkle trees are a root and a leaf count with pieces exactly below it: deriving trees, proofs, hashing and message encodings are not part of this model; the bytes of an agreed tree decode to some balance changes or to none.
- TwoPhaseRuns.RunKeepsInv: parameters stay fixed (`updateFeederParams` is not an event), heights do not fall, the interval is positive and the nonce bound at least 1.
- FeederLoop.FeederRoutine.HandlePrice: an agreed price that is not base64 of at least 32 bytes makes the source panic when it cuts the root; here it is an unreadable price without effect.
- FeederLoop.FeederRoutine.SubmitFirstPhase: the withdraw versions inside round identifiers are inputs that may be missing; their string format is not modelled.
- NstEvents.HandleStakers: the replies sent back on a failed first grow, of which the source sends two, are not modelled.
- Channels between feeders, dropped triggers, logging, response logs and all liveness or timing claims.
- BalanceDiff.FetchSolanaChanges, BalanceDiff.FetchBeaconChanges: the service is a function of the batch asked for; epochs, finalized watermarks, cached result bytes and retries around the loop are left out.
- StakerEvents.ParseStakerEvents: how the seven fields of an entry read, as numbers and hex, is an arbitrary function; the order in which several faults of one text are found is not modelled.
- FinalPrice.ReadFinalPrices: needs four parts per record, where the source indexes beyond the end and panics; the number and base64 syntaxes are arbitrary predicates.
- Sorting.Sort: stands for the library's sort; equal keys keep their order here, which the library does not promise and no theorem uses.
- WsRestart.StepKeepsInv: message reading, retries and timeouts are the outcomes of a step; `sendAllSubscribeMsgs` either succeeds or ends the process.
- Query pagination (`GetStakerInfos` of the chain client), network clients, configuration, signing and commands.
