# Ganji backend: a verified model of its escrow, limits, proofs and artifacts

Ganji holds a client's sats in a Lightning hold invoice, releases them to a freelancer or returns
them, and keeps hash-anchored evidence of the work. This project models the parts of the Go
backend where an interleaving, a crash or a lost answer could cost somebody money or a file, and
proves what they guarantee over whole runs. `dafny verify dfyconfig.toml` checks everything.

## How it is built

- `Deals`, `LNbits`: statuses, the transition table, and what each LNbits answer means to the code.
- `Wallet`: when LNbits' raw answers, its status words and HTTP codes, are true of a hold or a
  payout. Nothing more is assumed of the network.
- `Escrow`: one deal as a step system. Its state is the row, the hold, every payout sent for it and
  an unbounded list of calls in flight with their local variables. One row-locked transaction or
  one UPDATE is one step; between two steps of a call any other step may happen, including that
  call's crash. Network answers are part of a step's label.
- `EscrowSafety`, `EscrowRuns`, `EscrowOrder`, `Solvency`: the money invariant, the theorems over
  runs, the lifecycle order, and any number of deals.
- `EscrowRecovery`, `EscrowArrival`, `EscrowReset`, over `EscrowReach`: exactly when a deal can still
  be released and paid, when released also means paid, and when reset_payout is safe, in lawful
  runs; `EscrowStale`: the same conditions when freelancers' writes may land anywhere.
- `EscrowLimits`: concrete runs showing that each assumption is needed.
- `EscrowService`: the row and the service as classes. Each method mutates its fields as the Go
  code does and takes LNbits' raw answers as arguments. A method that is one transaction ensures that
  the new state is exactly one step of `Escrow`; so the theorems are about every interleaving of
  these. `HandlePayment`, `RefreshPaymentStatus`, `PublicApprove`, `SettleOrClear`, `PayOrClear`,
  `MoneyLegs`, `CompleteRelease` and `ReleaseEscrow` are several steps in a row, with nobody acting
  in between. Each contract also says what the call does in terms of the row, the hold and the raw
  answers.
- `HoldSweep`, `RateLimit` (with `Quotients`), `OpenTimestamps`, `ArtifactStore` and
  `ArtifactService`, `Anchors`, `DealCreation`: the sweep loop, the token bucket, proof upgrade and
  verification, blobs and rows, CV anchors, and deal creation. `Results` holds Option and Result.

## What is assumed about the world

- A hold is settled at most once or dead at most once, and stays so (BOLT #2, "Removing an HTLC").
  A hold reported UNPAID, EXPIRED or CANCELLED to a refund or to the sweep is dead: it will never
  hold funds again. LNbits answers the status of a hold or payout truthfully, or not at all: HOLD and
  ACCEPTED are said only of a held hold, SETTLED only of a settled one (`Wallet.TrueOfHold`).
- A payout's failure or success is final, and every PayInvoice that reaches LNbits gets an id of
  its own. A readable answer below 300 took the payment and a readable answer from 300 to 499 sent
  nothing; anything else may be either (`Wallet.TrueOfPayment`).
- `Honest`: confirm_payout names a payout of this deal; when reset_payout clears, no payout of the
  deal is pending or paid and no release that may still pay is running. That promise is what the
  inductive invariant needs (`ConfirmIsSafeIff`, `ClearingIsSafeIff`). What a clear itself needs is a
  little less: a release that waits for phase 3 over a payout that failed may stay
  (`ResetIsSafeIff`; `StaleResetIsSafeIff` when writes may be stale).
- `Lawful`: a freelancer's unguarded status write lands where the table allows it. This holds of
  itself when the write follows its own read with nothing in between, and `LifecycleIffLawful`
  shows that it is exactly what the lifecycle needs.

Each theorem names the assumptions of its runs: `HONEST`, `LAWFUL`, `HONEST_LAWFUL`, `NOTHING`, and
for what can be brought about also `HONEST_STEADY` (honest, and no call of the service dies),
`STEADY` (lawful as well) and `UNAIDED` (steady, and the network does nothing on its own but answer).
A claim that something is within reach chooses the order of the steps and LNbits' answers. The money
theorems do not need lawful writes. The lifecycle theorems do, and do not need honest operators. The
theorem about awaiting_payment needs neither.

## Where the code does less than it says

- A stale PATCH or submit can erase a dispute or reopen a released deal
  (`StaleWriteErasesDispute`, `StaleWriteReopensReleased`): `UpdateStatus` reads without a lock and
  writes without a guard. No money is lost by it, but the freeze is; `DisputeHoldsIff` says exactly
  when.
- reset_payout does not look for a running release; resetting while one has not sent yet leads to
  two payouts (`ResetWhileRunningPaysTwice`, and in general `ResetUnderSenderPaysTwice`).
  `ResetIsSafeIff` says exactly when a reset is safe, and `StaleResetIsSafeIff` when it is safe
  whatever stale writes do. It also clears a deal that was released since it was read.
- confirm_payout asks LNbits whether the named payment was made, not whose it was: with the id of
  somebody else's payment it releases a deal over a held hold with no payout (`ForeignConfirmReleases`).
- `released` means that LNbits accepted a payout. It may fail afterwards, and then the deal is closed
  with nobody paid (`ReleasedCanStayUnpaid`). It may even have failed before: phase 3 records the
  payout without looking at it again (`ReleasedOverFailedPayout`). A deal released by confirm_payout,
  or by a release that found its payout paid, stays paid; a fresh release stays paid exactly when its
  payout had arrived by the commit (`ReleaseStaysPaidIff`).
- `ReconcilePayout` is there to rescue a deal whose payout is hung. It cannot rescue one release: if
  it was authorized from disputed and its payout fails before phase 3, then in lawful runs nothing
  but the death of that call stops it, and it closes the deal unpaid (`DisputeReleaseCanBeDoomed`).
  Only a stale write can reopen such a deal (`StaleNoDeadEndIff`). Nor can it rescue a deal without a
  preimage, below. Every other one it can (`NoDeadEndIff`, `RecoveryUnaidedIff`).
- `clearPayoutAttempt` says settlement provably did not complete. A settle whose answer and whose
  status check are both lost may have completed (`LostSettleIsCleared`; `ClearedOverSettledIff` says
  exactly when the marker is cleared over a settled hold). Clearing is safe for another reason:
  nothing was paid yet.
- The sweep refunds locked, work_submitted and reviewing deals, edges `ValidTransitions` does not
  list. `PublicApproveDeal` lets locked through its first check and turns it away at the second,
  unless a submit lands in between: then the approval of a deal that was read as awaiting_payment
  goes through (`SubmitLetsApprovalThrough`).
- Anchors are meant for released work only. An artifact deleted after its release loses its anchor
  with its row. A deal that a stale write takes out of released keeps its anchors
  (`ReopenedAnchorStays`; `NeverStraysIff` says exactly when that cannot happen).
- The repository ignores an error from encrypting the preimage and stores none. Such a deal can
  never be released (`RestartSavesIffPreimage`).
- `UploadArtifact` deletes the blob when the insert reports an error. If the insert was stored and
  only its answer was lost, the row is left without its blob (`LostInsertAnswerDanglesRow`).
- `Upgrade` is documented to return a Bitcoin-attested proof. It splices whatever tail the calendar
  gives; `ConfirmedIffTailsAttested` says when the result is confirmed.
- Evicting idle visitors goes unnoticed up to `rate * perToken` of ten minutes and one nanosecond,
  and not beyond (`EvictionInvisibleIff`).

## Model

| member | source | states |
|---|---|---|
| Deals.LegalChangesDescend | backend/internal/deals/types.go:218-247 | Every edge of the transition table, and every sweep edge, leads strictly down a rank; a status can be left exactly when it is neither released nor refunded. |
| Deals.ReachedFrom | backend/internal/deals/types.go:219-232 | The table read backwards: what each status can be reached from; money is released only for submitted work, only deals past payment are disputed, and only an unpaid or a disputed deal is refunded by the table. |
| Deals.FreelancerMoves | backend/internal/deals/service.go:238-251 | By hand a freelancer can only submit, before or after the payment was noticed, and mark submitted work as under review. |
| Deals.OpenIsNotTerminal | backend/internal/deals/repository.go:370-377 | The sweep looks at exactly the five statuses that are not released or refunded. |
| LNbits.VerdictsDisjoint | backend/internal/deals/service.go:536-554 | No single status answer makes a hold count as settled and as returned, or a payout as paid and as failed. |
| LNbits.CheckOutgoingPayout | backend/internal/deals/service.go:518-554 | A payout counts as paid exactly when LNbits says paid with one of four words, as failed exactly for one of four others, and as undecided otherwise. |
| LNbits.ClassifyPay | backend/internal/lnbits/client.go:217-241 | A payment counts as accepted exactly for a readable answer below 300, as refused exactly for a readable one from 300 to 499, and as ambiguous otherwise, a 503 with a body included. |
| Wallet.EveryTruePaymentIsAStep | backend/internal/lnbits/client.go:217-241 | The escrow has a payout step for a raw answer if and only if that answer is true of whether the payment was sent: a 5xx or a lost answer goes with both. |
| Wallet.EveryTrueSettleIsAStep | backend/internal/deals/service.go:497-510 | It has a settle step for every true answer to the settle call and to the status check behind it. |
| Wallet.AuthorizedIff | backend/internal/deals/service.go:309-321 | The client may have a deal released from work_submitted, reviewing and disputed, an operator from disputed only. |
| EscrowSafety.BeginKeepsInv | backend/internal/deals/service.go:366-420 | Phase 1 never lets a second call that may pay start: it keeps the money invariant whatever the earlier payout's report. |
| EscrowSafety.SettleKeepsInv | backend/internal/deals/service.go:422-432 | The settle leg keeps the invariant, also when its answer is lost; the pay leg is reached only over a settled hold. |
| EscrowSafety.PayKeepsInv | backend/internal/deals/service.go:434-448 | After any answer to PayInvoice at most one payout is live and the row still tracks it. |
| EscrowSafety.FinalizeKeepsInv | backend/internal/deals/service.go:450-483 | Phase 3 keeps the invariant: a release is recorded only over a settled hold with a payout behind it. |
| EscrowSafety.ClearingIsSafeIff | backend/internal/deals/repository.go:342-363 | Clearing the payout columns keeps the inductive money invariant if and only if no payout is live and no other release may still pay; that is the operator's promise, and the state in which a failed leg clears. |
| EscrowSafety.ConfirmKeepsInv | backend/internal/deals/service.go:751-796 | A truthful confirm_payout keeps the invariant. |
| EscrowSafety.ConfirmIsSafeIff | backend/internal/deals/service.go:757-786 | confirm_payout keeps the money invariant if and only if the id names a payout of this deal or the call changes nothing. |
| EscrowSafety.RefundKeepsInv | backend/internal/deals/service.go:695-726 | A refund keeps the invariant: it is recorded only over a dead hold, also when the cancel took effect and the commit failed. |
| EscrowSafety.StepKeepsInv | backend/internal/deals/service.go:361-491 | Every step of every actor, crashes and stale writes included, keeps the money invariant when operators are truthful. |
| EscrowRuns.NoSecondPayout | backend/internal/deals/service.go:383-448 | In no run does a deal have two payouts that are both not failed. |
| EscrowRuns.PayoutsFollowSettlement | backend/internal/deals/service.go:422-448 | In every run a payout is sent only over a settled hold and only when every earlier payout has failed. |
| EscrowRuns.ReleaseIsBacked | backend/internal/deals/service.go:478-483 | Only phase 3 and confirm_payout make a deal released; the hold is settled by then, and LNbits has accepted a payout of this call or reported one paid. An accepted one may have failed again, which phase 3 does not look at. |
| EscrowRuns.ReleasedXorRefunded | backend/internal/deals/service.go:827-851 | No run records a deal as released at one moment and refunded at another, even with stale writes in between. |
| EscrowOrder.LegalIffLawful | backend/internal/deals/service.go:228-253 | A step keeps to the lifecycle if and only if it is not an unguarded write onto a status from which the table forbids its target. |
| EscrowOrder.UninterruptedPatchIsLawful | backend/internal/deals/service.go:249-252 | An unguarded write directly after its own read is lawful. |
| EscrowOrder.LifecycleIffLawful | backend/internal/deals/types.go:218-247 | A whole run keeps to the lifecycle if and only if each unguarded write in it is lawful. |
| EscrowOrder.ChangesSpendRank | backend/internal/deals/types.go:218-247 | Along a lawful run the number of status changes plus the final rank is at most the initial rank. |
| EscrowOrder.AtMostFiveChanges | backend/internal/deals/types.go:218-247 | A lawful run from creation changes the status at most five times. |
| EscrowOrder.TerminalIsForever | backend/internal/deals/types.go:230-231 | In a lawful run released and refunded are never left. |
| EscrowOrder.DisputeFreezes | backend/internal/deals/service.go:463-472 | In lawful runs, after a dispute commits only a release authorized from disputed later, an operator refund, the sweep or confirm_payout ends it; a release already running then leaves the row and its payout marker untouched in phase 3. |
| EscrowOrder.DisputeHoldsIff | backend/internal/deals/service.go:614-623 | After a dispute in a lawful run, and along any run at all from there: the deal leaves disputed only in those ways if and only if no unguarded write lands on disputed. |
| EscrowOrder.PaidIsSeenFirst | backend/internal/deals/service.go:890-898 | A call may lock or notify only after LNbits reported the invoice paid, which it does only for a held or settled hold. |
| EscrowOrder.LockedOnceAfterPayment | backend/internal/deals/repository.go:420-436 | In any run at all awaiting_payment is never re-entered and the payment-locked notification goes out at most once, after a paid report. |
| EscrowRecovery.RecordedPayout | backend/internal/deals/service.go:386-406 | A recorded payout that is decided lets the deal be released: confirmed without paying again, failed by paying afresh. |
| EscrowRecovery.UnrecordedPayout | backend/internal/deals/service.go:742-819 | A bare marker is no dead end: if its payout arrived, confirm_payout releases the deal even while calls are running; if nothing is live and no release is behind the marker, reset_payout and a fresh release do. |
| EscrowRecovery.Recover | backend/internal/deals/service.go:361-491 | With every payout decided and the deal not doomed, the one release in flight can be brought to its own end and the deal to released with exactly one live payout, no call dying and the network only answering. |
| EscrowRecovery.NoDeadEndIff | backend/internal/deals/service.go:407-411 | From every reachable open deal whose hold is held or settled, in lawful runs in which no call dies: released with the payout arrived is within reach if and only if the row has its preimage and no release authorized from disputed stands before phase 3 over a failed payout. |
| EscrowRecovery.RestartSavesIffPreimage | backend/internal/deals/service.go:341-344 | When calls may also die, in lawful runs, the preimage alone decides. |
| EscrowStale.StaleNoDeadEndIff | backend/internal/deals/service.go:249-252 | When freelancers' writes may land anywhere and no call dies: delivery is within reach if and only if the row has its preimage and the deal is not doomed, or a write that can reopen it is pending or can still be read for. |
| EscrowRecovery.RecoveryUnaidedIff | backend/internal/deals/service.go:728-741 | Once every payout is decided, code steps and truthful operator steps, with no call dying and the network only answering, reach released with exactly one live payout under exactly the same condition. |
| EscrowRecovery.AnyVerdictWillDoIff | backend/internal/deals/service.go:351-360 | Whichever verdict LNbits gives a pending payout, recovery follows, except that a failure needs no release authorized from disputed to stand before phase 3 at that moment; with it there is no recovery. |
| EscrowRecovery.DeadHoldIsSwept | backend/internal/deals/service.go:959-977 | An open deal over a dead hold is brought to refunded by the sweep alone, with no payout touched. |
| EscrowLimits.StaleWriteErasesDispute | backend/internal/deals/service.go:252 | A run of truthful operators in which a stale status write erases a dispute and a release begun before it goes through. |
| EscrowLimits.StaleWriteReopensReleased | backend/internal/deals/service.go:252 | A run in which a stale status write moves a released deal back to reviewing. |
| EscrowLimits.ResetWhileRunningPaysTwice | backend/internal/deals/service.go:798-814 | A run in which a reset, made while nothing is live but a release is running, leads to two live payouts. |
| EscrowLimits.ForeignConfirmReleases | backend/internal/deals/service.go:757-786 | With a foreign payment's id confirm_payout releases a deal over a merely held hold, with no payout. |
| EscrowReset.ResetOverLivePaysTwice | backend/internal/deals/service.go:798-814 | From every open deal over committed sats with a preimage and a live payout, a reset leads to a second live payout. |
| EscrowReset.ResetUnderSenderPaysTwice | backend/internal/deals/service.go:798-814 | From every open state with a preimage and a release about to settle, to pay or to clear behind a failed leg, whether the client has paid already or only will, a reset leads to two live payouts. |
| EscrowReset.SafeReset | backend/internal/deals/service.go:798-814 | If nothing is live and every release in flight has sent, no lawful run after the reset has two live payouts; nor has any run, if no payout in flight came with an id. |
| EscrowReset.ResetIsSafeIff | backend/internal/deals/service.go:798-814 | From any reachable state: after the reset no lawful run has two live payouts, if and only if at that moment no payout is live and no release stands before its payout or before its own clear, or the deal is over (terminal, hold dead or no preimage). |
| EscrowStale.StaleResetIsSafeIff | backend/internal/deals/service.go:798-814 | The same for any writes: no run of truthful operators after the reset has two live payouts, if and only if the hold is dead, there is no preimage, the deal is closed with no write pending, or nothing is live or unsent and no release that carries a failed payout's id can close the deal for a later write to reopen; those cases are listed. |
| EscrowStale.NoPatchIsLawful | backend/internal/deals/service.go:228-252 | With no freelancer's write pending, in a status that allows none to be read for, every run is lawful. |
| EscrowLimits.StaleWriteAfterResetPaysTwice | backend/internal/deals/service.go:475-483 | Why that needs lawful writes: a run in which a failed release left under a reset records its payout's id, a stale write reopens the deal, and two payouts are live. |
| EscrowLimits.ReleasedCanStayUnpaid | backend/internal/deals/service.go:478-485 | A lawful, honest run that ends released with one payout, and that payout failed after the commit. |
| EscrowLimits.ReleasedOverFailedPayout | backend/internal/deals/service.go:475-483 | Phase 3 can release a deal, and record the payout, when its only payout had already failed. |
| EscrowLimits.DisputeReleaseCanBeDoomed | backend/internal/deals/service.go:467-483 | A reachable open, funded deal from which no lawful run without the death of a call ends paid: an operator's release from disputed over a failed payout; its next step closes the deal unpaid. |
| EscrowArrival.StaysPaidIff | backend/internal/deals/service.go:512-532 | A deal keeps a payout that has not failed, whatever happens, if and only if LNbits reports one of its payouts paid. |
| EscrowArrival.ReleaseStaysPaidIff | backend/internal/deals/service.go:386-406 | A released deal stays paid if and only if it was released by confirm_payout, by a release that found its recorded payout paid, or by a fresh release whose payout had arrived by the commit. |
| EscrowLimits.ClearedOverSettledIff | backend/internal/deals/service.go:425-432 | When a release clears the marker behind itself, whatever happened since its settle leg, the hold is settled if and only if it was settled before or that settle took effect; the answers do not matter. |
| EscrowLimits.LostSettleIsCleared | backend/internal/deals/service.go:425-432 | A run to a settled hold, no payout and a cleared row: the settle took effect, and its answer and the status check were lost. |
| Solvency.NeverInsolvent | backend/internal/deals/service.go:422-448 | Over any history of any number of deals live payouts never outnumber settled holds, and if no payee invoice exceeds its deal's amount, sats paid out never exceed sats settled. |
| EscrowService.DealRow.UpdateStatusIfCurrent | backend/internal/deals/repository.go:420-436 | The status changes exactly when it was the expected one, the answer says whether it did, and no other column changes. |
| EscrowService.DealRow.ClearPayoutTracking | backend/internal/deals/repository.go:342-363 | Both payout columns are reset and the status is kept. |
| EscrowService.Service.BeginRelease | backend/internal/deals/service.go:366-420 | Phase 1 goes on exactly for somebody who may release when the recorded payout is said to be paid or nothing can have been sent; the row, the marker and the call it leaves are given exactly; a refusal says which of the two was missing and changes nothing. |
| EscrowService.Service.PublicBeginRelease | backend/internal/deals/service.go:1450-1466 | The public approval after its refresh is phase 1 behind a check on a status read earlier: it goes through exactly when that status was locked or work_submitted and phase 1 accepts the row as it is now, so not from locked itself, but also when the deal was submitted or disputed in between. |
| EscrowService.Service.PublicApprove | backend/internal/deals/service.go:1435-1466 | With the refresh in front, if nobody acts in between: a deal read as awaiting_payment is locked when LNbits reports it paid, left alone otherwise, and turned away either way; errors of the refresh are ignored. |
| EscrowLimits.SubmitLetsApprovalThrough | backend/internal/deals/service.go:1446-1459 | If a submit lands between the refresh and phase 1, the approval of a deal read as awaiting_payment starts a release. |
| EscrowService.Service.SettleHold | backend/internal/deals/service.go:497-510 | The settle leg succeeds exactly when there is a preimage and LNbits accepted the settle or reports SETTLED. |
| EscrowService.Service.SettleOrClear | backend/internal/deals/service.go:422-432 | A failed settle leg clears both payout columns; the hold is then settled exactly when it had been before or this settle took effect unheard. |
| EscrowService.Service.PayInvoice | backend/internal/lnbits/client.go:191-243 | The payout leg for every HTTP outcome: a readable answer below 300 is a success that remembers the payout and its id if it has one, a readable 3xx or 4xx a refusal, anything else leaves the payout in flight. |
| EscrowService.Service.FinishRelease | backend/internal/deals/service.go:450-483 | Phase 3 releases exactly from work_submitted, reviewing, or disputed when the call was authorized there; it records the call's payout id unless one is recorded, and an abort leaves the row alone. |
| EscrowService.Service.CompleteRelease | backend/internal/deals/service.go:422-490 | Phases 2 and 3 undisturbed: a release that found its payout paid just closes the deal; any other succeeds exactly when the hold is settled and the payment taken, and names the leg that failed. |
| EscrowService.Service.ReleaseEscrow | backend/internal/deals/service.go:361-491 | The whole call undisturbed is a run of steps that keeps the money invariant. It succeeds if and only if the caller may release and either the recorded payout has arrived, or nothing can have been sent before, the hold is settled and the payment is taken; the row, the hold and the payouts are given for success and for each of the four errors. |
| EscrowService.Service.RefundDispute | backend/internal/deals/service.go:695-726 | Only a disputed deal is refunded, exactly when LNbits accepted the cancel or says UNPAID, EXPIRED or CANCELLED; otherwise the row stays. |
| EscrowService.Service.ConfirmPayout | backend/internal/deals/service.go:752-796 | Exactly a payout said to be paid releases the deal, from work_submitted, reviewing or disputed, recording that payout and keeping the marker; each failure says why and changes nothing. |
| EscrowService.Service.ReadForReset | backend/internal/deals/service.go:798-808 | A reset is accepted exactly for a deal that is neither released nor refunded and has a payout marker or id. |
| EscrowService.Service.ClearForReset | backend/internal/deals/service.go:809-814 | The clear keeps the money invariant if and only if the operator's promise holds at that moment. |
| EscrowService.Service.ReadForUpdate | backend/internal/deals/service.go:228-251 | A freelancer's update is accepted exactly to submit an awaiting or locked deal, or to mark submitted work as under review. |
| EscrowService.Service.WriteDispute | backend/internal/deals/service.go:614-623 | A dispute is recorded exactly when the status is still the one it was read from. |
| EscrowService.Service.LockPaid | backend/internal/webhook/service.go:77-83 | Only the caller that moved the deal out of awaiting_payment goes on to notify. |
| EscrowService.Service.HandlePayment | backend/internal/webhook/service.go:54-86 | A notification takes effect exactly when LNbits itself reports the payment and a deal has its checking id; it then moves awaiting_payment to locked and says whether it did. |
| EscrowService.Service.RefreshPaymentStatus | backend/internal/deals/service.go:890-912 | The poll and the public view lock the deal under the same condition, if the status they read earlier was awaiting_payment; otherwise nothing changes. |
| EscrowService.Service.WriteUpdate | backend/internal/deals/repository.go:397-418 | The freelancer's write sets its target whatever the status has become, and no other column. |
| HoldSweep.SnapshotExact | backend/internal/deals/repository.go:370-395 | The snapshot holds exactly the open deals older than the cutoff, each once, in order, as read. |
| HoldSweep.DealTable.SweepListed | backend/internal/deals/service.go:952-983 | With other writers changing statuses before every update and updates that err: each update is applied exactly to a row that still has its listed status and whose hold is reported gone, and exactly the applied and answered ones are counted. |
| HoldSweep.DealTable.SweepExpiredHolds | backend/internal/deals/service.go:946-984 | The same from the snapshot on: every one of the sweep's own writes takes a deal in one of the five open statuses, unchanged since it was listed and whose hold LNbits said is UNPAID, EXPIRED or CANCELLED, to refunded, and touches nothing else. |
| HoldSweep.UndisturbedSweep | backend/internal/deals/service.go:946-984 | With nobody else at work and no erring update, exactly the old open deals whose hold is reported gone are refunded, and the result is their number. |
| HoldSweep.SweepRefundsTheDead | backend/internal/deals/service.go:946-984 | With true answers an undisturbed sweep refunds exactly the deals older than the cutoff, in one of the five open statuses, whose hold is dead; a deal whose sats are held or settled stays as it is. |
| HoldSweep.SecondSweepMovesNone | backend/internal/deals/service.go:946-984 | After such a sweep a second one with the same answers moves no row and counts none. |
| HoldSweep.SweepIsReadAndWrite | backend/internal/deals/service.go:946-984 | For one deal, listing it and its update, with any run of the escrow in between, is a run of the escrow, and the table row ends with the deal's status. |
| RateLimit.GrantsBounded | backend/internal/middleware/ratelimit.go:48-82 | Over any interval a key is granted at most rate requests plus one for each full perToken of the interval. |
| RateLimit.EveryKeyBounded | backend/internal/middleware/ratelimit.go:33-82 | The bound holds for each key of the running limiter, whatever other keys do and whenever cleanup runs, if buckets refill within the eviction age. |
| RateLimit.SpacedCallsGranted | backend/internal/middleware/ratelimit.go:62-80 | From any bucket, a caller whose calls are at least perToken apart is refused at most its first call, exactly when it finds the bucket empty less than perToken after its last refill. |
| RateLimit.BurstGrantsTokens | backend/internal/middleware/ratelimit.go:48-82 | Of n calls at one moment exactly min(n, tokens) are granted, where tokens are those saved plus one per full perToken since the last refill, at most rate; what is left and when it was last refilled follow. |
| RateLimit.ServedBucketOk | backend/internal/middleware/ratelimit.go:53-80 | Between calls a visitor has between 0 and rate - 1 tokens. |
| RateLimit.SameAnswers | backend/internal/middleware/ratelimit.go:33-46 | If buckets refill within the eviction age, the evicting limiter simulates the one that never evicts: same answers on every trace. |
| RateLimit.EvictionInvisibleIff | backend/internal/middleware/ratelimit.go:33-46 | No trace of calls tells the two limiters apart if and only if rate times perToken is at most ten minutes and a nanosecond. |
| RateLimit.RateLimiter.Allow | backend/internal/middleware/ratelimit.go:48-82 | The call is granted exactly when saved and accrued tokens are left, for a known key, and always for a new one; the map afterwards is given exactly, and no other key changes. |
| RateLimit.RateLimiter.CleanupOnce | backend/internal/middleware/ratelimit.go:37-44 | The loop removes exactly the visitors idle for more than ten minutes. |
| OpenTimestamps.PendingOrAttested | backend/internal/ots/client.go:132-136 | A sequence is worked on exactly when it ends in a calendar's promise without a block height, and counts as confirmed exactly when it ends in a block height. |
| OpenTimestamps.SpliceComputes | backend/internal/ots/client.go:146-151 | A spliced sequence computes from the digest what the tail computes from the old commitment. |
| OpenTimestamps.EarlyAttestationHidesTail | backend/internal/ots/client.go:146-151 | In a sequence with an attestation before its end the tail would never be computed. |
| OpenTimestamps.Upgrade | backend/internal/ots/client.go:125-160 | Success comes exactly when something is pending and every pending sequence's own calendar has a tail for the commitment that sequence computes; digest, count and all other sequences stay, and the first calendar without a tail decides which error it is. |
| OpenTimestamps.UpgradePreservesMeaning | backend/internal/ots/client.go:125-160 | After a successful upgrade each sequence computes what it did before, continued by its calendar's tail if it was pending. |
| OpenTimestamps.ConfirmedIffTailsAttested | backend/internal/ots/client.go:120-124 | The upgraded file is confirmed throughout if and only if every tail, and every sequence left alone, ends in a Bitcoin attestation. |
| OpenTimestamps.UpgradeAnchors | backend/internal/ots/client.go:138-151 | If calendars hand out only true tails, an upgraded sequence that is attested computes, from the file's digest, the root of the block it names. |
| OpenTimestamps.UpgradeIsNotContradicted | backend/internal/ots/verify.go:152-204 | So verification against a true chain finds no mismatch in the upgraded file, if it found none in what was confirmed before. |
| OpenTimestamps.AttestedExact | backend/internal/ots/verify.go:73-76 | The sequences examined are exactly the attested ones. |
| OpenTimestamps.AttestedInOrder | backend/internal/ots/verify.go:73-76 | They keep the order of the file. |
| OpenTimestamps.VerifyProof | backend/internal/ots/verify.go:60-98 | Offline verification succeeds exactly for the right digest with at least one attested sequence and all of them sound, and reports the lowest attested height. |
| OpenTimestamps.VerifyAgainstChain | backend/internal/ots/verify.go:152-204 | A mismatch is reported exactly when some fetched block contradicts the proof, unavailability exactly when none was fetched, and otherwise the lowest fetched height with the time of its first block. |
| OpenTimestamps.Verify | backend/internal/ots/verify.go:124-146 | Chain verification refines the offline one: it fails on it exactly by contradiction, its height is never below the offline height and equal when all blocks were fetched, and with no block fetched the offline result stands. |
| ArtifactStore.StepKeepsShape | backend/internal/storage/local.go:53-105 | Each call's files stay as Save, upload and delete left them, whatever other calls do. |
| ArtifactStore.ConsistentIff | backend/internal/deals/service.go:1102-1107 | A step keeps every row's blob present, whole and within the cap if and only if it is not the cleanup deleting the blob of a row that is stored. |
| ArtifactStore.RowsKeepTheirBlobsIff | backend/internal/deals/service.go:1085-1144 | Over every run of concurrent uploads and deletes with crashes, the rows are whole at every point if and only if that step never happens. |
| ArtifactStore.RowsKeepTheirBlobs | backend/internal/deals/service.go:1085-1144 | If a failed insert never stored its row, the rows are whole at every point of every run. |
| ArtifactStore.LostInsertAnswerDanglesRow | backend/internal/deals/service.go:1103-1106 | For any content a run in which the insert's answer is lost leaves its row without a blob. |
| ArtifactStore.UploadStores | backend/internal/deals/service.go:1085-1108 | An undisturbed upload of anything up to the cap, the cap included, adds exactly its whole blob and its row. |
| ArtifactStore.OversizedLeavesNothing | backend/internal/deals/service.go:1094-1100 | An undisturbed upload beyond the cap leaves no file and no row. |
| ArtifactStore.FailedSaveLeavesNothing | backend/internal/storage/local.go:53-105 | Nor does one whose Save fails while copying. |
| ArtifactStore.DeleteRemoves | backend/internal/deals/service.go:1113-1144 | An undisturbed deletion takes exactly the row and its blob. |
| ArtifactService.Local.Save | backend/internal/storage/local.go:53-105 | Save publishes the whole stream or leaves the files as they were, except that a failed directory sync reports an error with the blob in place. |
| ArtifactService.Artifacts.UploadArtifact | backend/internal/deals/service.go:1085-1108 | An oversized stream is refused with the files unchanged when its cleanup works, and so is one whose insert fails; success stores the whole content and its row; rows stay whole except when a stored insert is cleaned up. |
| ArtifactService.Artifacts.DeleteArtifact | backend/internal/deals/service.go:1113-1144 | The row goes first, so rows stay whole whether or not the blob could be deleted, also when the row's deletion took effect and its answer was lost; then the blob stays. No other file is touched. |
| Anchors.AnchorAllCovers | backend/internal/cv/repository.go:177-190 | Anchoring keeps every existing anchor, covers every listed artifact, and adds nothing but their hashes. |
| Anchors.OneHealSuffices | backend/internal/cv/service.go:208-228 | Whatever other calls begin, overlap, fail or crash, and whatever is released, reopened or deleted meanwhile: once one heal has ended without an error, everything that was released when it began and still exists is anchored, and every anchor is the hash of an artifact that exists. |
| Anchors.NeverStraysIff | backend/internal/cv/repository.go:131-143 | At every point of a run only artifacts of released deals are anchored, if and only if no deal of an anchored artifact leaves released and no call inserts an anchor for a deal that has left it since the listing. |
| Anchors.HistoriesAgreeIff | backend/internal/cv/service.go:113-122 | Two histories, with any calls, errors, crashes, deletions and reopenings, that end with the same deals released, each with an error-free heal after its last release, have the same anchors if and only if they left the same anchors of unreleased deals. |
| Anchors.AnchoringIsConfluent | backend/internal/cv/service.go:113-122 | So they have the same anchors when neither of those two steps ever happens. |
| Anchors.ReopenedAnchorStays | backend/internal/cv/repository.go:131-143 | A run that shows the difference: a deal released, anchored and reopened keeps its anchor; released and reopened without one, it gets none. |
| Anchors.CvService.InsertAnchors | backend/internal/cv/service.go:222-261 | The loop anchors exactly the candidates before the first unreadable blob or refused insert, and succeeds exactly when there is none. |
| Anchors.CvService.HealAnchors | backend/internal/cv/service.go:208-217 | An error-free heal leaves no released artifact unanchored, changes no existing anchor, and does nothing when all are anchored. |
| Anchors.CvService.HealThenVerify | backend/internal/cv/service.go:131-165 | After an error-free heal every released artifact has an anchor; an anchor it wrote verifies exactly while its blob hashes as it did then, an older one exactly while the blob hashes to it, and without a readable blob there is no answer. |
| DealCreation.Desk.CreateDeal | backend/internal/deals/service.go:91-188 | Success means a row over a payable hold for the hash of its preimage, stored unless encrypting it failed, and is where the escrow's runs start; any failure after the draw sends exactly one cancel for that hash; a row is left behind by a failure exactly when an ambiguous commit persisted it, over a dead hold if the cancel worked; a payable hold without a row remains exactly in the cases stated. |
| DealCreation.SurvivorIsSwept | backend/internal/deals/service.go:178-185 | A row that CreateDeal left behind over its cancelled hold, in any open status, is refunded by the sweep. |
| DealCreation.SurvivorNeverPays | backend/internal/deals/service.go:178-185 | Until then no run releases it or pays anything out. |

## Left out

- HTTP handlers, routing, authentication, share tokens, redacted views, e-mail delivery, configuration, migrations: short guards and I/O.
- Whether a caller is the freelancer, the client or an operator: every step is open to everyone here, so the theorems hold for any callers.
- Bolt11 contents and fees: a payout carries its sats, assumed to be at most the deal's amount.
- LNbits reusing one checking_id for two payments of the same invoice: every payout has its own number.
- The artifact count SubmitWork asks for, and the upload's status check: either may happen at any time.
- AES-GCM, SHA-256, trimming and e-mail syntax: parameters or outcomes given to the methods.
- Postgres isolation: a row-locked transaction and a single UPDATE are atomic; a failed or ambiguous commit is the step with or without the crash of its call.
- The OpenTimestamps parser, serializer and embedded transactions: files and sequences are values, and whether a sequence embeds a transaction is a parameter.
- Submitting digests to calendars and the worker that stores upgraded proofs; two racing anchor calls may each submit one.
- Power failure of the disk: a crash ends a call, and files keep what was written.
- New rows that appear during a sweep: it never looks at them.
- Trust scores, list ordering, tickers and goroutine scheduling: any step may happen at any time.
- Fixed-width integers: durations, tokens and heights are mathematical integers.
- RateLimit.RateLimiter.Allow: a visitor is a value in the map where Go keeps a reference that nothing else ever holds.
