/** Runs that show where the guarantees end: each theorem's assumption is needed, and released
    promises that a payout was accepted rather than that it arrived. */
module EscrowLimits {
  import opened Results
  import opened Deals
  import opened LNbits
  import opened Escrow
  import opened EscrowArrival
  import opened EscrowReach
  import opened EscrowRecovery
  import opened EscrowReset
  import opened EscrowSafety

  /** The client pays and the freelancer submits before the payment was noticed. */
  lemma Submitted(mode: Assuming, amount: nat) returns (s: Deal)
    requires !mode.still
    ensures Reaches(mode, Fresh(amount, true), s)
    ensures s == Deal(amount, true, Row(WorkSubmitted, false, None), Held, [], [Done],
                      History(false, false, false, 0))
  {
    var s0 := Fresh(amount, true);
    Stay(mode, s0);
    s := Then(mode, s0, s0, Fund);
    s := Then(mode, s0, s, PatchRead(WorkSubmitted));
    s := Then(mode, s0, s, PatchWrite(0));
  }

  /** A release has begun; after it, the freelancer has read the row to mark it reviewing, and
      the client to dispute. */
  lemma DisputeAndPatchRead(amount: nat) returns (s: Deal)
    ensures Reaches(HONEST, Fresh(amount, true), s)
    ensures s == Deal(amount, true, Row(WorkSubmitted, true, None), Held, [],
                      [Done, Release(Settling, WorkSubmitted, false, None, None), Patch(Reviewing),
                       Dispute(WorkSubmitted)],
                      History(false, false, false, 0))
  {
    var s0 := Fresh(amount, true);
    s := Submitted(HONEST, amount);
    s := Then(HONEST, s0, s, Begin(Client, NoVerdict));
    s := Then(HONEST, s0, s, PatchRead(Reviewing));
    s := Then(HONEST, s0, s, DisputeRead);
  }

  /** The stale write lands on disputed, and the release that was running then settles and pays. */
  lemma ThawsAndPays(frozen: Deal) returns (now: Deal)
    requires frozen.hasPreimage && frozen.hold == Held && frozen.row == Row(Disputed, true, None)
    requires frozen.tasks == [Done, Release(Settling, WorkSubmitted, false, None, None), Patch(Reviewing), Done]
    ensures Reaches(HONEST, frozen, now)
    ensures now.row == Row(Reviewing, true, None) && IsAt(now, 1, Finalizing)
    ensures now.tasks[1].original == WorkSubmitted && !now.tasks[1].confirmed
  {
    Stay(HONEST, frozen);
    var thawed := Then(HONEST, frozen, frozen, PatchWrite(2));
    now := SettleAndPay(HONEST, thawed, 1);
    Join(HONEST, frozen, thawed, now);
  }

  /** A stale status write can erase a dispute. The release it then lets through was running
      when the dispute committed: DisputeFreezes fails without lawful writes. */
  lemma StaleWriteErasesDispute(amount: nat)
    returns (before: Deal, dispute: Action, now: Deal, late: Action)
    ensures Reaches(HONEST, Fresh(amount, true), before)
    ensures Permitted(HONEST, before, dispute) && before.row.status != Disputed
    ensures Step(before, dispute).row.status == Disputed
    ensures Reaches(HONEST, Step(before, dispute), now) && Permitted(HONEST, now, late)
    ensures late.FinalizeLeg? && late.t < |before.tasks| && before.tasks[late.t].Release?
    ensures Step(now, late).row.status == Released
  {
    before := DisputeAndPatchRead(amount);
    dispute := DisputeWrite(3);
    now := ThawsAndPays(Step(before, dispute));
    late := FinalizeLeg(1);
  }

  /** A stale status write can reopen a released deal: TerminalIsForever fails without lawful
      writes. */
  lemma StaleWriteReopensReleased(amount: nat) returns (s: Deal, a: Action)
    ensures Reaches(HONEST, Fresh(amount, true), s) && Permitted(HONEST, s, a)
    ensures s.row.status == Released && Step(s, a).row.status == Reviewing
  {
    var s0 := Fresh(amount, true);
    s := Submitted(HONEST, amount);
    s := Then(HONEST, s0, s, PatchRead(Reviewing));
    s := BeginAndPay(HONEST, s0, s, Client);
    s := Then(HONEST, s0, s, FinalizeLeg(2));
    a := PatchWrite(1);
  }

  /** A release has settled and is about to pay while an operator has decided to reset. */
  lemma AboutToPay(amount: nat) returns (s: Deal)
    ensures Reaches(HONEST, Fresh(amount, true), s)
    ensures s == Deal(amount, true, Row(WorkSubmitted, true, None), Settled, [],
                      [Done, Release(Paying, WorkSubmitted, false, None, None), Task.Reset],
                      History(false, false, false, 0))
  {
    var s0 := Fresh(amount, true);
    s := Submitted(HONEST, amount);
    s := Then(HONEST, s0, s, Begin(Client, NoVerdict));
    s := Then(HONEST, s0, s, SettleLeg(1, true, true));
    s := Then(HONEST, s0, s, ResetRead);
  }

  /** The code lets an operator reset while a release is still running. Nothing has been paid
      at that moment, and yet two payouts go out: NoSecondPayout needs the second half of the
      operator's promise. */
  lemma ResetWhileRunningPaysTwice(amount: nat) returns (reset: Deal, s: Deal)
    ensures Reaches(HONEST, Fresh(amount, true), reset)
    ensures Enabled(reset, ResetClear(2)) && NoneLive(reset)
    ensures Reaches(HONEST, Step(reset, ResetClear(2)), s)
    ensures Live(s, 0) && Live(s, 1)
  {
    reset := AboutToPay(amount);
    var cleared := Step(reset, ResetClear(2));
    Stay(HONEST, cleared);
    s := BeginAndPay(HONEST, cleared, cleared, Client);
    s := Then(HONEST, cleared, s, PayLeg(1, Accepted(true), true, 0));
  }

  /** A release stands before phase 3 over a failed payout, with a freelancer's write and an
      operator's reset waiting. */
  lemma FailedUnderReset(amount: nat) returns (s: Deal)
    ensures Reaches(HONEST, Fresh(amount, true), s)
    ensures s == Deal(amount, true, Row(WorkSubmitted, true, None), Settled, [Payout(Failed, 0)],
                      [Done, Patch(Reviewing), Release(Finalizing, WorkSubmitted, false, Some(0), Some(0)),
                       Task.Reset],
                      History(false, false, false, 0))
  {
    var s0 := Fresh(amount, true);
    s := Submitted(HONEST, amount);
    s := Then(HONEST, s0, s, PatchRead(Reviewing));
    s := BeginAndPay(HONEST, s0, s, Client);
    s := Then(HONEST, s0, s, Resolve(0, Failed));
    s := Then(HONEST, s0, s, ResetRead);
  }

  /** After the reset a second release pays; then the first one ends and closes the deal. */
  lemma ClosedUnderFailedId(cleared: Deal) returns (s: Deal)
    requires cleared == Deal(cleared.amount, true, Row(WorkSubmitted, false, None), Settled, [Payout(Failed, 0)],
                             [Done, Patch(Reviewing), Release(Finalizing, WorkSubmitted, false, Some(0), Some(0)),
                              Done],
                             History(false, false, false, 0))
    ensures Reaches(HONEST, cleared, s)
    ensures s == cleared.(row := Row(Released, true, Some(0)),
                          payouts := [Payout(Failed, 0), Payout(Pending, 0)],
                          tasks := [Done, Patch(Reviewing), Done, Done,
                                    Release(Finalizing, WorkSubmitted, false, Some(1), Some(1))],
                          log := History(true, false, false, 0))
  {
    Stay(HONEST, cleared);
    s := BeginAndPay(HONEST, cleared, cleared, Client);
    s := Then(HONEST, cleared, s, FinalizeLeg(2));
  }

  /** The stale write reopens it, and the next phase 1 takes the recorded payout for the last one. */
  lemma ReopenedBegins(closed: Deal) returns (s: Deal)
    requires closed.hasPreimage && closed.hold == Settled && closed.row == Row(Released, true, Some(0))
    requires closed.payouts == [Payout(Failed, 0), Payout(Pending, 0)]
    requires |closed.tasks| == 5 && closed.tasks[1] == Patch(Reviewing)
    ensures Reaches(HONEST, closed, s)
    ensures s.payouts == closed.payouts && s.hasPreimage && s.hold == Settled
    ensures |s.tasks| == 6 && s.tasks[5] == Release(Settling, Reviewing, false, None, None)
  {
    Stay(HONEST, closed);
    var reopened := Then(HONEST, closed, closed, PatchWrite(1));
    s := Then(HONEST, closed, reopened, Begin(Client, Refuted));
  }

  /** A reset under a release whose payout has failed, which is safe while writes are lawful, is
      not when one is stale: the failed release puts its payout's id over the marker of the next
      one, the stale write reopens the deal, and a third release finds that id refuted. */
  lemma StaleWriteAfterResetPaysTwice(amount: nat) returns (reset: Deal, s: Deal)
    ensures Reaches(HONEST, Fresh(amount, true), reset)
    ensures Enabled(reset, ResetClear(3)) && NothingToLose(reset)
    ensures Reaches(HONEST, Step(reset, ResetClear(3)), s)
    ensures Live(s, 1) && Live(s, 2)
  {
    reset := FailedUnderReset(amount);
    var cleared := Step(reset, ResetClear(3));
    var closed := ClosedUnderFailedId(cleared);
    var third := ReopenedBegins(closed);
    Join(HONEST, cleared, closed, third);
    s := SettleAndPay(HONEST, third, 5);
    Join(HONEST, cleared, third, s);
  }

  /** The other half of the promise: confirm_payout with the id of somebody else's payment releases
      a deal over a hold that is merely held, with no payout at all. */
  lemma ForeignConfirmReleases(amount: nat, p: nat) returns (s: Deal, a: Action)
    ensures Reaches(HONEST_LAWFUL, Fresh(amount, true), s)
    ensures a == Confirm(p, Confirmed) && Enabled(s, a) && Lawful(s, a) && !Honest(s, a)
    ensures Step(s, a).row == Row(Released, false, Some(p))
    ensures Step(s, a).hold == Held && Step(s, a).payouts == []
  {
    s := Submitted(HONEST_LAWFUL, amount);
    a := Confirm(p, Confirmed);
  }

  // ---------- an approval that a submit overtakes ----------

  /** The public approval of a deal read as awaiting_payment: its refresh locks the deal, a submit
      lands, and phase 1 starts a release after all. */
  lemma SubmitLetsApprovalThrough(amount: nat) returns (read: Deal, locked: Deal, now: Deal)
    ensures Reaches(HONEST_LAWFUL, Fresh(amount, true), read) && read.row.status == AwaitingPayment
    ensures Permitted(HONEST_LAWFUL, read, DetectRead)
    ensures Permitted(HONEST_LAWFUL, Step(read, DetectRead), LockWrite(|read.tasks|))
    ensures locked == Step(Step(read, DetectRead), LockWrite(|read.tasks|)) && locked.row.status == Locked
    ensures Reaches(HONEST_LAWFUL, locked, now) && Permitted(HONEST_LAWFUL, now, Begin(Client, NoVerdict))
    ensures var begun := Step(now, Begin(Client, NoVerdict));
            begun.row == Row(WorkSubmitted, true, None) && IsAt(begun, |now.tasks|, Settling)
  {
    var mode := HONEST_LAWFUL;
    var s0 := Fresh(amount, true);
    Stay(mode, s0);
    read := Then(mode, s0, s0, Fund);
    locked := Step(Step(read, DetectRead), LockWrite(|read.tasks|));
    Stay(mode, locked);
    now := Then(mode, locked, locked, PatchRead(WorkSubmitted));
    now := Then(mode, locked, now, PatchWrite(1));
  }

  // ---------- released and paid ----------

  /** A deal can be released although its only payout failed after LNbits had accepted it. */
  lemma ReleasedCanStayUnpaid(amount: nat) returns (s: Deal)
    ensures Reaches(HONEST_LAWFUL, Fresh(amount, true), s)
    ensures s.row.status == Released && |s.payouts| == 1 && NoneLive(s)
  {
    var mode := HONEST_LAWFUL;
    var s0 := Fresh(amount, true);
    s := Submitted(mode, amount);
    s := BeginAndPay(mode, s0, s, Client);
    s := Then(mode, s0, s, FinalizeLeg(1));
    s := Then(mode, s0, s, Resolve(0, Failed));
  }

  /** LNbits accepted the payout of a client's release, and then it failed. */
  lemma AcceptedThenFailed(amount: nat) returns (s: Deal)
    ensures Reaches(STEADY, Fresh(amount, true), s)
    ensures s == Deal(amount, true, Row(WorkSubmitted, true, None), Settled, [Payout(Failed, 0)],
                      [Done, Release(Finalizing, WorkSubmitted, false, Some(0), Some(0))],
                      History(false, false, false, 0))
  {
    var s0 := Fresh(amount, true);
    s := Submitted(STEADY, amount);
    s := BeginAndPay(STEADY, s0, s, Client);
    s := Then(STEADY, s0, s, Resolve(0, Failed));
  }

  /** Phase 3 does not look at the payout it records: it can release a deal whose only payout had
      failed before the commit. */
  lemma ReleasedOverFailedPayout(amount: nat) returns (s: Deal, a: Action)
    ensures Reaches(STEADY, Fresh(amount, true), s) && Permitted(STEADY, s, a)
    ensures Releases(s, a) && !ReleasesArrived(s, a) && |s.payouts| == 1 && NoneLive(s)
    ensures NoneLive(Step(s, a)) && Step(s, a).row.payoutId == Some(0)
  {
    s := AcceptedThenFailed(amount);
    a := FinalizeLeg(1);
  }

  /** An operator's release from disputed, over a payout that failed. */
  lemma DisputeReleaseFails(amount: nat) returns (s: Deal)
    ensures Reaches(STEADY, Fresh(amount, true), s)
    ensures s == Deal(amount, true, Row(Disputed, true, None), Settled, [Payout(Failed, 0)],
                      [Done, Done, Release(Finalizing, Disputed, false, Some(0), Some(0))],
                      History(false, false, false, 0))
  {
    var s0 := Fresh(amount, true);
    s := Submitted(STEADY, amount);
    s := Then(STEADY, s0, s, DisputeRead);
    s := Then(STEADY, s0, s, DisputeWrite(1));
    s := BeginAndPay(STEADY, s0, s, Operator);
    s := Then(STEADY, s0, s, Resolve(0, Failed));
  }

  /** From there no lawful run in which that call lives leads to a paid deal, and its own next step
      closes the deal unpaid. */
  lemma DisputeReleaseCanBeDoomed(amount: nat) returns (s: Deal)
    ensures Reaches(STEADY, Fresh(amount, true), s)
    ensures Funded(s) && Decided(s) && s.hasPreimage && Doomed(s)
    ensures forall s' :: Reaches(STEADY, s, s') ==> !PaidExactlyOnce(s')
    ensures Permitted(STEADY, s, FinalizeLeg(2)) && Step(s, FinalizeLeg(2)).row.status == Released
  {
    s := DisputeReleaseFails(amount);
    assert Dooms(s, 2);
    LoosenReach(STEADY, HONEST, Fresh(amount, true), s);
    var acts :| Run(HONEST, Fresh(amount, true), acts) && Exec(HONEST, Fresh(amount, true), acts) == s;
    forall s' | Reaches(STEADY, s, s') ensures !PaidExactlyOnce(s') {
      NeverPaid(amount, true, acts, STEADY, s');
    }
  }

  // ---------- what a failed settle leg proves ----------

  lemma {:induction false} DoneStays(mode: Assuming, s: Deal, acts: seq<Action>, t: nat)
    requires t < |s.tasks| && s.tasks[t] == Done && Run(mode, s, acts)
    ensures t < |Exec(mode, s, acts).tasks| && Exec(mode, s, acts).tasks[t] == Done
    decreases |acts|
  {
    if acts != [] {
      DoneStays(mode, Step(s, acts[0]), acts[1..], t);
    }
  }

  /** While a release is about to clear, nobody else settles. */
  lemma NobodyElseSettles(s: Deal, a: Action, t: nat)
    requires Inv(s) && IsAt(s, t, Clearing) && Permitted(HONEST, s, a)
    ensures Step(s, a).hold == Settled <==> s.hold == Settled
    ensures a == ClearLeg(t) || a == Crash(t) || IsAt(Step(s, a), t, Clearing)
  {
    LegsMaySend(s, a);
    assert TaskOk(s, t) && MaySend(s, t);
  }

  lemma {:induction false} HoldWhileClearing(s: Deal, acts: seq<Action>, t: nat)
    requires Inv(s) && IsAt(s, t, Clearing) && Run(HONEST, s, acts)
    requires IsAt(Exec(HONEST, s, acts), t, Clearing)
    ensures Exec(HONEST, s, acts).hold == Settled <==> s.hold == Settled
    decreases |acts|
  {
    if acts != [] {
      var s' := Step(s, acts[0]);
      NobodyElseSettles(s, acts[0], t);
      StepKeepsInv(s, acts[0]);
      if acts[0] == ClearLeg(t) || acts[0] == Crash(t) {
        DoneStays(HONEST, s', acts[1..], t);
      } else {
        HoldWhileClearing(s', acts[1..], t);
      }
    }
  }

  lemma {:induction false} SettledStays(mode: Assuming, s: Deal, acts: seq<Action>)
    requires s.hold == Settled && Run(mode, s, acts)
    ensures Exec(mode, s, acts).hold == Settled
    decreases |acts|
  {
    if acts != [] {
      SettledStays(mode, Step(s, acts[0]), acts[1..]);
    }
  }

  /** A release that ends in clearing the marker, whatever happens between its settle leg and the
      clear: the hold is settled at that moment exactly when it had been settled before or this
      settle took effect. Neither the settle's answer nor the status check needs to have said so,
      so "settlement did not complete" is not what the clear rests on. */
  lemma ClearedOverSettledIff(s: Deal, t: nat, ok: bool, took: bool, between: seq<Action>)
    requires Inv(s) && Enabled(s, SettleLeg(t, ok, took))
    requires var after := Step(s, SettleLeg(t, ok, took));
             Run(HONEST, after, between) && IsAt(Exec(HONEST, after, between), t, Clearing)
    ensures var now := Exec(HONEST, Step(s, SettleLeg(t, ok, took)), between);
            Step(now, ClearLeg(t)).hold == Settled <==> s.hold == Settled || took
  {
    var after := Step(s, SettleLeg(t, ok, took));
    StepKeepsInv(s, SettleLeg(t, ok, took));
    if after.hold == Settled {
      SettledStays(HONEST, after, between);
    } else {
      HoldWhileClearing(after, between, t);
    }
  }

  /** Such a run: the client's sats are taken, nobody is paid, and the row shows no attempt. */
  lemma LostSettleIsCleared(amount: nat) returns (s: Deal)
    ensures Reaches(STEADY, Fresh(amount, true), s)
    ensures s.hold == Settled && s.row == Row(WorkSubmitted, false, None) && s.payouts == []
  {
    var s0 := Fresh(amount, true);
    s := Submitted(STEADY, amount);
    s := Then(STEADY, s0, s, Begin(Client, NoVerdict));
    s := Then(STEADY, s0, s, SettleLeg(1, false, true));
    s := Then(STEADY, s0, s, ClearLeg(1));
  }
}
