/**
 The deals service and repository as they run: a row updated in place, calls that keep local
 variables between their own transactions, and LNbits' raw answers as arguments. A method whose
 contract names one Step is atomic, so each theorem about runs is about any interleaving of these.
 HandlePayment, RefreshPaymentStatus, PublicApprove, SettleOrClear, PayOrClear, CompleteRelease and
 ReleaseEscrow are several such steps in a row: their contracts say what happens if nobody acts in
 between.
 */
module EscrowService {
  import opened Results
  import opened Deals
  import opened LNbits
  import opened Escrow
  import opened EscrowSafety
  import opened EscrowReach
  import opened EscrowRuns
  import opened Wallet

  /** The protocol columns of one deals row and the UPDATE statements on them. */
  class DealRow {
    var status: Status
    var payoutAttempted: bool
    var payoutCheckingId: Option<nat>

    function Columns(): Row
      reads this
    {
      Row(status, payoutAttempted, payoutCheckingId)
    }

    constructor ()
      ensures Columns() == Row(AwaitingPayment, false, None)
    {
      status, payoutAttempted, payoutCheckingId := AwaitingPayment, false, None;
    }

    method UpdateStatus(to: Status)
      modifies this
      ensures Columns() == old(Columns()).(status := to)
    {
      status := to;
    }

    /** UPDATE ... WHERE status = expected; reports whether this caller won. */
    method UpdateStatusIfCurrent(expected: Status, to: Status) returns (moved: bool)
      modifies this
      ensures moved == (old(status) == expected)
      ensures Columns() == if moved then old(Columns()).(status := to) else old(Columns())
    {
      moved := status == expected;
      if moved {
        status := to;
      }
    }

    method MarkPayoutAttempted()
      modifies this
      ensures Columns() == old(Columns()).(attempted := true)
    {
      payoutAttempted := true;
    }

    method ClearPayoutTracking()
      modifies this
      ensures Columns() == Row(old(status), false, None)
    {
      payoutCheckingId := None;
      payoutAttempted := false;
    }

    method UpdatePayoutCheckingId(id: nat)
      modifies this
      ensures Columns() == old(Columns()).(payoutId := Some(id))
    {
      payoutCheckingId := Some(id);
    }
  }

  datatype ServiceError =
    | InvalidTransition
    | PayoutInFlight
    | NotSettled
    | Refused
    | NotCancelled
    | NotConfirmedPaid
    | NothingToReset
    | NotVerified
    | NotPaid
    | DealNotFound

  /** The money invariant, and what it says of a released row, wherever code steps lead. */
  ghost predicate SoundAlong(s: Deal, s': Deal) {
    Inv(s) ==> Inv(s') && (s'.row.status == Released ==> s'.hold == Settled && |s'.payouts| > 0)
  }

  lemma StaysSound(s: Deal, s': Deal)
    requires Reaches(UNAIDED, s, s')
    ensures SoundAlong(s, s')
  {
    if Inv(s) {
      var acts :| Run(UNAIDED, s, acts) && Exec(UNAIDED, s, acts) == s';
      RunKeepsInv(UNAIDED, s, acts);
    }
  }

  lemma SoundThrough(s: Deal, mid: Deal, s': Deal)
    requires Reaches(UNAIDED, s, mid) && Reaches(UNAIDED, mid, s')
    ensures Reaches(UNAIDED, s, s') && SoundAlong(s, s')
  {
    Join(UNAIDED, s, mid, s');
    StaysSound(s, s');
  }

  /** The settle call worked: there is a preimage, and LNbits accepted it or reports SETTLED. */
  predicate SettleWorks(hasPreimage: bool, settle: SimpleReply, check: CheckReply) {
    hasPreimage && (settle.ok || SaysSettled(check))
  }

  /** What the two network legs come to. */
  function LegsAnswer(settled: bool, pay: PayReply): Result<(), ServiceError> {
    if !settled then Failure(NotSettled)
    else if SaysTaken(pay) then Success(())
    else if SaysRefused(pay) then Failure(Refused)
    else Failure(PayoutInFlight)
  }

  /** The id a taken payment leaves behind, when it is payout number `id`. */
  function IdOf(pay: PayReply, id: nat): Option<nat> {
    if pay.Http? && pay.checkingId != "" then Some(id) else None
  }

  /** One deal with everything that acts on it. */
  class Service {
    const amount: nat
    const hasPreimage: bool
    const row: DealRow
    // calls between two of their transactions
    var calls: seq<Task>
    // LNbits and the Lightning network
    var hold: Hold
    var payouts: seq<Payout>
    ghost var log: History

    ghost function State(): Deal
      reads this, row
    {
      Deal(amount, hasPreimage, row.Columns(), hold, payouts, calls, log)
    }

    constructor (amount: nat, hasPreimage: bool)
      ensures State() == Fresh(amount, hasPreimage)
      ensures fresh(row)
    {
      this.amount, this.hasPreimage := amount, hasPreimage;
      row := new DealRow();
      calls, hold, payouts := [], Open, [];
      log := History(false, false, false, 0);
    }

    /** The recorded payout's answer, if there is one, is true. */
    ghost predicate TrueReportOfRecorded(check: CheckReply)
      reads this, row
    {
      row.payoutCheckingId.Some? && row.payoutCheckingId.value < |payouts| ==>
        TrueOfPayout(payouts[row.payoutCheckingId.value].verdict, check)
    }

    /** An earlier payout is recorded and LNbits says it arrived. */
    ghost predicate PaidBefore(check: CheckReply)
      reads row
    {
      row.payoutCheckingId.Some? && SaysPaid(check)
    }

    /** Nothing can have been sent: no attempt stands, or the recorded one is said to have failed. */
    ghost predicate MayPay(check: CheckReply)
      reads row
    {
      if row.payoutCheckingId.Some? then SaysFailed(check) && !SaysPaid(check) else !row.payoutAttempted
    }

    /** Phase 1: lock, authorize, look at an earlier payout, commit the intent marker. */
    method BeginRelease(who: Authority, check: CheckReply) returns (r: Result<nat, ServiceError>)
      requires TrueReportOfRecorded(check)
      modifies this, row
      ensures State() == Step(old(State()), Begin(who, CheckOutgoingPayout(check)))
      ensures r.Success? <==> MayRelease(who, old(row.status)) && (old(PaidBefore(check)) || old(MayPay(check)))
      ensures r == Failure(InvalidTransition) <==> !MayRelease(who, old(row.status))
      ensures r.Failure? ==> State() == old(State()) && (r.error == InvalidTransition || r.error == PayoutInFlight)
      ensures r.Success? ==>
                && r.value == |old(calls)|
                && hold == old(hold) && payouts == old(payouts)
                && row.Columns() == (if old(PaidBefore(check)) then old(row.Columns())
                                     else Row(old(row.status), true, None))
                && calls == old(calls) + [
                     if old(PaidBefore(check))
                     then Release(Finalizing, old(row.status), true, old(row.payoutCheckingId), None)
                     else Release(Settling, old(row.status), false, None, None)]
    {
      var originalStatus := row.status;
      if !Authorized(who, originalStatus) {
        return Failure(InvalidTransition);
      }
      var confirmed := false;
      var payoutCheckingId := row.payoutCheckingId;
      if row.payoutCheckingId.Some? {
        match CheckOutgoingPayout(check)
        case Confirmed =>
          confirmed := true;
        case Refuted =>
          row.ClearPayoutTracking();
          payoutCheckingId := None;
        case NoVerdict =>
          return Failure(PayoutInFlight);
      } else if row.payoutAttempted {
        return Failure(PayoutInFlight);
      }
      if !confirmed {
        row.MarkPayoutAttempted();
      }
      r := Success(|calls|);
      calls := calls + [Release(if confirmed then Finalizing else Settling, originalStatus, confirmed,
                                payoutCheckingId, None)];
    }

    /** PublicApproveDeal after its refresh: a check on the status read earlier, then phase 1 on the
        locked row. A deal that stays locked passes the first check and is turned away by the
        second. What happened in between stops it only where phase 1 itself would: a deal
        submitted or disputed since goes through. */
    method PublicBeginRelease(seen: Status, check: CheckReply) returns (r: Result<nat, ServiceError>)
      requires TrueReportOfRecorded(check)
      modifies this, row
      ensures if seen == Locked || seen == WorkSubmitted
              then State() == Step(old(State()), Begin(Client, CheckOutgoingPayout(check)))
              else State() == old(State())
      ensures r.Success? && seen == old(row.status) ==> seen == WorkSubmitted
      ensures r.Success? <==>
                && (seen == Locked || seen == WorkSubmitted)
                && MayRelease(Client, old(row.status))
                && (old(PaidBefore(check)) || old(MayPay(check)))
      ensures r.Success? ==> r.value == |old(calls)|
      ensures r == Failure(InvalidTransition) <==>
                !((seen == Locked || seen == WorkSubmitted) && MayRelease(Client, old(row.status)))
      ensures r.Failure? ==> State() == old(State()) && (r.error == InvalidTransition || r.error == PayoutInFlight)
    {
      if seen != Locked && seen != WorkSubmitted {
        return Failure(InvalidTransition);
      }
      r := BeginRelease(Client, check);
    }

    /** settleHoldGuarded: a refused or lost settle still counts when the hold is SETTLED. */
    method SettleHold(t: nat, settle: SimpleReply, check: CheckReply, took: bool)
      returns (r: Result<(), ServiceError>)
      requires IsAt(State(), t, Settling)
      requires took ==> hold == Held && hasPreimage
      requires hasPreimage && (settle.ok || SaysSettled(check)) ==> hold == Settled || took
      modifies this
      ensures r.Success? <==> hasPreimage && (settle.ok || SaysSettled(check))
      ensures r.Failure? ==> r.error == NotSettled
      ensures State() == Step(old(State()), SettleLeg(t, r.Success?, took))
      ensures hold == (if took then Settled else old(hold)) && payouts == old(payouts)
      ensures calls == old(calls)[t := old(calls[t]).(leg := if r.Success? then Paying else Clearing)]
    {
      r := Success(());
      if !hasPreimage {
        r := Failure(NotSettled);
      } else {
        hold := if took then Settled else hold;
        if !settle.ok {
          if check.Unreachable? || check.status != "SETTLED" {
            r := Failure(NotSettled);
          }
        }
      }
      calls := calls[t := calls[t].(leg := if r.Success? then Paying else Clearing)];
    }

    /** The payout leg. `sent` says whether LNbits took the payment, which the answer may hide. An
        accepted payment is remembered, with its id if the answer has one; a readable 3xx or 4xx
        goes on to clear the marker; after anything else the call ends and leaves the marker. */
    method PayInvoice(t: nat, reply: PayReply, sent: bool, sats: nat) returns (r: Result<(), ServiceError>)
      requires IsAt(State(), t, Paying)
      requires TrueOfPayment(reply, sent) && sats <= amount
      modifies this
      ensures State() == Step(old(State()), PayLeg(t, ClassifyPay(reply), sent, sats))
      ensures r.Success? <==> SaysTaken(reply)
      ensures r == Failure(Refused) <==> SaysRefused(reply)
      ensures r.Failure? ==> r.error == Refused || r.error == PayoutInFlight
      ensures payouts == if sent then old(payouts) + [Payout(Pending, sats)] else old(payouts)
      ensures hold == old(hold)
      ensures calls == old(calls)[t :=
                if SaysTaken(reply)
                then old(calls[t]).(leg := Finalizing, sent := Some(|old(payouts)|),
                                    payoutId := if reply.checkingId == "" then None else Some(|old(payouts)|))
                else if SaysRefused(reply) then old(calls[t]).(leg := Clearing)
                else Done]
    {
      var id := |payouts|;
      if sent {
        payouts := payouts + [Payout(Pending, sats)];
      }
      match ClassifyPay(reply)
      case Accepted(hasId) =>
        calls := calls[t := calls[t].(leg := Finalizing, sent := Some(id),
                                      payoutId := if hasId then Some(id) else None)];
        r := Success(());
      case PayoutRefused =>
        calls := calls[t := calls[t].(leg := Clearing)];
        r := Failure(Refused);
      case Ambiguous =>
        calls := calls[t := Done];
        r := Failure(PayoutInFlight);
    }

    method ClearPayoutAttempt(t: nat)
      requires IsAt(State(), t, Clearing)
      modifies this, row
      ensures State() == Step(old(State()), ClearLeg(t))
      ensures row.Columns() == Row(old(row.status), false, None)
      ensures hold == old(hold) && payouts == old(payouts) && calls == old(calls)[t := Done]
    {
      row.ClearPayoutTracking();
      calls := calls[t := Done];
    }

    /** Phase 3: lock again, re-validate, record the payout, release. */
    method FinishRelease(t: nat) returns (r: Result<(), ServiceError>)
      requires IsAt(State(), t, Finalizing)
      modifies this, row
      ensures State() == Step(old(State()), FinalizeLeg(t))
      ensures r.Success? <==>
                || old(row.status) == WorkSubmitted || old(row.status) == Reviewing
                || (old(row.status) == Disputed && old(calls[t].original) == Disputed)
      ensures r.Success? ==>
                row.Columns() == Row(Released, old(row.payoutAttempted),
                                     if old(row.payoutCheckingId).Some? then old(row.payoutCheckingId)
                                     else old(calls[t].payoutId))
      ensures r.Failure? ==> row.Columns() == old(row.Columns()) && r.error == InvalidTransition
      ensures hold == old(hold) && payouts == old(payouts) && calls == old(calls)[t := Done]
    {
      var call := calls[t];
      calls := calls[t := Done];
      if call.original != Disputed && row.status == Disputed {
        return Failure(InvalidTransition);
      }
      if !CanTransition(row.status, Released) {
        return Failure(InvalidTransition);
      }
      if call.payoutId.Some? && row.payoutCheckingId.None? {
        row.UpdatePayoutCheckingId(call.payoutId.value);
      }
      row.UpdateStatus(Released);
      log := log.(released := true);
      r := Success(());
    }

    /** The settle leg; when it fails nothing was paid, and the marker is cleared, over a settled
        hold exactly when the hold had been settled before or this settle took effect unheard. */
    method SettleOrClear(t: nat, settle: SimpleReply, check: CheckReply, took: bool)
      returns (r: Result<(), ServiceError>)
      requires IsAt(State(), t, Settling)
      requires took ==> hold == Held && hasPreimage
      requires hasPreimage && (settle.ok || SaysSettled(check)) ==> hold == Settled || took
      modifies this, row
      ensures Reaches(UNAIDED, old(State()), State())
      ensures r.Success? <==> hasPreimage && (settle.ok || SaysSettled(check))
      ensures r.Failure? ==> r.error == NotSettled
      ensures hold == (if took then Settled else old(hold)) && payouts == old(payouts)
      ensures row.Columns() == if r.Success? then old(row.Columns()) else Row(old(row.status), false, None)
      ensures calls == old(calls)[t := if r.Success? then old(calls[t]).(leg := Paying) else Done]
    {
      ghost var s0 := State();
      r := SettleHold(t, settle, check, took);
      ghost var s1 := State();
      One(UNAIDED, s0, SettleLeg(t, r.Success?, took));
      if r.Failure? {
        ClearPayoutAttempt(t);
        One(UNAIDED, s1, ClearLeg(t));
        Join(UNAIDED, s0, s1, State());
        r := Failure(NotSettled);
      }
    }

    /** The payout leg; a refusal provably sent nothing and clears the marker, an unclear answer
        keeps it. */
    method PayOrClear(t: nat, pay: PayReply, sent: bool, sats: nat) returns (r: Result<(), ServiceError>)
      requires IsAt(State(), t, Paying)
      requires TrueOfPayment(pay, sent) && sats <= amount
      modifies this, row
      ensures Reaches(UNAIDED, old(State()), State())
      ensures r.Success? <==> SaysTaken(pay)
      ensures r == Failure(Refused) <==> SaysRefused(pay)
      ensures r.Failure? ==> r.error == Refused || r.error == PayoutInFlight
      ensures hold == old(hold)
      ensures payouts == if sent then old(payouts) + [Payout(Pending, sats)] else old(payouts)
      ensures row.Columns() == if SaysRefused(pay) then Row(old(row.status), false, None) else old(row.Columns())
      ensures calls == old(calls)[t :=
                if SaysTaken(pay)
                then old(calls[t]).(leg := Finalizing, sent := Some(|old(payouts)|),
                                    payoutId := if pay.checkingId == "" then None else Some(|old(payouts)|))
                else Done]
    {
      ghost var s0 := State();
      r := PayInvoice(t, pay, sent, sats);
      ghost var s1 := State();
      One(UNAIDED, s0, PayLeg(t, ClassifyPay(pay), sent, sats));
      if r == Failure(Refused) {
        ClearPayoutAttempt(t);
        One(UNAIDED, s1, ClearLeg(t));
        Join(UNAIDED, s0, s1, State());
      }
    }

    /** Phase 1 as a run of one step. */
    method Start(who: Authority, check: CheckReply) returns (r: Result<nat, ServiceError>)
      requires TrueReportOfRecorded(check)
      modifies this, row
      ensures Reaches(UNAIDED, old(State()), State())
      ensures r.Success? <==> MayRelease(who, old(row.status)) && (old(PaidBefore(check)) || old(MayPay(check)))
      ensures r == Failure(InvalidTransition) <==> !MayRelease(who, old(row.status))
      ensures r.Failure? ==> State() == old(State()) && (r.error == InvalidTransition || r.error == PayoutInFlight)
      ensures r.Success? ==>
                && hold == old(hold) && payouts == old(payouts)
                && row.Columns() == (if old(PaidBefore(check)) then old(row.Columns())
                                     else Row(old(row.status), true, None))
                && r.value < |calls|
                && calls[r.value] == (if old(PaidBefore(check))
                                      then Release(Finalizing, old(row.status), true, old(row.payoutCheckingId), None)
                                      else Release(Settling, old(row.status), false, None, None))
    {
      ghost var s0 := State();
      r := BeginRelease(who, check);
      One(UNAIDED, s0, Begin(who, CheckOutgoingPayout(check)));
    }

    /** Phase 3 as a run of one step, when nothing stands in its way. */
    method Finish(t: nat) returns (r: Result<(), ServiceError>)
      requires IsAt(State(), t, Finalizing)
      requires calls[t].original == row.status && MayRelease(Client, row.status)
      modifies this, row
      ensures Reaches(UNAIDED, old(State()), State())
      ensures r.Success? && hold == old(hold) && payouts == old(payouts)
      ensures row.Columns() == Row(Released, old(row.payoutAttempted),
                                   if old(row.payoutCheckingId).Some? then old(row.payoutCheckingId)
                                   else old(calls[t].payoutId))
    {
      ghost var s0 := State();
      r := FinishRelease(t);
      One(UNAIDED, s0, FinalizeLeg(t));
    }

    /** The network legs of a call that phase 1 let through, with nobody else acting: settle, then
        pay. */
    method MoneyLegs(t: nat, settle: SimpleReply, settleCheck: CheckReply,
                     took: bool, pay: PayReply, sent: bool, sats: nat)
      returns (r: Result<(), ServiceError>)
      requires IsAt(State(), t, Settling)
      requires took ==> hold == Held && hasPreimage
      requires SettleWorks(hasPreimage, settle, settleCheck) ==> hold == Settled || took
      requires TrueOfPayment(pay, sent) && sats <= amount
      modifies this, row
      ensures Reaches(UNAIDED, old(State()), State())
      ensures r == LegsAnswer(SettleWorks(hasPreimage, settle, settleCheck), pay)
      ensures hold == if took then Settled else old(hold)
      ensures payouts == if SettleWorks(hasPreimage, settle, settleCheck) && sent
                         then old(payouts) + [Payout(Pending, sats)] else old(payouts)
      ensures row.Columns() == if r == Failure(NotSettled) || r == Failure(Refused)
                               then Row(old(row.status), false, None) else old(row.Columns())
      ensures r.Success? ==>
                t < |calls| && calls[t] == old(calls[t]).(leg := Finalizing, sent := Some(|old(payouts)|),
                                                          payoutId := IdOf(pay, |old(payouts)|))
    {
      ghost var s0 := State();
      r := SettleOrClear(t, settle, settleCheck, took);
      if r.Failure? {
        return;
      }
      ghost var paying := State();
      r := PayOrClear(t, pay, sent, sats);
      Join(UNAIDED, s0, paying, State());
      assert r.Success? ==> r.value == ();
    }

    /** Phases 2 and 3 of a call that phase 1 let through, with nobody else acting: a release that
        found its payout paid just closes the deal; any other settles, pays and closes it, and where
        it fails says which leg failed. */
    method CompleteRelease(t: nat, settle: SimpleReply, settleCheck: CheckReply,
                           took: bool, pay: PayReply, sent: bool, sats: nat)
      returns (r: Result<(), ServiceError>)
      requires t < |calls| && calls[t].Release?
      requires calls[t].leg == if calls[t].confirmed then Finalizing else Settling
      requires calls[t].original == row.status && MayRelease(Client, row.status)
      requires calls[t].confirmed ==> row.payoutCheckingId.Some?
      requires !calls[t].confirmed ==> row.payoutCheckingId.None?
      requires took ==> hold == Held && hasPreimage
      requires SettleWorks(hasPreimage, settle, settleCheck) ==> hold == Settled || took
      requires TrueOfPayment(pay, sent) && sats <= amount
      modifies this, row
      ensures Reaches(UNAIDED, old(State()), State())
      ensures old(calls[t].confirmed) ==>
                && r.Success? && hold == old(hold) && payouts == old(payouts)
                && row.Columns() == old(row.Columns()).(status := Released)
      ensures !old(calls[t].confirmed) ==>
                && r == LegsAnswer(SettleWorks(hasPreimage, settle, settleCheck), pay)
                && hold == (if took then Settled else old(hold))
                && payouts == if SettleWorks(hasPreimage, settle, settleCheck) && sent
                              then old(payouts) + [Payout(Pending, sats)] else old(payouts)
      ensures !old(calls[t].confirmed) && r.Success? ==>
                row.Columns() == Row(Released, old(row.payoutAttempted), IdOf(pay, |old(payouts)|))
      ensures r == Failure(NotSettled) || r == Failure(Refused) ==>
                row.Columns() == Row(old(row.status), false, None)
      ensures r == Failure(PayoutInFlight) ==> row.Columns() == old(row.Columns())
    {
      ghost var s0 := State();
      Stay(UNAIDED, s0);
      if !calls[t].confirmed {
        r := MoneyLegs(t, settle, settleCheck, took, pay, sent, sats);
        if r.Failure? {
          return;
        }
      }
      ghost var s1 := State();
      r := Finish(t);
      Join(UNAIDED, s0, s1, State());
      assert r.value == ();
    }

    /** releaseEscrow from end to end, with nobody else acting in between. The call is a run of
        the step system, so it keeps the money invariant. It succeeds exactly for somebody who may
        release, when the recorded payout has arrived, or when nothing can have been sent before,
        the hold is settled and the payment is taken; each failure says how far it came, and what
        it leaves in the row follows: nothing changed, the marker cleared, or the marker kept. */
    method ReleaseEscrow(who: Authority, check: CheckReply, settle: SimpleReply, settleCheck: CheckReply,
                         took: bool, pay: PayReply, sent: bool, sats: nat)
      returns (r: Result<(), ServiceError>)
      requires TrueReportOfRecorded(check)
      requires took ==> hold == Held && hasPreimage
      requires SettleWorks(hasPreimage, settle, settleCheck) ==> hold == Settled || took
      requires TrueOfPayment(pay, sent) && sats <= amount
      modifies this, row
      ensures r.Success? <==>
                && MayRelease(who, old(row.status))
                && (old(PaidBefore(check))
                    || (old(MayPay(check)) && SettleWorks(hasPreimage, settle, settleCheck) && SaysTaken(pay)))
      ensures r == Failure(InvalidTransition) <==> !MayRelease(who, old(row.status))
      ensures r == Failure(NotSettled) <==>
                && MayRelease(who, old(row.status)) && old(MayPay(check))
                && !SettleWorks(hasPreimage, settle, settleCheck)
      ensures r == Failure(Refused) <==>
                && MayRelease(who, old(row.status)) && old(MayPay(check))
                && SettleWorks(hasPreimage, settle, settleCheck) && SaysRefused(pay)
      ensures r == Failure(PayoutInFlight) <==>
                && MayRelease(who, old(row.status)) && !old(PaidBefore(check))
                && (old(MayPay(check)) ==>
                      SettleWorks(hasPreimage, settle, settleCheck) && !SaysTaken(pay) && !SaysRefused(pay))
      ensures r.Success? && old(PaidBefore(check)) ==>
                && row.Columns() == Row(Released, old(row.payoutAttempted), old(row.payoutCheckingId))
                && payouts == old(payouts) && hold == old(hold)
      ensures r.Success? && !old(PaidBefore(check)) ==>
                && row.Columns() == Row(Released, true, IdOf(pay, |old(payouts)|))
                && payouts == old(payouts) + [Payout(Pending, sats)] && hold == Settled
      ensures r == Failure(InvalidTransition) || (r == Failure(PayoutInFlight) && !old(MayPay(check))) ==>
                State() == old(State())
      ensures r == Failure(NotSettled) || r == Failure(Refused) ==>
                && row.Columns() == Row(old(row.status), false, None) && payouts == old(payouts)
                && hold == if took then Settled else old(hold)
      ensures r == Failure(PayoutInFlight) && old(MayPay(check)) ==>
                && row.Columns() == Row(old(row.status), true, None) && hold == Settled
                && payouts == if sent then old(payouts) + [Payout(Pending, sats)] else old(payouts)
      ensures Reaches(UNAIDED, old(State()), State())
      ensures SoundAlong(old(State()), State())
    {
      ghost var s0 := State();
      var begun := Start(who, check);
      if begun.Failure? {
        StaysSound(s0, State());
        return Failure(begun.error);
      }
      ghost var s1 := State();
      r := CompleteRelease(begun.value, settle, settleCheck, took, pay, sent, sats);
      SoundThrough(s0, s1, State());
    }

    /** refundDispute: cancel the hold under the row lock and record it only if that succeeded. */
    method RefundDispute(cancel: SimpleReply, check: CheckReply, took: bool)
      returns (r: Result<(), ServiceError>)
      requires took ==> hold == Open || hold == Held
      requires cancel.ok || SaysGone(check) ==> hold == Dead || took
      modifies this, row
      ensures old(row.status) != Disputed ==> r == Failure(InvalidTransition) && State() == old(State())
      ensures old(row.status) == Disputed ==>
                && r.Success? == (cancel.ok || SaysGone(check))
                && State() == Step(old(State()), Refund(r.Success?, took, true))
                && (r.Failure? ==> r.error == NotCancelled)
                && hold == (if took then Dead else old(hold))
                && row.Columns() == (if r.Success? then old(row.Columns()).(status := Refunded)
                                     else old(row.Columns()))
      ensures r.Success? ==> old(row.status) == Disputed && row.status == Refunded && hold == Dead
      ensures payouts == old(payouts) && calls == old(calls)
    {
      if row.status != Disputed {
        return Failure(InvalidTransition);
      }
      hold := if took then Dead else hold;
      if !cancel.ok {
        if check.Unreachable? || !IsHoldReleased(check.status) {
          return Failure(NotCancelled);
        }
      }
      row.UpdateStatus(Refunded);
      log := log.(refunded := true);
      r := Success(());
    }

    /** ReconcilePayout, confirm_payout. */
    method ConfirmPayout(p: nat, check: CheckReply) returns (r: Result<(), ServiceError>)
      requires p < |payouts| ==> TrueOfPayout(payouts[p].verdict, check)
      modifies this, row
      ensures State() == Step(old(State()), Confirm(p, CheckOutgoingPayout(check)))
      ensures r.Success? <==> SaysPaid(check) && MayRelease(Client, old(row.status))
      ensures r == Failure(PayoutInFlight) <==> check.Unreachable?
      ensures r == Failure(NotConfirmedPaid) <==> check.Payment? && !SaysPaid(check)
      ensures r == Failure(InvalidTransition) <==> SaysPaid(check) && !MayRelease(Client, old(row.status))
      ensures r.Success? ==> row.Columns() == Row(Released, old(row.payoutAttempted), Some(p))
      ensures r.Failure? ==> State() == old(State())
      ensures hold == old(hold) && payouts == old(payouts) && calls == old(calls)
    {
      if check.Unreachable? {
        return Failure(PayoutInFlight);
      }
      if CheckOutgoingPayout(check) != Confirmed {
        return Failure(NotConfirmedPaid);
      }
      if !CanTransition(row.status, Released) {
        return Failure(InvalidTransition);
      }
      if row.payoutCheckingId != Some(p) {
        row.UpdatePayoutCheckingId(p);
      }
      row.UpdateStatus(Released);
      log := log.(released := true);
      r := Success(());
    }

    /** ReconcilePayout, reset_payout: the unlocked read that decides. */
    method ReadForReset() returns (r: Result<nat, ServiceError>)
      modifies this
      ensures r.Success? <==>
                && old(row.status) != Released && old(row.status) != Refunded
                && (old(row.payoutAttempted) || old(row.payoutCheckingId).Some?)
      ensures r == Failure(InvalidTransition) <==> old(row.status) == Released || old(row.status) == Refunded
      ensures r == Failure(NothingToReset) <==>
                && old(row.status) != Released && old(row.status) != Refunded
                && !old(row.payoutAttempted) && old(row.payoutCheckingId).None?
      ensures r.Success? <==> Enabled(old(State()), ResetRead)
      ensures r.Success? ==> State() == Step(old(State()), ResetRead) && r.value == |old(calls)|
      ensures calls == if r.Success? then old(calls) + [Task.Reset] else old(calls)
      ensures r.Failure? ==> State() == old(State())
    {
      if row.status == Released || row.status == Refunded {
        return Failure(InvalidTransition);
      }
      if row.payoutCheckingId.None? && !row.payoutAttempted {
        return Failure(NothingToReset);
      }
      r := Success(|calls|);
      calls := calls + [Task.Reset];
    }

    /** ... and its autocommitted clear. The money invariant survives exactly when the operator
        told the truth about this moment. */
    method ClearForReset(t: nat)
      requires Enabled(State(), ResetClear(t))
      modifies this, row
      ensures State() == Step(old(State()), ResetClear(t))
      ensures row.Columns() == Row(old(row.status), false, None)
      ensures hold == old(hold) && payouts == old(payouts) && calls == old(calls)[t := Done]
      ensures old(Inv(State())) ==> (Inv(State()) <==> old(Honest(State(), ResetClear(t))))
    {
      ghost var s := State();
      row.ClearPayoutTracking();
      calls := calls[t := Done];
      if Inv(s) {
        ClearingIsSafeIff(s, t);
        assert forall u: nat :: MaySend(s, u) ==> u != t;
        assert (forall u: nat :: !MaySend(s, u)) <==> (forall u: nat :: MaySend(s, u) ==> u == t);
      }
    }

    /** UpdateStatus and SubmitWork: the unlocked read, with every check the code makes. */
    method ReadForUpdate(to: Status) returns (r: Result<nat, ServiceError>)
      modifies this
      ensures r.Success? <==>
                || (to == WorkSubmitted && (old(row.status) == AwaitingPayment || old(row.status) == Locked))
                || (to == Reviewing && old(row.status) == WorkSubmitted)
      ensures calls == if r.Success? then old(calls) + [Patch(to)] else old(calls)
      ensures r.Success? <==> Enabled(old(State()), PatchRead(to))
      ensures r.Success? ==> State() == Step(old(State()), PatchRead(to)) && r.value == |old(calls)|
      ensures r.Failure? ==> State() == old(State()) && r.error == InvalidTransition
    {
      if to == Locked || to == Released || to == Disputed || to == Refunded {
        return Failure(InvalidTransition);
      }
      if !CanTransition(row.status, to) {
        return Failure(InvalidTransition);
      }
      r := Success(|calls|);
      calls := calls + [Patch(to)];
    }

    method WriteUpdate(t: nat)
      requires Enabled(State(), PatchWrite(t))
      modifies this, row
      ensures State() == Step(old(State()), PatchWrite(t))
      ensures row.Columns() == old(row.Columns()).(status := old(calls[t].target))
      ensures hold == old(hold) && payouts == old(payouts) && calls == old(calls)[t := Done]
    {
      log := SetStatus(State(), calls[t].target).log;
      row.UpdateStatus(calls[t].target);
      calls := calls[t := Done];
    }

    /** DisputeDeal: unlocked read, then a write guarded by the status it read. */
    method ReadForDispute() returns (r: Result<nat, ServiceError>)
      modifies this
      ensures r.Success? <==>
                || old(row.status) == Locked || old(row.status) == WorkSubmitted || old(row.status) == Reviewing
      ensures r.Failure? ==> r.error == InvalidTransition
      ensures calls == if r.Success? then old(calls) + [Dispute(old(row.status))] else old(calls)
      ensures r.Success? <==> Enabled(old(State()), DisputeRead)
      ensures r.Success? ==> State() == Step(old(State()), DisputeRead) && r.value == |old(calls)|
      ensures r.Failure? ==> State() == old(State())
    {
      if !CanTransition(row.status, Disputed) {
        return Failure(InvalidTransition);
      }
      r := Success(|calls|);
      calls := calls + [Dispute(row.status)];
    }

    method WriteDispute(t: nat) returns (r: Result<(), ServiceError>)
      requires Enabled(State(), DisputeWrite(t))
      modifies this, row
      ensures State() == Step(old(State()), DisputeWrite(t))
      ensures r.Success? <==> old(row.status) == old(calls[t].expected)
      ensures r.Failure? ==> r.error == InvalidTransition
      ensures row.Columns() == if r.Success? then old(row.Columns()).(status := Disputed) else old(row.Columns())
      ensures hold == old(hold) && payouts == old(payouts) && calls == old(calls)[t := Done]
    {
      var moved := row.UpdateStatusIfCurrent(calls[t].expected, Disputed);
      calls := calls[t := Done];
      r := if moved then Success(()) else Failure(InvalidTransition);
    }

    /** HandlePayment and refreshPaymentStatus: LNbits said paid, so try awaiting_payment to
        locked; only the winner goes on to notify. */
    method LockPaid(t: nat) returns (transitioned: bool)
      requires Enabled(State(), LockWrite(t))
      modifies this, row
      ensures State() == Step(old(State()), LockWrite(t))
      ensures transitioned <==> old(row.status) == AwaitingPayment
      ensures row.Columns() == if transitioned then old(row.Columns()).(status := Locked) else old(row.Columns())
      ensures hold == old(hold) && payouts == old(payouts)
      ensures calls == old(calls)[t := if transitioned then Notify else Done]
    {
      transitioned := row.UpdateStatusIfCurrent(AwaitingPayment, Locked);
      calls := calls[t := if transitioned then Notify else Done];
    }

    /** HandlePayment: the notification is never trusted; LNbits is asked again, and only a deal
        still awaiting payment is locked. `found` says whether a deal has this checking id. */
    method HandlePayment(check: CheckReply, found: bool) returns (r: Result<bool, ServiceError>)
      requires check.Payment? && check.paid ==> hold == Held || hold == Settled
      modifies this, row
      ensures r.Success? <==> check.Payment? && check.paid && found
      ensures r == Failure(NotVerified) <==> check.Unreachable?
      ensures r == Failure(NotPaid) <==> check.Payment? && !check.paid
      ensures r == Failure(DealNotFound) <==> check.Payment? && check.paid && !found
      ensures r.Failure? ==> State() == old(State())
      ensures r.Success? ==> State() == Step(Step(old(State()), DetectRead), LockWrite(|old(calls)|))
      ensures r.Success? ==> (r.value <==> old(row.status) == AwaitingPayment)
      ensures row.Columns() == if r.Success? && r.value then old(row.Columns()).(status := Locked)
                               else old(row.Columns())
    {
      if check.Unreachable? {
        return Failure(NotVerified);
      }
      if !check.paid {
        return Failure(NotPaid);
      }
      if !found {
        return Failure(DealNotFound);
      }
      calls := calls + [Detect];
      log := log.(paidSeen := true);
      var transitioned := LockPaid(|calls| - 1);
      r := Success(transitioned);
    }

    /** refreshPaymentStatus, behind the poll and the public view, on a status read earlier. */
    method RefreshPaymentStatus(seen: Status, check: CheckReply) returns (r: Result<Status, ServiceError>)
      requires check.Payment? && check.paid ==> hold == Held || hold == Settled
      modifies this, row
      ensures r.Failure? <==> check.Unreachable?
      ensures row.Columns() == if check.Payment? && check.paid && seen == AwaitingPayment == old(row.status)
                               then old(row.Columns()).(status := Locked) else old(row.Columns())
      ensures if check.Payment? && check.paid && seen == AwaitingPayment
              then State() == Step(Step(old(State()), DetectRead), LockWrite(|old(calls)|))
              else State() == old(State())
      ensures r.Success? ==> r.value == if row.status != old(row.status) then Locked else seen
    {
      if check.Unreachable? {
        return Failure(NotVerified);
      }
      r := Success(seen);
      if check.paid && seen == AwaitingPayment {
        calls := calls + [Detect];
        log := log.(paidSeen := true);
        var transitioned := LockPaid(|calls| - 1);
        if transitioned {
          r := Success(Locked);
        }
      }
    }

    /** PublicApproveDeal up to phase 1, if nobody acts between the refresh and phase 1: a deal read
        as awaiting_payment is first refreshed, and an error of that refresh is ignored; `refresh`
        is None for a deal without a checking id. Even when the refresh finds it paid, such a deal
        is then turned away: the refresh locks it, and phase 1 does not release from locked. A
        submit that lands in between changes that (EscrowLimits.SubmitLetsApprovalThrough). */
    method PublicApprove(seen: Status, refresh: Option<CheckReply>, check: CheckReply)
      returns (r: Result<nat, ServiceError>)
      requires refresh.Some? && refresh.value.Payment? && refresh.value.paid ==> hold == Held || hold == Settled
      requires TrueReportOfRecorded(check)
      modifies this, row
      ensures seen == AwaitingPayment && refresh.Some? && refresh.value.Payment? && refresh.value.paid ==>
                State() == Step(Step(old(State()), DetectRead), LockWrite(|old(calls)|))
      ensures seen == AwaitingPayment && !(refresh.Some? && refresh.value.Payment? && refresh.value.paid) ==>
                State() == old(State())
      ensures seen == Locked || seen == WorkSubmitted ==>
                State() == Step(old(State()), Begin(Client, CheckOutgoingPayout(check)))
      ensures seen !in {AwaitingPayment, Locked, WorkSubmitted} ==> State() == old(State())
      ensures r.Success? <==>
                && (seen == Locked || seen == WorkSubmitted)
                && MayRelease(Client, old(row.status))
                && (old(PaidBefore(check)) || old(MayPay(check)))
      ensures r == Failure(InvalidTransition) <==>
                !((seen == Locked || seen == WorkSubmitted) && MayRelease(Client, old(row.status)))
      ensures r.Failure? ==> r.error == InvalidTransition || r.error == PayoutInFlight
      ensures r.Success? ==> r.value == |old(calls)|
      ensures r.Success? && seen == old(row.status) ==> seen == WorkSubmitted
    {
      var current := seen;
      if refresh.Some? && seen == AwaitingPayment {
        var refreshed := RefreshPaymentStatus(seen, refresh.value);
        if refreshed.Success? {
          current := refreshed.value;
        }
      }
      r := PublicBeginRelease(current, check);
    }
  }
}
