/** When LNbits' raw answers are true of the hold and of the payouts behind a deal. The escrow's
    steps assume no more of the network than this. */
module Wallet {
  import opened Results
  import opened Deals
  import opened LNbits
  import opened Escrow

  /** No status word is said of a hold in another state. */
  predicate TrueOfHold(hold: Hold, check: CheckReply) {
    && (SaysHeld(check) ==> hold == Held)
    && (SaysSettled(check) ==> hold == Settled)
    && (SaysGone(check) ==> hold == Dead)
  }

  /** ... and one of its words is said of every hold that the client has paid or lost. */
  predicate TellsHold(hold: Hold, check: CheckReply) {
    && TrueOfHold(hold, check)
    && (check.Payment? && hold == Held ==> SaysHeld(check))
    && (check.Payment? && hold == Settled ==> SaysSettled(check))
    && (check.Payment? && hold == Dead ==> SaysGone(check))
  }

  predicate TrueOfPayout(verdict: Verdict, check: CheckReply) {
    && (SaysPaid(check) ==> verdict == Paid)
    && (SaysFailed(check) && !SaysPaid(check) ==> verdict == Failed)
  }

  /** A taken payment was sent and a refused one was not; any other answer leaves it open. */
  predicate TrueOfPayment(reply: PayReply, sent: bool) {
    && (SaysTaken(reply) ==> sent)
    && (SaysRefused(reply) ==> !sent)
  }

  /** Who may have a deal released: the client once work is submitted, an operator while it is
      disputed. */
  predicate MayRelease(who: Authority, status: Status) {
    || (who == Client && (status == WorkSubmitted || status == Reviewing || status == Disputed))
    || (who == Operator && status == Disputed)
  }

  lemma AuthorizedIff(who: Authority, status: Status)
    ensures Authorized(who, status) <==> MayRelease(who, status)
  {
  }

  /** A recorded payout's report, as the code reads a true answer, is a true report. */
  lemma TrueAnswersAreTrueReports(s: Deal, p: nat, check: CheckReply)
    requires p < |s.payouts| ==> TrueOfPayout(s.payouts[p].verdict, check)
    ensures TrueReport(s, p, CheckOutgoingPayout(check))
    ensures Enabled(s, Confirm(p, CheckOutgoingPayout(check)))
    ensures s.row.payoutId == Some(p) ==>
              forall who :: Enabled(s, Begin(who, CheckOutgoingPayout(check)))
  {
  }

  /** Whatever LNbits truly answers to PayInvoice, the escrow has a step for it: a 4xx that sent
      nothing, a 2xx that sent, and anything else, a 5xx above all, both ways. */
  lemma EveryTruePaymentIsAStep(s: Deal, t: nat, reply: PayReply, sent: bool, sats: nat)
    requires IsAt(s, t, Paying) && sats <= s.amount
    ensures Enabled(s, PayLeg(t, ClassifyPay(reply), sent, sats)) <==> TrueOfPayment(reply, sent)
  {
  }

  /** So it has for every true answer to the settle call and the status check behind it. */
  lemma EveryTrueSettleIsAStep(s: Deal, t: nat, settle: SimpleReply, check: CheckReply, took: bool)
    requires IsAt(s, t, Settling) && (took ==> s.hold == Held && s.hasPreimage)
    requires settle.ok ==> HoldAfter(s.hold, took, Settled) == Settled
    requires TrueOfHold(HoldAfter(s.hold, took, Settled), check)
    ensures Enabled(s, SettleLeg(t, s.hasPreimage && SettleSucceeded(settle, check), took))
  {
  }

  /** And to the cancel call. */
  lemma EveryTrueCancelIsAStep(s: Deal, cancel: SimpleReply, check: CheckReply, took: bool, committed: bool)
    requires s.row.status == Disputed && (took ==> s.hold == Open || s.hold == Held)
    requires cancel.ok ==> HoldAfter(s.hold, took, Dead) == Dead
    requires TrueOfHold(HoldAfter(s.hold, took, Dead), check)
    ensures Enabled(s, Refund(CancelSucceeded(cancel, check), took, committed))
  {
  }
}
