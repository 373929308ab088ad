/** What the wallet server's answers mean to the code: the outcome classification of each call. */
module LNbits {

  /** CheckPayment: unreachable (any error) or a decoded payment. */
  datatype CheckReply = Unreachable | Payment(paid: bool, status: string)

  /** SettleHold and CancelHold: `ok` is true only for a 2xx answer that says ok:true. */
  datatype SimpleReply = SimpleReply(ok: bool)

  /** The transport-level outcome of PayInvoice. */
  datatype PayReply =
    | NoResponse
    | Http(code: int, readable: bool, checkingId: string)

  datatype PayResult = Accepted(hasId: bool) | PayoutRefused | Ambiguous

  datatype PayoutReport = Confirmed | Refuted | NoVerdict

  // ---------- what the answers say ----------

  predicate SaysPaid(check: CheckReply) {
    check.Payment? && check.paid && check.status in {"SETTLED", "COMPLETE", "SUCCEEDED", "PAID"}
  }

  predicate SaysFailed(check: CheckReply) {
    check.Payment? && check.status in {"FAILED", "UNPAID", "CANCELLED", "EXPIRED"}
  }

  predicate SaysHeld(check: CheckReply) {
    check.Payment? && check.status in {"HOLD", "ACCEPTED"}
  }

  predicate SaysSettled(check: CheckReply) {
    check.Payment? && check.status == "SETTLED"
  }

  predicate SaysGone(check: CheckReply) {
    check.Payment? && check.status in {"UNPAID", "EXPIRED", "CANCELLED"}
  }

  /** The payment was taken: a readable answer below 300. */
  predicate SaysTaken(reply: PayReply) {
    reply.Http? && reply.readable && reply.code < 300
  }

  /** The payment was turned down before anything moved: a readable answer from 300 to 499. */
  predicate SaysRefused(reply: PayReply) {
    reply.Http? && reply.readable && 300 <= reply.code <= 499
  }

  // ---------- how the code reads them ----------

  predicate IsPayoutConfirmed(status: string) {
    status == "SETTLED" || status == "COMPLETE" || status == "SUCCEEDED" || status == "PAID"
  }

  predicate IsPayoutFailed(status: string) {
    status == "FAILED" || status == "UNPAID" || status == "CANCELLED" || status == "EXPIRED"
  }

  predicate IsHoldReleased(status: string) {
    status == "UNPAID" || status == "EXPIRED" || status == "CANCELLED"
  }

  function CheckOutgoingPayout(reply: CheckReply): (r: PayoutReport)
    ensures r == Confirmed <==> SaysPaid(reply)
    ensures r == Refuted <==> SaysFailed(reply) && !SaysPaid(reply)
  {
    match reply
    case Unreachable => NoVerdict
    case Payment(paid, status) =>
      if paid && IsPayoutConfirmed(status) then Confirmed
      else if IsPayoutFailed(status) then Refuted
      else NoVerdict
  }

  /** A refusal is any readable answer from 300 up to 499; every other failure leaves open
      whether the payment was sent. */
  function ClassifyPay(reply: PayReply): (r: PayResult)
    ensures r.Accepted? <==> SaysTaken(reply)
    ensures r.Accepted? ==> (r.hasId <==> reply.checkingId != "")
    ensures r.PayoutRefused? <==> SaysRefused(reply)
  {
    match reply
    case NoResponse => Ambiguous
    case Http(code, readable, checkingId) =>
      if code >= 300 then
        if readable && code < 500 then PayoutRefused else Ambiguous
      else if !readable then Ambiguous
      else Accepted(checkingId != "")
  }

  /** settleHoldGuarded: an error from the settle call still counts when the hold is SETTLED. */
  predicate SettleSucceeded(settle: SimpleReply, check: CheckReply): (r: bool)
    ensures r <==> settle.ok || SaysSettled(check)
  {
    settle.ok || (check.Payment? && check.status == "SETTLED")
  }

  /** cancelEscrowHold: an error from the cancel call still counts when the hold is gone. */
  predicate CancelSucceeded(cancel: SimpleReply, check: CheckReply): (r: bool)
    ensures r <==> cancel.ok || SaysGone(check)
  {
    cancel.ok || (check.Payment? && IsHoldReleased(check.status))
  }

  /** The two guarded calls can never both accept the same check answer, so a hold is never
      taken for settled and for returned at once; nor is a payout taken for paid and failed. */
  lemma VerdictsDisjoint(check: CheckReply)
    ensures !(SettleSucceeded(SimpleReply(false), check) && CancelSucceeded(SimpleReply(false), check))
    ensures check.Payment? ==> !(IsPayoutConfirmed(check.status) && IsPayoutFailed(check.status))
  {
    if check.Payment? {
      var s := check.status;
      assert |"SETTLED"| == 7 && |"UNPAID"| == 6 && |"FAILED"| == 6 && |"CANCELLED"| == 9;
      assert "SETTLED"[0] != "EXPIRED"[0];
      assert |"COMPLETE"| == 8 && |"SUCCEEDED"| == 9 && "SUCCEEDED"[0] != "CANCELLED"[0];
      assert |"PAID"| == 4;
    }
  }
}
