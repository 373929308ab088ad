/** The money theorems over whole runs of one deal, from its creation on. */
module EscrowRuns {
  import opened Deals
  import opened Escrow
  import opened EscrowSafety

  lemma FreshInv(amount: nat, hasPreimage: bool)
    ensures Inv(Fresh(amount, hasPreimage))
  {
  }

  lemma {:induction false} RunKeepsInv(mode: Assuming, s: Deal, acts: seq<Action>)
    requires mode.honest && Inv(s) && Run(mode, s, acts)
    ensures Inv(Exec(mode, s, acts))
    decreases |acts|
  {
    if acts != [] {
      StepKeepsInv(s, acts[0]);
      RunKeepsInv(mode, Step(s, acts[0]), acts[1..]);
    }
  }

  /** No run, however calls, crashes, lost replies, disputes, sweeps and stale writes interleave,
      has two payouts of a deal that are both not failed. */
  lemma NoSecondPayout(amount: nat, hasPreimage: bool, acts: seq<Action>, p: nat, q: nat)
    requires Run(HONEST, Fresh(amount, hasPreimage), acts)
    requires Live(Exec(HONEST, Fresh(amount, hasPreimage), acts), p)
    requires Live(Exec(HONEST, Fresh(amount, hasPreimage), acts), q)
    ensures p == q
  {
    FreshInv(amount, hasPreimage);
    RunKeepsInv(HONEST, Fresh(amount, hasPreimage), acts);
  }

  /** A payout leaves only when the hold is settled and every earlier payout has failed. */
  lemma PayoutsFollowSettlement(amount: nat, hasPreimage: bool, acts: seq<Action>, a: Action)
    requires Run(HONEST, Fresh(amount, hasPreimage), acts)
    requires Permitted(HONEST, Exec(HONEST, Fresh(amount, hasPreimage), acts), a)
    ensures var s := Exec(HONEST, Fresh(amount, hasPreimage), acts);
            |Step(s, a).payouts| > |s.payouts| ==>
              && s.hold == Settled
              && (forall p: nat :: p < |s.payouts| ==> s.payouts[p].verdict == Failed)
  {
    FreshInv(amount, hasPreimage);
    RunKeepsInv(HONEST, Fresh(amount, hasPreimage), acts);
    var s := Exec(HONEST, Fresh(amount, hasPreimage), acts);
    if |Step(s, a).payouts| > |s.payouts| {
      assert a.PayLeg?;
      assert TaskOk(s, a.t);
      assert MaySend(s, a.t) && SenderOk(s, a.t);
      forall p: nat | p < |s.payouts| ensures s.payouts[p].verdict == Failed { assert !Live(s, p); }
    }
  }

  /** The step that makes a deal released is phase 3 or confirm_payout. Its hold is settled
      already, and it rests on a payout LNbits took earlier: one LNbits reported paid, or the one
      the call itself sent, which may have failed since (EscrowArrival says when it cannot). */
  lemma ReleaseIsBacked(amount: nat, hasPreimage: bool, acts: seq<Action>, a: Action)
    requires Run(HONEST, Fresh(amount, hasPreimage), acts)
    requires Permitted(HONEST, Exec(HONEST, Fresh(amount, hasPreimage), acts), a)
    ensures var s := Exec(HONEST, Fresh(amount, hasPreimage), acts);
            s.row.status != Released && Step(s, a).row.status == Released ==>
              && s.hold == Settled
              && (a.FinalizeLeg? || a.Confirm?)
              && (a.Confirm? ==> IsPaid(s, a.p))
              && (a.FinalizeLeg? && s.tasks[a.t].confirmed ==>
                    s.tasks[a.t].payoutId.Some? && IsPaid(s, s.tasks[a.t].payoutId.value))
              && (a.FinalizeLeg? && !s.tasks[a.t].confirmed ==>
                    s.tasks[a.t].sent.Some? && s.tasks[a.t].sent.value < |s.payouts|)
  {
    FreshInv(amount, hasPreimage);
    RunKeepsInv(HONEST, Fresh(amount, hasPreimage), acts);
    var s := Exec(HONEST, Fresh(amount, hasPreimage), acts);
    assert a.PatchWrite? || a.FinalizeLeg? ==> TaskOk(s, a.t);
    assert a.FinalizeLeg? && !s.tasks[a.t].confirmed ==> MaySend(s, a.t) && SenderOk(s, a.t);
  }

  /** What the row once said stays in the log. */
  lemma {:induction false} LogNeverForgets(mode: Assuming, s: Deal, acts: seq<Action>)
    requires Run(mode, s, acts)
    ensures s.log.released ==> Exec(mode, s, acts).log.released
    ensures s.log.refunded ==> Exec(mode, s, acts).log.refunded
    decreases |acts|
  {
    if acts != [] {
      LogNeverForgets(mode, Step(s, acts[0]), acts[1..]);
    }
  }

  /** No run records a deal as released at one moment and as refunded at another, even when a
      stale write moved the status column in between. */
  lemma ReleasedXorRefunded(amount: nat, hasPreimage: bool, xs: seq<Action>, ys: seq<Action>)
    requires Run(HONEST, Fresh(amount, hasPreimage), xs + ys)
    ensures Run(HONEST, Fresh(amount, hasPreimage), xs)
    ensures var early := Exec(HONEST, Fresh(amount, hasPreimage), xs).row.status;
            var late := Exec(HONEST, Fresh(amount, hasPreimage), xs + ys).row.status;
            && !(early == Released && late == Refunded)
            && !(early == Refunded && late == Released)
  {
    var s0 := Fresh(amount, hasPreimage);
    RunSplit(HONEST, s0, xs, ys);
    FreshInv(amount, hasPreimage);
    RunKeepsInv(HONEST, s0, xs);
    RunKeepsInv(HONEST, s0, xs + ys);
    LogNeverForgets(HONEST, Exec(HONEST, s0, xs), ys);
  }
}
