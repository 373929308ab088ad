/** Released says that LNbits accepted a payout. This module says when it also means paid. */
module EscrowArrival {
  import opened Deals
  import opened Escrow
  import opened EscrowSafety
  import opened EscrowReach
  import EscrowRuns

  lemma {:induction false} PaidIsForever(mode: Assuming, s: Deal, acts: seq<Action>, p: nat)
    requires IsPaid(s, p) && Run(mode, s, acts)
    ensures IsPaid(Exec(mode, s, acts), p)
    decreases |acts|
  {
    if acts != [] {
      PaidIsForever(mode, Step(s, acts[0]), acts[1..], p);
    }
  }

  /** No run of truthful operators from here ends with every payout failed. */
  ghost predicate StaysPaid(s: Deal) {
    forall s' :: Reaches(HONEST, s, s') ==> !NoneLive(s')
  }

  /** A deal keeps a payout that has not failed, whatever happens, exactly when LNbits already
      reports one paid: what checkOutgoingPayout answers decides. */
  lemma StaysPaidIff(s: Deal)
    requires Inv(s)
    ensures StaysPaid(s) <==> exists p: nat :: IsPaid(s, p)
  {
    if p: nat :| IsPaid(s, p) {
      forall s' | Reaches(HONEST, s, s') ensures !NoneLive(s') {
        var acts :| Run(HONEST, s, acts) && Exec(HONEST, s, acts) == s';
        PaidIsForever(HONEST, s, acts, p);
        assert Live(s', p);
      }
    } else {
      Stay(HONEST, s);
      if p: nat :| Live(s, p) {
        assert !IsPaid(s, p);
        var failed := Then(HONEST, s, s, Resolve(p, Failed));
        forall q: nat ensures !Live(failed, q) { assert q != p ==> !Live(s, q); }
      }
    }
  }

  predicate Releases(s: Deal, a: Action)
    requires Enabled(s, a)
  {
    s.row.status != Released && Step(s, a).row.status == Released
  }

  /** The step that releases a deal has seen its payout arrive: confirm_payout, a release whose
      phase 1 found the recorded payout paid, or phase 3 of a release whose own payout is paid by
      then. Phase 3 itself does not look. */
  predicate ReleasesArrived(s: Deal, a: Action)
    requires Enabled(s, a)
  {
    || a.Confirm?
    || (a.FinalizeLeg? && s.tasks[a.t].confirmed)
    || (a.FinalizeLeg? && s.tasks[a.t].sent.Some? && IsPaid(s, s.tasks[a.t].sent.value))
  }

  lemma ReleaserKnows(s: Deal, a: Action)
    requires Inv(s) && Permitted(HONEST, s, a) && Releases(s, a)
    ensures a.Confirm? ==> IsPaid(s, a.p)
    ensures a.FinalizeLeg? && s.tasks[a.t].confirmed ==>
              s.tasks[a.t].payoutId.Some? && IsPaid(s, s.tasks[a.t].payoutId.value)
    ensures a.FinalizeLeg? && !s.tasks[a.t].confirmed ==>
              s.tasks[a.t].sent.Some? && forall p: nat :: Live(s, p) ==> p == s.tasks[a.t].sent.value
    ensures Step(s, a).payouts == s.payouts && (a.Confirm? || a.FinalizeLeg?)
  {
    assert a.PatchWrite? || a.FinalizeLeg? ==> TaskOk(s, a.t);
    assert a.FinalizeLeg? && !s.tasks[a.t].confirmed ==> MaySend(s, a.t) && SenderOk(s, a.t);
  }

  /** A released deal stays paid exactly when the step that released it saw the payout arrive. */
  lemma ReleaseStaysPaidIff(amount: nat, hasPreimage: bool, acts: seq<Action>, a: Action)
    requires Run(HONEST, Fresh(amount, hasPreimage), acts)
    requires var s := Exec(HONEST, Fresh(amount, hasPreimage), acts);
             Permitted(HONEST, s, a) && Releases(s, a)
    ensures var s := Exec(HONEST, Fresh(amount, hasPreimage), acts);
            StaysPaid(Step(s, a)) <==> ReleasesArrived(s, a)
  {
    var s := Exec(HONEST, Fresh(amount, hasPreimage), acts);
    EscrowRuns.FreshInv(amount, hasPreimage);
    EscrowRuns.RunKeepsInv(HONEST, Fresh(amount, hasPreimage), acts);
    var s' := Step(s, a);
    StepKeepsInv(s, a);
    ReleaserKnows(s, a);
    StaysPaidIff(s');
    if p: nat :| IsPaid(s', p) {
      assert Live(s, p);
      assert ReleasesArrived(s, a);
    }
    if ReleasesArrived(s, a) {
      var p := if a.Confirm? then a.p
               else if s.tasks[a.t].confirmed then s.tasks[a.t].payoutId.value
               else s.tasks[a.t].sent.value;
      assert IsPaid(s', p);
    }
  }
}
