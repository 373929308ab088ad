/** Reachability: what some run can bring about. */
module EscrowReach {
  import opened Results
  import opened LNbits
  import opened Escrow

  ghost predicate Reaches(mode: Assuming, s: Deal, s': Deal) {
    exists acts :: Run(mode, s, acts) && Exec(mode, s, acts) == s'
  }

  lemma Stay(mode: Assuming, s: Deal)
    ensures Reaches(mode, s, s)
  {
    assert Run(mode, s, []) && Exec(mode, s, []) == s;
  }

  lemma Join(mode: Assuming, s: Deal, mid: Deal, s': Deal)
    requires Reaches(mode, s, mid) && Reaches(mode, mid, s')
    ensures Reaches(mode, s, s')
  {
    var xs :| Run(mode, s, xs) && Exec(mode, s, xs) == mid;
    var ys :| Run(mode, mid, ys) && Exec(mode, mid, ys) == s';
    RunSplit(mode, s, xs, ys);
    assert Run(mode, s, xs + ys) && Exec(mode, s, xs + ys) == s';
  }

  lemma One(mode: Assuming, s: Deal, a: Action)
    requires Permitted(mode, s, a)
    ensures Reaches(mode, s, Step(s, a))
  {
    RunOne(mode, s, a);
  }

  lemma Then(mode: Assuming, s: Deal, mid: Deal, a: Action) returns (s': Deal)
    requires Reaches(mode, s, mid) && Permitted(mode, mid, a)
    ensures s' == Step(mid, a) && Reaches(mode, s, s')
  {
    s' := Step(mid, a);
    One(mode, mid, a);
    Join(mode, s, mid, s');
  }

  predicate Weaker(loose: Assuming, strict: Assuming) {
    && (loose.honest ==> strict.honest)
    && (loose.lawful ==> strict.lawful)
    && (loose.still ==> strict.still)
    && (loose.steady ==> strict.steady)
  }

  /** A run that asks for more is a run that asks for less. */
  lemma {:induction false} Loosen(strict: Assuming, loose: Assuming, s: Deal, acts: seq<Action>)
    requires Weaker(loose, strict)
    requires Run(strict, s, acts)
    ensures Run(loose, s, acts) && Exec(loose, s, acts) == Exec(strict, s, acts)
    decreases |acts|
  {
    if acts != [] {
      Loosen(strict, loose, Step(s, acts[0]), acts[1..]);
    }
  }

  lemma LoosenReach(strict: Assuming, loose: Assuming, s: Deal, s': Deal)
    requires Weaker(loose, strict) && Reaches(strict, s, s')
    ensures Reaches(loose, s, s')
  {
    var acts :| Run(strict, s, acts) && Exec(strict, s, acts) == s';
    Loosen(strict, loose, s, acts);
  }

  /** A release at its first leg can settle and pay. */
  lemma SettleAndPay(mode: Assuming, s: Deal, t: nat) returns (s': Deal)
    requires IsAt(s, t, Settling) && s.hasPreimage && (s.hold == Held || s.hold == Settled)
    ensures Reaches(mode, s, s')
    ensures var id := |s.payouts|;
            s' == s.(hold := Settled,
                     payouts := s.payouts + [Payout(Pending, 0)],
                     tasks := s.tasks[t := s.tasks[t].(leg := Finalizing, sent := Some(id), payoutId := Some(id))])
  {
    Stay(mode, s);
    var paying := Then(mode, s, s, SettleLeg(t, true, s.hold == Held));
    s' := Then(mode, s, paying, PayLeg(t, Accepted(true), true, 0));
  }

  /** So, over cleared columns, a release can begin, settle and pay. */
  lemma BeginAndPay(mode: Assuming, s: Deal, mid: Deal, who: Authority) returns (s': Deal)
    requires Reaches(mode, s, mid)
    requires mid.row == Cleared(mid.row) && Authorized(who, mid.row.status)
    requires mid.hasPreimage && (mid.hold == Held || mid.hold == Settled)
    ensures Reaches(mode, s, s')
    ensures var id := |mid.payouts|;
            s' == mid.(row := mid.row.(attempted := true),
                       hold := Settled,
                       payouts := mid.payouts + [Payout(Pending, 0)],
                       tasks := mid.tasks + [Release(Finalizing, mid.row.status, false, Some(id), Some(id))])
  {
    var begun := Then(mode, s, mid, Begin(who, NoVerdict));
    s' := SettleAndPay(mode, begun, |mid.tasks|);
    Join(mode, s, begun, s');
  }
}
