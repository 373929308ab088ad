/**
 The lifecycle over whole runs: which status changes happen, how often, what a dispute freezes,
 and when the payment-locked notification goes out.

 SubmitWork and UpdateStatus read without a lock and write without a guard. Such a write is
 lawful when the lifecycle allows it where it lands, which is always so when the write directly
 follows its own read. The lifecycle theorems are about lawful runs; the two about
 awaiting_payment hold for every run.
 */
module EscrowOrder {
  import opened Deals
  import opened Escrow

  /** Every pending write carries a status its read justified. */
  predicate WriteFromRead(task: Task) {
    match task
    case Patch(target) => target == WorkSubmitted || target == Reviewing
    case Dispute(expected) => CanTransition(expected, Disputed)
    case Sweep(expected) => IsOpen(expected)
    case _ => true
  }

  predicate WritesFromReads(s: Deal) {
    forall t: nat :: t < |s.tasks| ==> WriteFromRead(s.tasks[t])
  }

  lemma StartsFromRead(s: Deal, a: Action)
    requires Enabled(s, a) && IsStart(a) && |Step(s, a).tasks| == |s.tasks| + 1
    ensures WriteFromRead(Step(s, a).tasks[|s.tasks|])
  {
  }

  lemma StepKeepsWrites(s: Deal, a: Action)
    requires WritesFromReads(s) && Enabled(s, a)
    ensures WritesFromReads(Step(s, a))
  {
    var s' := Step(s, a);
    StepMoves(s, a);
    if |s'.tasks| > |s.tasks| {
      StartsFromRead(s, a);
    }
    forall t: nat | t < |s'.tasks| ensures WriteFromRead(s'.tasks[t]) {
      assert t < |s.tasks| ==> WriteFromRead(s.tasks[t]);
    }
  }

  predicate LegalStep(s: Deal, a: Action)
    requires Enabled(s, a)
  {
    var to := Step(s, a).row.status;
    s.row.status == to || LegalChange(s.row.status, to)
  }

  /** The freelancer's unguarded write is the only step that can break the lifecycle, and it
      breaks it exactly when the table does not allow its target from the status it overwrites. */
  lemma LegalIffLawful(s: Deal, a: Action)
    requires WritesFromReads(s) && Enabled(s, a)
    ensures LegalStep(s, a) <==> Lawful(s, a)
  {
    if a.PatchWrite? || a.DisputeWrite? || a.SweepWrite? {
      assert WriteFromRead(s.tasks[a.t]);
    }
  }

  /** released and refunded admit no lawful step out. */
  lemma TerminalStays(s: Deal, a: Action)
    requires WritesFromReads(s) && Permitted(LAWFUL, s, a) && IsTerminal(s.row.status)
    ensures Step(s, a).row.status == s.row.status
  {
    LegalIffLawful(s, a);
    LegalChangesDescend(s.row.status);
  }

  /** UpdateStatus with no interference between its read and its write. */
  lemma UninterruptedPatchIsLawful(s: Deal, target: Status)
    requires Enabled(s, PatchRead(target))
    ensures var read := Step(s, PatchRead(target));
            Enabled(read, PatchWrite(|s.tasks|)) && Lawful(read, PatchWrite(|s.tasks|))
  {
  }

  ghost predicate AllStepsLegal(s: Deal, acts: seq<Action>)
    requires Run(NOTHING, s, acts)
    decreases |acts|
  {
    acts == [] || (LegalStep(s, acts[0]) && AllStepsLegal(Step(s, acts[0]), acts[1..]))
  }

  /** A run keeps to the lifecycle if and only if each unguarded write in it is lawful. */
  lemma {:induction false} LifecycleIffLawful(s: Deal, acts: seq<Action>)
    requires WritesFromReads(s) && Run(NOTHING, s, acts)
    ensures AllStepsLegal(s, acts) <==> Run(LAWFUL, s, acts)
    decreases |acts|
  {
    if acts != [] {
      LegalIffLawful(s, acts[0]);
      StepKeepsWrites(s, acts[0]);
      LifecycleIffLawful(Step(s, acts[0]), acts[1..]);
    }
  }

  // ---------- how far a deal can move ----------

  ghost function StatusChanges(mode: Assuming, s: Deal, acts: seq<Action>): nat
    requires Run(mode, s, acts)
    decreases |acts|
  {
    if acts == [] then 0
    else (if Step(s, acts[0]).row.status != s.row.status then 1 else 0)
         + StatusChanges(mode, Step(s, acts[0]), acts[1..])
  }

  lemma {:induction false} ChangesSpendRank(mode: Assuming, s: Deal, acts: seq<Action>)
    requires mode.lawful && WritesFromReads(s) && Run(mode, s, acts)
    ensures WritesFromReads(Exec(mode, s, acts))
    ensures StatusChanges(mode, s, acts) + Rank(Exec(mode, s, acts).row.status) <= Rank(s.row.status)
    ensures IsTerminal(s.row.status) ==> Exec(mode, s, acts).row.status == s.row.status
    decreases |acts|
  {
    if acts != [] {
      LegalIffLawful(s, acts[0]);
      LegalChangesDescend(s.row.status);
      StepKeepsWrites(s, acts[0]);
      ChangesSpendRank(mode, Step(s, acts[0]), acts[1..]);
    }
  }

  /** A deal changes status at most five times in its whole life. */
  lemma AtMostFiveChanges(amount: nat, hasPreimage: bool, acts: seq<Action>)
    requires Run(LAWFUL, Fresh(amount, hasPreimage), acts)
    ensures StatusChanges(LAWFUL, Fresh(amount, hasPreimage), acts) <= 5
  {
    ChangesSpendRank(LAWFUL, Fresh(amount, hasPreimage), acts);
  }

  /** released and refunded are never left. */
  lemma TerminalIsForever(amount: nat, hasPreimage: bool, xs: seq<Action>, ys: seq<Action>)
    requires Run(LAWFUL, Fresh(amount, hasPreimage), xs + ys)
    ensures Run(LAWFUL, Fresh(amount, hasPreimage), xs)
    ensures var early := Exec(LAWFUL, Fresh(amount, hasPreimage), xs).row.status;
            IsTerminal(early) ==> Exec(LAWFUL, Fresh(amount, hasPreimage), xs + ys).row.status == early
  {
    var s0 := Fresh(amount, hasPreimage);
    RunSplit(LAWFUL, s0, xs, ys);
    ChangesSpendRank(LAWFUL, s0, xs);
    ChangesSpendRank(LAWFUL, Exec(LAWFUL, s0, xs), ys);
  }

  // ---------- what a dispute freezes ----------

  /** Only a deal that is disputed, or closed since, was ever authorized as disputed. */
  predicate DisputedOriginsLate(s: Deal) {
    forall t: nat :: t < |s.tasks| && s.tasks[t].Release? && s.tasks[t].original == Disputed ==>
      Rank(s.row.status) <= 1
  }

  lemma {:induction false} OriginsStayLate(mode: Assuming, s: Deal, acts: seq<Action>)
    requires mode.lawful && WritesFromReads(s) && DisputedOriginsLate(s) && Run(mode, s, acts)
    ensures WritesFromReads(Exec(mode, s, acts)) && DisputedOriginsLate(Exec(mode, s, acts))
    decreases |acts|
  {
    if acts != [] {
      var s' := Step(s, acts[0]);
      LegalIffLawful(s, acts[0]);
      LegalChangesDescend(s.row.status);
      StepKeepsWrites(s, acts[0]);
      forall t: nat | t < |s'.tasks| && s'.tasks[t].Release? && s'.tasks[t].original == Disputed
        ensures Rank(s'.row.status) <= 1
      {
        assert t < |s.tasks| ==> s.tasks[t].Release? && s.tasks[t].original == Disputed;
      }
      OriginsStayLate(mode, s', acts[1..]);
    }
  }

  /** The first n calls were not authorized as disputed. */
  predicate BegunBefore(s: Deal, n: nat) {
    && n <= |s.tasks|
    && (forall t: nat :: t < n && s.tasks[t].Release? ==> s.tasks[t].original != Disputed)
  }

  lemma OriginsStay(s: Deal, a: Action, n: nat)
    requires BegunBefore(s, n) && Enabled(s, a)
    ensures BegunBefore(Step(s, a), n)
  {
    var s' := Step(s, a);
    forall t: nat | t < n && s'.tasks[t].Release? ensures s'.tasks[t].original != Disputed {
      assert s.tasks[t].Release?;
    }
  }

  /** After a dispute: the first n calls began before it. */
  predicate Frozen(s: Deal, n: nat) {
    Rank(s.row.status) <= 1 && WritesFromReads(s) && BegunBefore(s, n)
  }

  lemma {:induction false} FrozenStays(mode: Assuming, s: Deal, acts: seq<Action>, n: nat)
    requires mode.lawful && Frozen(s, n) && Run(mode, s, acts)
    ensures Frozen(Exec(mode, s, acts), n)
    decreases |acts|
  {
    if acts != [] {
      var s' := Step(s, acts[0]);
      LegalIffLawful(s, acts[0]);
      LegalChangesDescend(s.row.status);
      StepKeepsWrites(s, acts[0]);
      OriginsStay(s, acts[0], n);
      FrozenStays(mode, s', acts[1..], n);
    }
  }

  predicate Disputes(s: Deal, a: Action) {
    a.DisputeWrite? && Enabled(s, a) && s.row.status != Disputed && Step(s, a).row.status == Disputed
  }

  /** No call that is running when a dispute commits was authorized as disputed. */
  lemma DisputeIsNew(mode: Assuming, amount: nat, hasPreimage: bool, before: seq<Action>, dispute: Action)
    requires mode.lawful && Run(mode, Fresh(amount, hasPreimage), before)
    requires Disputes(Exec(mode, Fresh(amount, hasPreimage), before), dispute)
    ensures var s := Exec(mode, Fresh(amount, hasPreimage), before);
            && WritesFromReads(Step(s, dispute))
            && BegunBefore(Step(s, dispute), |s.tasks|)
  {
    var s := Exec(mode, Fresh(amount, hasPreimage), before);
    OriginsStayLate(mode, Fresh(amount, hasPreimage), before);
    assert WriteFromRead(s.tasks[dispute.t]);
    StepKeepsWrites(s, dispute);
    var disputed := Step(s, dispute);
    forall t: nat | t < |s.tasks| && disputed.tasks[t].Release?
      ensures disputed.tasks[t].original != Disputed
    {
      assert s.tasks[t].Release?;
    }
  }

  /** The ways out of disputed the design knows: an operator refund, the sweep, confirm_payout,
      or a release that was authorized from disputed and began after the first n calls. */
  predicate IsSanctioned(s: Deal, a: Action, n: nat) {
    || a.Refund? || a.SweepWrite? || a.Confirm?
    || (a.FinalizeLeg? && n <= a.t < |s.tasks| && s.tasks[a.t].Release? && s.tasks[a.t].original == Disputed)
  }

  /** Every step that leaves disputed along the run is sanctioned. */
  ghost predicate FreezeHolds(s: Deal, acts: seq<Action>, n: nat)
    requires Run(NOTHING, s, acts)
    decreases |acts|
  {
    acts == []
    || (&& (s.row.status == Disputed && Step(s, acts[0]).row.status != Disputed ==> IsSanctioned(s, acts[0], n))
        && FreezeHolds(Step(s, acts[0]), acts[1..], n))
  }

  /** No unguarded write lands on disputed along the run. */
  ghost predicate NoWriteOnDisputed(s: Deal, acts: seq<Action>)
    requires Run(NOTHING, s, acts)
    decreases |acts|
  {
    acts == []
    || (!(s.row.status == Disputed && acts[0].PatchWrite?) && NoWriteOnDisputed(Step(s, acts[0]), acts[1..]))
  }

  /** The unguarded write is the only step that can leave disputed otherwise, and it always does. */
  lemma LeavesDisputedIff(s: Deal, a: Action, n: nat)
    requires WritesFromReads(s) && BegunBefore(s, n) && Enabled(s, a) && s.row.status == Disputed
    ensures Step(s, a).row.status != Disputed && !IsSanctioned(s, a, n) <==> a.PatchWrite?
    ensures BegunBefore(Step(s, a), n)
  {
    assert a.PatchWrite? ==> WriteFromRead(s.tasks[a.t]);
    OriginsStay(s, a, n);
  }

  /** In a lawful run only a sanctioned step ends a dispute, and a release that was running when
      the dispute committed never touches the row again from phase 3, so the payout marker it set
      stays. */
  lemma DisputeFreezes(mode: Assuming, amount: nat, hasPreimage: bool, before: seq<Action>,
                       dispute: Action, between: seq<Action>, a: Action)
    requires mode.lawful && Run(mode, Fresh(amount, hasPreimage), before)
    requires var s := Exec(mode, Fresh(amount, hasPreimage), before);
             && Disputes(s, dispute)
             && Run(mode, Step(s, dispute), between)
             && Permitted(mode, Exec(mode, Step(s, dispute), between), a)
    ensures var s := Exec(mode, Fresh(amount, hasPreimage), before);
            var now := Exec(mode, Step(s, dispute), between);
            && (now.row.status == Disputed && Step(now, a).row.status != Disputed ==>
                  IsSanctioned(now, a, |s.tasks|))
            && (a.FinalizeLeg? && a.t < |s.tasks| ==> Step(now, a).row == now.row)
  {
    var s := Exec(mode, Fresh(amount, hasPreimage), before);
    DisputeIsNew(mode, amount, hasPreimage, before, dispute);
    FrozenStays(mode, Step(s, dispute), between, |s.tasks|);
    var now := Exec(mode, Step(s, dispute), between);
    if now.row.status == Disputed {
      LeavesDisputedIff(now, a, |s.tasks|);
    }
  }

  lemma {:induction false} FreezeIff(s: Deal, acts: seq<Action>, n: nat)
    requires WritesFromReads(s) && BegunBefore(s, n) && Run(NOTHING, s, acts)
    ensures FreezeHolds(s, acts, n) <==> NoWriteOnDisputed(s, acts)
    decreases |acts|
  {
    if acts != [] {
      if s.row.status == Disputed {
        LeavesDisputedIff(s, acts[0], n);
      }
      OriginsStay(s, acts[0], n);
      StepKeepsWrites(s, acts[0]);
      FreezeIff(Step(s, acts[0]), acts[1..], n);
    }
  }

  /** After a dispute committed in a lawful run, and whatever then happens: the freeze holds at
      every step if and only if no unguarded write lands on disputed. */
  lemma DisputeHoldsIff(amount: nat, hasPreimage: bool, before: seq<Action>, dispute: Action, later: seq<Action>)
    requires Run(LAWFUL, Fresh(amount, hasPreimage), before)
    requires var s := Exec(LAWFUL, Fresh(amount, hasPreimage), before);
             && Disputes(s, dispute) && Run(NOTHING, Step(s, dispute), later)
    ensures var s := Exec(LAWFUL, Fresh(amount, hasPreimage), before);
            FreezeHolds(Step(s, dispute), later, |s.tasks|) <==> NoWriteOnDisputed(Step(s, dispute), later)
  {
    var s := Exec(LAWFUL, Fresh(amount, hasPreimage), before);
    DisputeIsNew(LAWFUL, amount, hasPreimage, before, dispute);
    FreezeIff(Step(s, dispute), later, |s.tasks|);
  }

  // ---------- awaiting_payment and the payment-locked notification ----------

  predicate Notifying(s: Deal, t: nat) {
    t < |s.tasks| && s.tasks[t].Notify?
  }

  predicate PaidSeenFirst(s: Deal) {
    forall t: nat :: t < |s.tasks| && AwaitsNotice(s.tasks[t]) ==> s.log.paidSeen
  }

  ghost predicate NoticeOk(s: Deal) {
    && WritesFromReads(s)
    && (forall t: nat, u: nat :: Notifying(s, t) && Notifying(s, u) ==> t == u)
    && (forall t: nat :: Notifying(s, t) ==> s.log.notified == 0 && s.row.status != AwaitingPayment)
    && PaidSeenFirst(s)
    && s.log.notified <= 1
    && (s.log.notified == 1 ==> s.log.paidSeen && s.row.status != AwaitingPayment)
  }

  /** awaiting_payment has no way back in. */
  lemma AwaitingNeverReturns(s: Deal, a: Action)
    requires WritesFromReads(s) && Enabled(s, a)
    ensures s.row.status != AwaitingPayment ==> Step(s, a).row.status != AwaitingPayment
  {
    assert a.PatchWrite? ==> WriteFromRead(s.tasks[a.t]);
  }

  /** A notification is owed only to the one call that moved the deal out of awaiting_payment. */
  lemma OnlyTheWinnerNotifies(s: Deal, a: Action)
    requires Enabled(s, a)
    ensures forall t: nat :: Notifying(Step(s, a), t) ==>
              Notifying(s, t) || (a.LockWrite? && t == a.t && s.row.status == AwaitingPayment)
    ensures a.LockWrite? && s.row.status == AwaitingPayment ==> Step(s, a).row.status == Locked
  {
    StepMoves(s, a);
  }

  predicate AwaitsNotice(task: Task) {
    task.Detect? || task.Notify?
  }

  /** Only a paid report starts a call that locks or notifies. */
  lemma NoticesComeFromReports(s: Deal, a: Action, t: nat)
    requires Enabled(s, a) && t < |Step(s, a).tasks| && AwaitsNotice(Step(s, a).tasks[t])
    ensures a.DetectRead? || (t < |s.tasks| && AwaitsNotice(s.tasks[t]))
  {
    StepMoves(s, a);
  }

  /** A call locks or notifies only after LNbits reported the invoice paid, and it reports that
      only of a hold that is held or settled. */
  lemma PaidIsSeenFirst(s: Deal, a: Action)
    requires PaidSeenFirst(s) && Enabled(s, a)
    ensures PaidSeenFirst(Step(s, a))
    ensures s.log.paidSeen ==> Step(s, a).log.paidSeen
    ensures !s.log.paidSeen && Step(s, a).log.paidSeen ==> s.hold == Held || s.hold == Settled
  {
    var s' := Step(s, a);
    assert s'.log.paidSeen == (s.log.paidSeen || a.DetectRead?);
    forall t: nat | t < |s'.tasks| && AwaitsNotice(s'.tasks[t]) ensures s'.log.paidSeen {
      NoticesComeFromReports(s, a, t);
    }
  }

  lemma StepKeepsNotice(s: Deal, a: Action)
    requires NoticeOk(s) && Enabled(s, a)
    ensures NoticeOk(Step(s, a))
    ensures s.row.status != AwaitingPayment ==> Step(s, a).row.status != AwaitingPayment
  {
    StepKeepsWrites(s, a);
    AwaitingNeverReturns(s, a);
    OnlyTheWinnerNotifies(s, a);
    PaidIsSeenFirst(s, a);
    assert a.NotifySent? ==> Notifying(s, a.t);
  }

  lemma {:induction false} RunKeepsNotice(mode: Assuming, s: Deal, acts: seq<Action>)
    requires NoticeOk(s) && Run(mode, s, acts)
    ensures NoticeOk(Exec(mode, s, acts))
    ensures s.row.status != AwaitingPayment ==> Exec(mode, s, acts).row.status != AwaitingPayment
    decreases |acts|
  {
    if acts != [] {
      StepKeepsNotice(s, acts[0]);
      RunKeepsNotice(mode, Step(s, acts[0]), acts[1..]);
    }
  }

  /** A release begins only once the deal has left awaiting_payment and locked, for good. */
  predicate ReleasesAreLate(s: Deal) {
    forall t: nat :: t < |s.tasks| && s.tasks[t].Release? ==>
      s.row.status != AwaitingPayment && s.row.status != Locked
  }

  lemma StepKeepsLate(s: Deal, a: Action)
    requires WritesFromReads(s) && ReleasesAreLate(s) && Enabled(s, a)
    ensures ReleasesAreLate(Step(s, a))
  {
    var s' := Step(s, a);
    assert a.PatchWrite? ==> WriteFromRead(s.tasks[a.t]);
    forall t: nat | t < |s'.tasks| && s'.tasks[t].Release?
      ensures s'.row.status != AwaitingPayment && s'.row.status != Locked
    {
      assert !a.Begin? ==> t < |s.tasks| && s.tasks[t].Release?;
      assert a.Begin? && t < |s.tasks| ==> s.tasks[t].Release?;
    }
  }

  lemma {:induction false} RunKeepsLate(mode: Assuming, s: Deal, acts: seq<Action>)
    requires WritesFromReads(s) && ReleasesAreLate(s) && Run(mode, s, acts)
    ensures WritesFromReads(Exec(mode, s, acts)) && ReleasesAreLate(Exec(mode, s, acts))
    decreases |acts|
  {
    if acts != [] {
      StepKeepsWrites(s, acts[0]);
      StepKeepsLate(s, acts[0]);
      RunKeepsLate(mode, Step(s, acts[0]), acts[1..]);
    }
  }

  /** In any run at all, awaiting_payment is never re-entered, the payment-locked notification
      goes out at most once, and only after LNbits reported the invoice paid. */
  lemma LockedOnceAfterPayment(amount: nat, hasPreimage: bool, xs: seq<Action>, ys: seq<Action>)
    requires Run(NOTHING, Fresh(amount, hasPreimage), xs + ys)
    ensures Run(NOTHING, Fresh(amount, hasPreimage), xs)
    ensures var early := Exec(NOTHING, Fresh(amount, hasPreimage), xs);
            var late := Exec(NOTHING, Fresh(amount, hasPreimage), xs + ys);
            && (early.row.status != AwaitingPayment ==> late.row.status != AwaitingPayment)
            && late.log.notified <= 1
            && (late.log.notified == 1 ==> late.log.paidSeen)
  {
    var s0 := Fresh(amount, hasPreimage);
    RunSplit(NOTHING, s0, xs, ys);
    RunKeepsNotice(NOTHING, s0, xs);
    RunKeepsNotice(NOTHING, Exec(NOTHING, s0, xs), ys);
  }
}
