/** The money invariant of one deal and what it gives over whole runs: at most one payout that
    has not failed, none without settlement, and never both released and refunded. */
module EscrowSafety {
  import opened Results
  import opened Deals
  import opened LNbits
  import opened Escrow

  ghost predicate AtMostOneLive(s: Deal) {
    forall p: nat, q: nat :: Live(s, p) && Live(s, q) ==> p == q
  }

  /** A payout that has not failed is visible in the row: by its id, or by the bare marker. */
  ghost predicate LiveIsTracked(s: Deal) {
    forall p: nat :: Live(s, p) ==>
      s.row.payoutId == Some(p) || (s.row.payoutId == None && s.row.attempted)
  }

  predicate IdIsKnown(s: Deal) {
    s.row.payoutId.Some? ==> s.row.payoutId.value < |s.payouts|
  }

  predicate IsPaid(s: Deal, p: nat) {
    p < |s.payouts| && s.payouts[p].verdict == Paid
  }

  /** The marker stands behind the call; before it sends nothing is live, afterwards only its
      own payout is, and the row names that payout only once it is paid. */
  ghost predicate SenderOk(s: Deal, t: nat)
    requires MaySend(s, t)
  {
    var call := s.tasks[t];
    && s.row.attempted
    && (call.leg != Finalizing ==> s.row.payoutId == None && NoneLive(s))
    && (call.leg == Paying ==> s.hold == Settled)
    && (call.leg == Finalizing ==>
          && call.sent.Some?
          && call.sent.value < |s.payouts|
          && (call.payoutId == None || call.payoutId == call.sent)
          && (s.row.payoutId == None || (s.row.payoutId == call.sent && IsPaid(s, call.sent.value)))
          && (forall p: nat :: Live(s, p) ==> p == call.sent.value))
  }

  ghost predicate SendersOk(s: Deal) {
    && (forall t: nat :: MaySend(s, t) ==> SenderOk(s, t))
    && (forall t: nat, u: nat :: MaySend(s, t) && MaySend(s, u) ==> t == u)
  }

  /** A release that found the payout paid carries the id of a paid payout; a freelancer's
      pending write is not a money move. */
  predicate TaskOk(s: Deal, t: nat)
    requires t < |s.tasks|
  {
    match s.tasks[t]
    case Release(leg, _, confirmed, payoutId, _) =>
      confirmed ==> leg == Finalizing && payoutId.Some? && IsPaid(s, payoutId.value)
    case Patch(target) => IsFreelancerTarget(target)
    case _ => true
  }

  ghost predicate TasksOk(s: Deal) {
    forall t: nat :: t < |s.tasks| ==> TaskOk(s, t)
  }

  predicate HistoryOk(s: Deal) {
    && (s.row.status == Released ==> s.log.released)
    && (s.row.status == Refunded ==> s.log.refunded)
    && (s.log.released ==> s.hold == Settled && |s.payouts| > 0)
    && (s.log.refunded ==> s.hold == Dead)
  }

  ghost predicate AmountsOk(s: Deal) {
    forall p: nat :: p < |s.payouts| ==> s.payouts[p].sats <= s.amount
  }

  ghost predicate Inv(s: Deal) {
    && AtMostOneLive(s)
    && LiveIsTracked(s)
    && IdIsKnown(s)
    && SendersOk(s)
    && TasksOk(s)
    && HistoryOk(s)
    && AmountsOk(s)
    && (|s.payouts| > 0 ==> s.hold == Settled)
  }

  // ---------- one lemma per kind of step ----------

  lemma BeginKeepsInv(s: Deal, a: Action)
    requires Inv(s) && a.Begin? && Enabled(s, a)
    ensures Inv(Step(s, a))
  {
    var s' := Step(s, a);
    match Phase1(s.row, a.who, a.report)
    case Rejected =>
    case Started(row, call) =>
      assert s'.tasks == s.tasks + [call];
      assert s'.payouts == s.payouts;
      forall p: nat ensures Live(s', p) <==> Live(s, p) {}
      assert !call.confirmed ==> NoneLive(s);
      forall t: nat | MaySend(s, t) ensures call.confirmed && SenderOk(s', t) {}
      forall t: nat | t < |s'.tasks| ensures TaskOk(s', t) {
        assert t < |s.tasks| ==> TaskOk(s, t);
      }
      forall t: nat | MaySend(s', t) ensures t == |s.tasks| || MaySend(s, t) ensures SenderOk(s', t) {
        assert t < |s.tasks| ==> MaySend(s, t);
      }
  }

  lemma SettleKeepsInv(s: Deal, a: Action)
    requires Inv(s) && a.SettleLeg? && Enabled(s, a)
    ensures Inv(Step(s, a))
  {
    var s' := Step(s, a);
    assert MaySend(s, a.t) by { assert TaskOk(s, a.t); }
    forall p: nat ensures Live(s', p) <==> Live(s, p) {}
    forall t: nat | MaySend(s', t) ensures t == a.t && SenderOk(s', t) { assert MaySend(s, t); }
    forall t: nat | t < |s'.tasks| ensures TaskOk(s', t) { assert TaskOk(s, t); }
  }

  lemma PayKeepsInv(s: Deal, a: Action)
    requires Inv(s) && a.PayLeg? && Enabled(s, a)
    ensures Inv(Step(s, a))
  {
    var s' := Step(s, a);
    assert MaySend(s, a.t) by { assert TaskOk(s, a.t); }
    assert NoneLive(s) && SenderOk(s, a.t);
    forall p: nat ensures Live(s', p) <==> a.sent && p == |s.payouts| { assert !Live(s, p); }
    forall t: nat | MaySend(s', t) ensures t == a.t && SenderOk(s', t) { assert MaySend(s, t); }
    forall t: nat | t < |s'.tasks| ensures TaskOk(s', t) { assert TaskOk(s, t); }
  }

  /** Releases already running do not care where the status column goes. */
  lemma RowStatusKeepsInv(s: Deal, status: Status)
    requires Inv(s) && HistoryOk(SetStatus(s, status))
    ensures Inv(SetStatus(s, status))
  {
    var s' := SetStatus(s, status);
    forall p: nat ensures Live(s', p) <==> Live(s, p) {}
    forall t: nat | MaySend(s', t) ensures MaySend(s, t) && SenderOk(s', t) { assert MaySend(s, t) && SenderOk(s, t); }
    forall t: nat | t < |s'.tasks| ensures TaskOk(s', t) { assert TaskOk(s, t); }
  }

  predicate Quiet(task: Task) {
    !task.Release? && (task.Patch? ==> IsFreelancerTarget(task.target))
  }

  /** Nor does it matter that a call that cannot send appears, ends or is replaced. */
  lemma QuietTaskKeepsInv(s: Deal, s': Deal)
    requires Inv(s)
    requires s' == s.(tasks := s'.tasks, log := s'.log)
    requires s'.log.released == s.log.released && s'.log.refunded == s.log.refunded
    requires forall t: nat :: t < |s'.tasks| ==>
               (t < |s.tasks| && s'.tasks[t] == s.tasks[t]) || Quiet(s'.tasks[t])
    ensures Inv(s')
  {
    forall p: nat ensures Live(s', p) <==> Live(s, p) {}
    forall t: nat | MaySend(s', t) ensures MaySend(s, t) && SenderOk(s', t) { assert MaySend(s, t) && SenderOk(s, t); }
    forall t: nat | t < |s'.tasks| ensures TaskOk(s', t) {
      assert t < |s.tasks| ==> TaskOk(s, t);
    }
  }

  /** Phase 3 ends its call, and may then release the row and record the call's payout in it. */
  lemma FinalizeKeepsInv(s: Deal, a: Action)
    requires Inv(s) && a.FinalizeLeg? && Enabled(s, a)
    ensures Inv(Step(s, a))
  {
    var s' := Step(s, a);
    var call := s.tasks[a.t];
    var ended := SetTask(s, a.t, Done);
    assert TaskOk(s, a.t);
    QuietTaskKeepsInv(s, ended);
    if s'.row.payoutId == s.row.payoutId {
      assert call.confirmed ==> Live(s, call.payoutId.value);
      assert !call.confirmed ==> SenderOk(s, a.t);
      if s' != ended {
        RowStatusKeepsInv(ended, Released);
      }
    } else {
      RecordingKeepsInv(s, a);
    }
  }

  /** The payout id is recorded over a bare marker: by then nobody else may send. */
  lemma RecordingKeepsInv(s: Deal, a: Action)
    requires Inv(s) && a.FinalizeLeg? && Enabled(s, a) && Step(s, a).row.payoutId != s.row.payoutId
    ensures Inv(Step(s, a))
  {
    var s' := Step(s, a);
    var call := s.tasks[a.t];
    assert TaskOk(s, a.t);
    assert call.confirmed ==> Live(s, call.payoutId.value);
    assert !call.confirmed ==> MaySend(s, a.t) && SenderOk(s, a.t);
    forall p: nat ensures Live(s', p) <==> Live(s, p) {}
    forall t: nat | MaySend(s', t) ensures MaySend(s, t) && SenderOk(s', t) {
      assert MaySend(s, t) && SenderOk(s, t);
    }
    forall t: nat | t < |s'.tasks| ensures TaskOk(s', t) { assert TaskOk(s, t); }
  }

  lemma ConfirmKeepsInv(s: Deal, a: Action)
    requires Inv(s) && a.Confirm? && Enabled(s, a) && Honest(s, a)
    ensures Inv(Step(s, a))
  {
    var s' := Step(s, a);
    if a.report == Confirmed && CanTransition(s.row.status, Released) {
      assert Live(s, a.p);
      forall p: nat ensures Live(s', p) <==> Live(s, p) {}
      forall t: nat | MaySend(s', t) ensures MaySend(s, t) && SenderOk(s', t) {
        assert MaySend(s, t) && SenderOk(s, t);
      }
      forall t: nat | t < |s'.tasks| ensures TaskOk(s', t) { assert TaskOk(s, t); }
    }
  }

  /** confirm_payout asks LNbits whether the named payout was paid, not whose it was: the promise
      that it is this deal's is exactly what the invariant needs, unless the call changes nothing. */
  lemma ConfirmIsSafeIff(s: Deal, a: Action)
    requires Inv(s) && a.Confirm? && Enabled(s, a)
    ensures Inv(Step(s, a)) <==> a.p < |s.payouts| || Step(s, a) == s
  {
    if a.p < |s.payouts| {
      ConfirmKeepsInv(s, a);
    }
  }

  /** Clearing the two tracking columns keeps the inductive invariant exactly when nothing is
      live and nothing else may send: the operator's promise for reset_payout, and the code's own
      state when a failed leg clears behind itself. EscrowReset says when a clear really leads to
      a second payout. */
  lemma ClearingIsSafeIff(s: Deal, t: nat)
    requires Inv(s) && t < |s.tasks| && (s.tasks[t].Reset? || IsAt(s, t, Clearing))
    ensures Inv(SetTask(s.(row := Cleared(s.row)), t, Done))
            <==> NoneLive(s) && forall u: nat :: MaySend(s, u) ==> u == t
  {
    var s' := SetTask(s.(row := Cleared(s.row)), t, Done);
    forall p: nat ensures Live(s', p) <==> Live(s, p) {}
    if Inv(s') {
      forall u: nat ensures !MaySend(s', u) { assert MaySend(s', u) ==> SenderOk(s', u); }
      forall u: nat | MaySend(s, u) ensures u == t { assert u != t ==> MaySend(s', u); }
      forall p: nat ensures !Live(s, p) { assert !Live(s', p); }
    }
    if NoneLive(s) && forall u: nat :: MaySend(s, u) ==> u == t {
      forall u: nat ensures !MaySend(s', u) { assert MaySend(s', u) ==> MaySend(s, u); }
      forall u: nat | u < |s'.tasks| ensures TaskOk(s', u) {
        assert TaskOk(s, u);
        if u != t && s.tasks[u].Release? && s.tasks[u].confirmed {
          assert Live(s, s.tasks[u].payoutId.value);
        }
      }
    }
  }

  /** The one release that may pay clears behind itself. */
  lemma ClearKeepsInv(s: Deal, a: Action)
    requires Inv(s) && a.ClearLeg? && Enabled(s, a)
    ensures Inv(Step(s, a))
  {
    assert MaySend(s, a.t) by { assert TaskOk(s, a.t); }
    assert SenderOk(s, a.t);
    ClearingIsSafeIff(s, a.t);
  }

  lemma CompareAndSetKeepsInv(s: Deal, t: nat, expected: Status, status: Status, next: Task)
    requires Inv(s) && t < |s.tasks| && Quiet(next)
    requires s.row.status == expected ==> HistoryOk(SetStatus(s, status))
    ensures Inv(CompareAndSet(s, t, expected, status, next))
  {
    if s.row.status == expected {
      RowStatusKeepsInv(s, status);
      QuietTaskKeepsInv(SetStatus(s, status), CompareAndSet(s, t, expected, status, next));
    } else {
      QuietTaskKeepsInv(s, CompareAndSet(s, t, expected, status, next));
    }
  }

  lemma NetworkKeepsInv(s: Deal, a: Action)
    requires Inv(s) && Enabled(s, a) && (a.Fund? || a.Return? || a.Resolve?)
    ensures Inv(Step(s, a))
  {
    var s' := Step(s, a);
    forall p: nat ensures Live(s', p) ==> Live(s, p) {}
    forall t: nat | MaySend(s', t) ensures MaySend(s, t) && SenderOk(s', t) { assert MaySend(s, t) && SenderOk(s, t); }
    forall t: nat | t < |s'.tasks| ensures TaskOk(s', t) { assert TaskOk(s, t); }
  }

  lemma RefundKeepsInv(s: Deal, a: Action)
    requires Inv(s) && a.Refund? && Enabled(s, a)
    ensures Inv(Step(s, a))
  {
    var s1 := s.(hold := HoldAfter(s.hold, a.took, Dead));
    if a.took {
      assert s1 == Step(s, Return);
      NetworkKeepsInv(s, Return);
    }
    if a.ok && a.committed {
      RowStatusKeepsInv(s1, Refunded);
    }
  }

  lemma StatusWriteKeepsInv(s: Deal, a: Action)
    requires Inv(s) && Enabled(s, a) && IsStatusWrite(a)
    ensures Inv(Step(s, a))
  {
    match a
    case PatchWrite(t) =>
      assert TaskOk(s, t);
      CompareAndSetKeepsInv(s, t, s.row.status, s.tasks[t].target, Done);
    case DisputeWrite(t) => CompareAndSetKeepsInv(s, t, s.tasks[t].expected, Disputed, Done);
    case LockWrite(t) => CompareAndSetKeepsInv(s, t, AwaitingPayment, Locked, Notify);
    case SweepWrite(t, gone) =>
      if gone {
        CompareAndSetKeepsInv(s, t, s.tasks[t].expected, Refunded, Done);
      } else {
        QuietTaskKeepsInv(s, Step(s, a));
      }
  }

  predicate IsQuiet(a: Action) {
    a.ResetRead? || a.PatchRead? || a.DisputeRead? || a.SweepRead? || a.DetectRead? || a.NotifySent? || a.Crash?
  }

  lemma QuietStepKeepsInv(s: Deal, a: Action)
    requires Inv(s) && Enabled(s, a) && IsQuiet(a)
    ensures Inv(Step(s, a))
  {
    QuietTaskKeepsInv(s, Step(s, a));
  }

  /** The invariant is inductive under truthful operators, whatever the stale writers do. */
  lemma StepKeepsInv(s: Deal, a: Action)
    requires Inv(s) && Enabled(s, a) && Honest(s, a)
    ensures Inv(Step(s, a))
  {
    if IsQuiet(a) {
      QuietStepKeepsInv(s, a);
    } else if IsStatusWrite(a) {
      StatusWriteKeepsInv(s, a);
    } else {
      match a
      case Begin(_, _) => BeginKeepsInv(s, a);
      case SettleLeg(_, _, _) => SettleKeepsInv(s, a);
      case PayLeg(_, _, _, _) => PayKeepsInv(s, a);
      case ClearLeg(t) => ClearKeepsInv(s, a);
      case FinalizeLeg(_) => FinalizeKeepsInv(s, a);
      case Refund(_, _, _) => RefundKeepsInv(s, a);
      case Confirm(_, _) => ConfirmKeepsInv(s, a);
      case ResetClear(t) => ClearingIsSafeIff(s, t);
      case _ => NetworkKeepsInv(s, a);
    }
  }
}
