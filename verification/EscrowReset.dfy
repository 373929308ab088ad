/**
 reset_payout in general. The code clears the payout columns of any open deal that has one; the
 operator has to know when that is safe. Here: exactly when a clear can lead to two live payouts.
 */
module EscrowReset {
  import opened Results
  import opened Deals
  import opened LNbits
  import opened Escrow
  import opened EscrowSafety
  import opened EscrowOrder
  import opened EscrowReach
  import opened EscrowRecovery
  import EscrowRuns

  // ---------- what a fresh release can do after the clear ----------

  lemma MakeReleasable(s: Deal) returns (s': Deal)
    requires !IsTerminal(s.row.status)
    ensures Reaches(UNAIDED, s, s') && CanTransition(s'.row.status, Released)
    ensures s' == s.(row := s.row.(status := s'.row.status), tasks := s'.tasks)
    ensures |s.tasks| <= |s'.tasks| && forall t: nat :: t < |s.tasks| ==> s'.tasks[t] == s.tasks[t]
  {
    Stay(UNAIDED, s);
    s' := s;
    if s.row.status == AwaitingPayment || s.row.status == Locked {
      var read := Then(UNAIDED, s, s, PatchRead(WorkSubmitted));
      s' := Then(UNAIDED, s, read, PatchWrite(|s.tasks|));
    }
  }

  /** From an open deal with cleared columns a fresh release can always pay. */
  lemma PaysAfresh(s: Deal) returns (s': Deal)
    requires Funded(s) && s.row == Cleared(s.row) && s.hasPreimage
    ensures Reaches(UNAIDED, s, s')
    ensures s'.payouts == s.payouts + [Payout(Pending, 0)] && s'.hold == Settled
    ensures s'.hasPreimage && !IsTerminal(s'.row.status)
    ensures |s.tasks| <= |s'.tasks| && forall t: nat :: t < |s.tasks| ==> s'.tasks[t] == s.tasks[t]
  {
    var open := MakeReleasable(s);
    s' := BeginAndPay(UNAIDED, s, open, Client);
  }

  /** A release between phase 1 and its payout, or about to clear behind a failed leg. */
  predicate IsUnsent(s: Deal, u: nat) {
    IsAt(s, u, Settling) || IsAt(s, u, Paying) || IsAt(s, u, Clearing)
  }

  /** A release that has not sent yet, under cleared columns: it pays after all, or clears the
      marker of the next one. */
  lemma UnsentPaysTwice(s: Deal, u: nat) returns (s': Deal)
    requires IsUnsent(s, u) && Funded(s) && s.row == Cleared(s.row) && s.hasPreimage
    ensures Reaches(UNAIDED, s, s')
    ensures Live(s', |s.payouts|) && Live(s', |s.payouts| + 1)
  {
    var once := PaysAfresh(s);
    match s.tasks[u].leg
    case Settling =>
      s' := SettleAndPay(UNAIDED, once, u);
      Join(UNAIDED, s, once, s');
    case Paying =>
      s' := Then(UNAIDED, s, once, PayLeg(u, Accepted(true), true, 0));
    case Clearing =>
      var again := Then(UNAIDED, s, once, ClearLeg(u));
      s' := PaysAfresh(again);
      Join(UNAIDED, s, again, s');
  }

  /** A reset over a live payout leads to a second one, from every such state. */
  lemma ResetOverLivePaysTwice(s: Deal, t: nat, p: nat) returns (s': Deal)
    requires Enabled(s, ResetClear(t)) && Live(s, p) && Funded(s) && s.hasPreimage
    ensures Reaches(UNAIDED, Step(s, ResetClear(t)), s')
    ensures Live(s', p) && Live(s', |s.payouts|)
  {
    s' := PaysAfresh(Step(s, ResetClear(t)));
  }

  /** So does a reset under a release that has not sent yet, whether or not the client has paid
      already. */
  lemma ResetUnderSenderPaysTwice(s: Deal, t: nat, u: nat) returns (s': Deal)
    requires Enabled(s, ResetClear(t)) && IsUnsent(s, u) && s.hasPreimage
    requires !IsTerminal(s.row.status) && s.hold != Dead
    ensures Reaches(HONEST_LAWFUL, Step(s, ResetClear(t)), s')
    ensures Live(s', |s.payouts|) && Live(s', |s.payouts| + 1)
  {
    var cleared := Step(s, ResetClear(t));
    Stay(HONEST_LAWFUL, cleared);
    var funded := cleared;
    if s.hold == Open {
      funded := Then(HONEST_LAWFUL, cleared, cleared, Fund);
    }
    assert cleared.tasks[u] == s.tasks[u];
    s' := UnsentPaysTwice(funded, u);
    LoosenReach(UNAIDED, HONEST_LAWFUL, funded, s');
    Join(HONEST_LAWFUL, cleared, funded, s');
  }

  // ---------- when it cannot lead to a second payout ----------

  function Without(s: Deal, u: nat): Deal
    requires u < |s.tasks|
  {
    SetTask(s, u, Done)
  }

  /** Call u stands before phase 3 over a failed payout, and is all that may be wrong. */
  ghost predicate Harmless(s: Deal, u: nat) {
    && MaySend(s, u)
    && s.tasks[u].leg == Finalizing
    && s.tasks[u].sent.Some?
    && s.tasks[u].sent.value < |s.payouts|
    && s.payouts[s.tasks[u].sent.value].verdict == Failed
    && (s.tasks[u].payoutId == None || s.tasks[u].payoutId == s.tasks[u].sent)
    && Inv(Without(s, u))
  }

  predicate StandsBeforePhase3(s: Deal, u: nat) {
    u < |s.tasks| && s.tasks[u].Release? && s.tasks[u].leg == Finalizing
  }

  lemma OthersMayStep(s: Deal, a: Action, u: nat)
    requires StandsBeforePhase3(s, u) && Enabled(s, a) && Honest(s, a) && a != FinalizeLeg(u) && a != Crash(u)
    ensures Enabled(Without(s, u), a) && Honest(Without(s, u), a)
  {
    var s0 := Without(s, u);
    forall t: nat ensures MaySend(s0, t) ==> MaySend(s, t) {}
    forall p: nat ensures Live(s0, p) <==> Live(s, p) {}
  }

  /** The list of calls after a step: one more at its end, or one of them moved on. */
  lemma TasksAlike(tasks: seq<Task>, u: nat, t: nat, task: Task)
    requires u < |tasks|
    ensures (tasks + [task])[u := Done] == tasks[u := Done] + [task]
    ensures t < |tasks| && t != u ==> tasks[t := task][u := Done] == tasks[u := Done][t := task]
  {
  }

  ghost predicate StepsAlike(s: Deal, a: Action, u: nat) {
    && StandsBeforePhase3(s, u) && Enabled(s, a) && Enabled(Without(s, u), a)
    && u < |Step(s, a).tasks| && Step(s, a).tasks[u] == s.tasks[u]
    && Without(Step(s, a), u) == Step(Without(s, u), a)
  }

  lemma LegsStepAlike(s: Deal, a: Action, u: nat)
    requires StandsBeforePhase3(s, u) && Enabled(s, a) && a != FinalizeLeg(u) && Enabled(Without(s, u), a)
    requires IsLeg(a)
    ensures StepsAlike(s, a, u)
  {
    TasksAlike(s.tasks, u, a.t, Step(s, a).tasks[a.t]);
  }

  lemma EndsStepAlike(s: Deal, a: Action, u: nat)
    requires StandsBeforePhase3(s, u) && Enabled(s, a) && a != Crash(u) && Enabled(Without(s, u), a)
    requires IsStatusWrite(a) || IsEnd(a)
    ensures StepsAlike(s, a, u)
  {
    TasksAlike(s.tasks, u, a.t, Step(s, a).tasks[a.t]);
  }

  lemma StartsStepAlike(s: Deal, a: Action, u: nat)
    requires StandsBeforePhase3(s, u) && Enabled(s, a) && Enabled(Without(s, u), a)
    requires IsStart(a)
    ensures StepsAlike(s, a, u)
  {
    var s' := Step(s, a);
    if |s'.tasks| > |s.tasks| {
      TasksAlike(s.tasks, u, 0, s'.tasks[|s.tasks|]);
    }
  }

  /** Other calls step as if the failed one were gone. */
  lemma OthersStepAlike(s: Deal, a: Action, u: nat)
    requires StandsBeforePhase3(s, u) && Enabled(s, a) && a != FinalizeLeg(u) && a != Crash(u)
    requires Enabled(Without(s, u), a)
    ensures StepsAlike(s, a, u)
  {
    if IsLeg(a) {
      LegsStepAlike(s, a, u);
    } else if IsStatusWrite(a) || IsEnd(a) {
      EndsStepAlike(s, a, u);
    } else if IsStart(a) {
      StartsStepAlike(s, a, u);
    }
  }

  lemma OthersKeepHarmless(s: Deal, a: Action, u: nat)
    requires Harmless(s, u) && Enabled(s, a) && Honest(s, a) && a != FinalizeLeg(u) && a != Crash(u)
    ensures Harmless(Step(s, a), u) && Step(s, a).tasks[u] == s.tasks[u]
  {
    OthersMayStep(s, a, u);
    OthersStepAlike(s, a, u);
    StepKeepsInv(Without(s, u), a);
  }

  /** A closed deal: no two payouts live, and at most one call that could still add one. */
  ghost predicate Closed(s: Deal) {
    && IsTerminal(s.row.status)
    && WritesFromReads(s)
    && AtMostOneLive(s)
    && (forall t: nat, u: nat :: MaySend(s, t) && MaySend(s, u) ==> t == u)
    && (forall t: nat :: IsUnsent(s, t) ==> MaySend(s, t) && NoneLive(s))
  }

  /** Only a payout leg adds a payout, and a release that stays unsent has not added one. */
  lemma PayoutsMove(s: Deal, a: Action)
    requires Enabled(s, a)
    ensures forall p: nat :: Live(Step(s, a), p) ==> Live(s, p) || (a.PayLeg? && p == |s.payouts|)
    ensures a.PayLeg? && IsUnsent(Step(s, a), a.t) ==> Step(s, a).payouts == s.payouts
  {
  }

  /** A closed deal starts no release. */
  lemma ClosedStartsNone(s: Deal, a: Action)
    requires Enabled(s, a) && IsTerminal(s.row.status) && |Step(s, a).tasks| > |s.tasks|
    ensures !Step(s, a).tasks[|s.tasks|].Release?
  {
  }

  lemma SendersMove(s: Deal, a: Action, s': Deal)
    requires CallsMove(s, a, s') && (|s'.tasks| > |s.tasks| ==> !s'.tasks[|s.tasks|].Release?)
    ensures forall t: nat :: MaySend(s', t) ==> MaySend(s, t)
    ensures forall t: nat :: IsUnsent(s', t) ==> IsUnsent(s, t)
  {
    forall t: nat | t < |s'.tasks| && s'.tasks[t].Release?
      ensures t < |s.tasks| && s.tasks[t].Release? && s.tasks[t].confirmed == s'.tasks[t].confirmed
      ensures s'.tasks[t].leg != Finalizing ==> s.tasks[t].leg != Finalizing
    {
      assert t < |s.tasks|;
    }
  }

  lemma LawfulKeepsClosed(s: Deal, a: Action)
    requires Closed(s) && Permitted(LAWFUL, s, a)
    ensures Closed(Step(s, a))
  {
    var s' := Step(s, a);
    TerminalStays(s, a);
    StepKeepsWrites(s, a);
    PayoutsMove(s, a);
    StepMoves(s, a);
    if |s'.tasks| > |s.tasks| {
      ClosedStartsNone(s, a);
    }
    SendersMove(s, a, s');
    assert a.PayLeg? ==> IsUnsent(s, a.t);
    forall t: nat | IsUnsent(s', t) ensures MaySend(s', t) && NoneLive(s') {
      assert IsUnsent(s, t) && MaySend(s, t);
    }
  }

  lemma {:induction false} ClosedKeepsOneLive(mode: Assuming, s: Deal, acts: seq<Action>)
    requires mode.lawful && Closed(s) && Run(mode, s, acts)
    ensures AtMostOneLive(Exec(mode, s, acts))
    decreases |acts|
  {
    if acts != [] {
      LawfulKeepsClosed(s, acts[0]);
      ClosedKeepsOneLive(mode, Step(s, acts[0]), acts[1..]);
    }
  }

  /** When the failed release ends, the invariant is back; or, if it carried an id, it has put
      that id over the marker of a later release and has closed the deal. */
  lemma FailedReleaseEnds(s: Deal, a: Action, u: nat)
    requires Harmless(s, u) && WritesFromReads(s) && (a == FinalizeLeg(u) || a == Crash(u))
    ensures Enabled(s, a)
    ensures Inv(Step(s, a)) || (s.tasks[u].payoutId.Some? && Closed(Step(s, a)))
  {
    var s0 := Without(s, u);
    var s' := Step(s, a);
    if s'.row == s.row {
      assert s' == s0;
    } else if s'.row == s.row.(status := Released) {
      RowStatusKeepsInv(s0, Released);
      assert s' == SetStatus(s0, Released);
    } else {
      StepKeepsWrites(s, a);
      forall p: nat ensures Live(s', p) <==> Live(s0, p) {}
      forall t: nat ensures MaySend(s', t) <==> MaySend(s0, t) {}
      forall t: nat | IsUnsent(s', t) ensures MaySend(s', t) && NoneLive(s') {
        assert TaskOk(s0, t);
        assert SenderOk(s0, t);
      }
    }
  }

  /** So a release over a failed payout that is left running under a reset does no harm: in lawful
      runs never, and in any run if its payout came without an id. */
  lemma {:induction false} HarmlessKeepsOneLive(mode: Assuming, s: Deal, acts: seq<Action>, u: nat)
    requires mode.honest && Harmless(s, u) && WritesFromReads(s) && Run(mode, s, acts)
    requires mode.lawful || s.tasks[u].payoutId == None
    ensures AtMostOneLive(Exec(mode, s, acts))
    decreases |acts|
  {
    if acts == [] {
      forall p: nat, q: nat | Live(s, p) && Live(s, q) ensures p == q {
        assert Live(Without(s, u), p) && Live(Without(s, u), q);
      }
    } else {
      var a, rest := acts[0], acts[1..];
      StepKeepsWrites(s, a);
      if a == FinalizeLeg(u) || a == Crash(u) {
        FailedReleaseEnds(s, a, u);
        if Inv(Step(s, a)) {
          EscrowRuns.RunKeepsInv(mode, Step(s, a), rest);
        } else {
          ClosedKeepsOneLive(mode, Step(s, a), rest);
        }
      } else {
        OthersKeepHarmless(s, a, u);
        HarmlessKeepsOneLive(mode, Step(s, a), rest, u);
      }
    }
  }

  // ---------- the theorem ----------

  ghost predicate OneLiveForever(mode: Assuming, s: Deal) {
    forall s' :: Reaches(mode, s, s') ==> AtMostOneLive(s')
  }

  /** Nothing is pending or paid, and every release in flight has sent. */
  ghost predicate NothingToLose(s: Deal) {
    NoneLive(s) && forall u: nat :: !IsUnsent(s, u)
  }

  lemma LeftRunningIsHarmless(s: Deal, t: nat, u: nat)
    requires Inv(s) && NothingToLose(s) && Enabled(s, ResetClear(t)) && MaySend(s, u)
    ensures Harmless(Step(s, ResetClear(t)), u)
    ensures Step(s, ResetClear(t)).tasks[u] == s.tasks[u]
  {
    var cleared := Step(s, ResetClear(t));
    assert !IsUnsent(s, u) && SenderOk(s, u);
    assert !Live(s, s.tasks[u].sent.value);
    var s0 := Without(s, u);
    assert s0 == Step(s, Crash(u));
    QuietStepKeepsInv(s, Crash(u));
    forall p: nat ensures !Live(s0, p) { assert !Live(s, p); }
    forall v: nat ensures !MaySend(s0, v) { assert MaySend(s0, v) ==> MaySend(s, v); }
    ClearingIsSafeIff(s0, t);
    assert Without(cleared, u).tasks == Step(s0, ResetClear(t)).tasks;
  }

  lemma SafeReset(mode: Assuming, s: Deal, t: nat)
    requires mode.honest && Sound(s) && NothingToLose(s) && Enabled(s, ResetClear(t))
    requires mode.lawful || forall u: nat :: MaySend(s, u) ==> s.tasks[u].payoutId == None
    ensures OneLiveForever(mode, Step(s, ResetClear(t)))
  {
    var cleared := Step(s, ResetClear(t));
    StepKeepsWrites(s, ResetClear(t));
    forall s' | Reaches(mode, cleared, s') ensures AtMostOneLive(s') {
      var acts :| Run(mode, cleared, acts) && Exec(mode, cleared, acts) == s';
      if u: nat :| MaySend(s, u) {
        LeftRunningIsHarmless(s, t, u);
        HarmlessKeepsOneLive(mode, cleared, acts, u);
      } else {
        ClearingIsSafeIff(s, t);
        EscrowRuns.RunKeepsInv(mode, cleared, acts);
      }
    }
  }

  /** Without a preimage, or once the hold is dead, no payout is ever sent. */
  ghost predicate Moneyless(s: Deal) {
    && |s.payouts| == 0
    && (s.hold == Dead || (!s.hasPreimage && s.hold != Settled))
    && (forall t: nat :: !IsAt(s, t, Paying))
  }

  lemma {:induction false} MoneylessStays(mode: Assuming, s: Deal, acts: seq<Action>)
    requires Moneyless(s) && Run(mode, s, acts)
    ensures Moneyless(Exec(mode, s, acts))
    decreases |acts|
  {
    if acts != [] {
      var s' := Step(s, acts[0]);
      forall t: nat ensures !IsAt(s', t, Paying) { assert !IsAt(s, t, Paying); }
      MoneylessStays(mode, s', acts[1..]);
    }
  }

  /** No release of this deal can send any more, other than one already under way. */
  predicate IsOver(s: Deal) {
    IsTerminal(s.row.status) || s.hold == Dead || !s.hasPreimage
  }

  lemma PayingNeedsSettled(s: Deal, u: nat)
    requires Inv(s)
    ensures IsAt(s, u, Paying) ==> s.hold == Settled
  {
    assert IsAt(s, u, Paying) ==> TaskOk(s, u);
    assert MaySend(s, u) ==> SenderOk(s, u);
  }

  lemma MoneylessReset(mode: Assuming, s: Deal, t: nat)
    requires Sound(s) && Enabled(s, ResetClear(t))
    requires s.hold == Dead || (!s.hasPreimage && s.hold != Settled)
    ensures OneLiveForever(mode, Step(s, ResetClear(t)))
  {
    var cleared := Step(s, ResetClear(t));
    forall u: nat ensures !IsAt(cleared, u, Paying) {
      PayingNeedsSettled(s, u);
      assert IsAt(cleared, u, Paying) ==> IsAt(s, u, Paying);
    }
    forall s' | Reaches(mode, cleared, s') ensures AtMostOneLive(s') {
      var acts :| Run(mode, cleared, acts) && Exec(mode, cleared, acts) == s';
      MoneylessStays(mode, cleared, acts);
    }
  }

  lemma TerminalReset(s: Deal, t: nat)
    requires Sound(s) && Enabled(s, ResetClear(t)) && IsTerminal(s.row.status)
    ensures OneLiveForever(HONEST_LAWFUL, Step(s, ResetClear(t)))
  {
    var cleared := Step(s, ResetClear(t));
    StepKeepsWrites(s, ResetClear(t));
    forall p: nat ensures Live(cleared, p) <==> Live(s, p) {}
    forall u: nat ensures MaySend(cleared, u) <==> MaySend(s, u) {}
    forall u: nat | IsUnsent(cleared, u) ensures MaySend(s, u) && SenderOk(s, u) { assert TaskOk(s, u); }
    forall s' | Reaches(HONEST_LAWFUL, cleared, s') ensures AtMostOneLive(s') {
      var acts :| Run(HONEST_LAWFUL, cleared, acts) && Exec(HONEST_LAWFUL, cleared, acts) == s';
      ClosedKeepsOneLive(HONEST_LAWFUL, cleared, acts);
    }
  }

  /** Whatever reachable state reset_payout clears in: no lawful run has two live payouts
      afterwards, if and only if at that moment no payout is live and no release stands before
      its payout or before its own clear, or the deal is over. */
  lemma ResetIsSafeIff(amount: nat, hasPreimage: bool, acts: seq<Action>, t: nat)
    requires Run(HONEST, Fresh(amount, hasPreimage), acts)
    requires Enabled(Exec(HONEST, Fresh(amount, hasPreimage), acts), ResetClear(t))
    ensures var s := Exec(HONEST, Fresh(amount, hasPreimage), acts);
            OneLiveForever(HONEST_LAWFUL, Step(s, ResetClear(t))) <==> NothingToLose(s) || IsOver(s)
  {
    var s := Exec(HONEST, Fresh(amount, hasPreimage), acts);
    ReachableIsSound(amount, hasPreimage, acts);
    PreimageStays(HONEST, Fresh(amount, hasPreimage), acts);
    if NothingToLose(s) {
      SafeReset(HONEST_LAWFUL, s, t);
    } else if IsTerminal(s.row.status) {
      TerminalReset(s, t);
    } else if IsOver(s) {
      MoneylessReset(HONEST_LAWFUL, s, t);
    } else {
      UnsafeReset(s, t);
    }
  }

  lemma UnsafeReset(s: Deal, t: nat)
    requires Sound(s) && Enabled(s, ResetClear(t)) && !NothingToLose(s) && !IsOver(s)
    ensures !OneLiveForever(HONEST_LAWFUL, Step(s, ResetClear(t)))
  {
    var s': Deal;
    if p: nat :| Live(s, p) {
      s' := ResetOverLivePaysTwice(s, t, p);
      LoosenReach(UNAIDED, HONEST_LAWFUL, Step(s, ResetClear(t)), s');
    } else {
      var u: nat :| IsUnsent(s, u);
      s' := ResetUnderSenderPaysTwice(s, t, u);
    }
  }
}
