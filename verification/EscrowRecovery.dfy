/**
 Recovery, in lawful runs. From a reachable open deal whose sats are committed, the code and a
 truthful operator bring it to released, paid exactly once, without any call dying, unless the row
 has no preimage or one particular release is in flight: authorized from disputed, over a payout
 that has failed. No lawful step stops that release, and it closes the deal unpaid.
 */
module EscrowRecovery {
  import opened Deals
  import opened LNbits
  import opened Escrow
  import opened EscrowSafety
  import opened EscrowOrder
  import opened EscrowReach
  import EscrowRuns

  /** What every run of truthful operators keeps. */
  ghost predicate Sound(s: Deal) {
    Inv(s) && WritesFromReads(s) && ReleasesAreLate(s)
  }

  lemma StepKeepsSound(s: Deal, a: Action)
    requires Sound(s) && Enabled(s, a) && Honest(s, a)
    ensures Sound(Step(s, a))
  {
    StepKeepsInv(s, a);
    StepKeepsWrites(s, a);
    StepKeepsLate(s, a);
  }

  lemma ReachableIsSound(amount: nat, hasPreimage: bool, acts: seq<Action>)
    requires Run(HONEST, Fresh(amount, hasPreimage), acts)
    ensures Sound(Exec(HONEST, Fresh(amount, hasPreimage), acts))
  {
    EscrowRuns.FreshInv(amount, hasPreimage);
    EscrowRuns.RunKeepsInv(HONEST, Fresh(amount, hasPreimage), acts);
    RunKeepsLate(HONEST, Fresh(amount, hasPreimage), acts);
  }

  /** Open, with the client's sats held or already settled. */
  predicate Funded(s: Deal) {
    !IsTerminal(s.row.status) && (s.hold == Held || s.hold == Settled)
  }

  /** LNbits has given its verdict on every payout. */
  predicate Decided(s: Deal) {
    forall p: nat :: p < |s.payouts| ==> s.payouts[p].verdict != Pending
  }

  ghost predicate PaidExactlyOnce(s: Deal) {
    s.row.status == Released && AtMostOneLive(s) && exists p: nat :: Live(s, p)
  }

  /** Released, and the one live payout has arrived. */
  ghost predicate Delivered(s: Deal) {
    s.row.status == Released && AtMostOneLive(s) && exists p: nat :: IsPaid(s, p)
  }

  /** Call u is about to finalize a release authorized from disputed whose payout has failed. */
  predicate Dooms(s: Deal, u: nat) {
    && MaySend(s, u)
    && s.tasks[u].leg == Finalizing
    && s.tasks[u].original == Disputed
    && s.tasks[u].sent.Some?
    && s.tasks[u].sent.value < |s.payouts|
    && s.payouts[s.tasks[u].sent.value].verdict == Failed
  }

  ghost predicate Doomed(s: Deal) {
    exists u: nat :: Dooms(s, u)
  }

  ghost predicate NoSender(s: Deal) {
    forall t: nat :: !MaySend(s, t)
  }

  /** What the recovery lemmas start from and keep. */
  ghost predicate Recoverable(s: Deal) {
    Sound(s) && s.hasPreimage && Funded(s) && Decided(s)
  }

  // ---------- getting there ----------

  /** The freelancer submits when the client could not approve yet. */
  lemma Submit(s: Deal) returns (s': Deal)
    requires Recoverable(s)
    ensures Reaches(UNAIDED, s, s') && Recoverable(s')
    ensures CanTransition(s'.row.status, Released)
    ensures s'.payouts == s.payouts
    ensures forall t: nat :: MaySend(s', t) ==> MaySend(s, t) && s'.tasks[t] == s.tasks[t]
  {
    Stay(UNAIDED, s);
    s' := s;
    if s.row.status == AwaitingPayment || s.row.status == Locked {
      var read := Then(UNAIDED, s, s, PatchRead(WorkSubmitted));
      StepKeepsSound(s, PatchRead(WorkSubmitted));
      s' := Then(UNAIDED, s, read, PatchWrite(|s.tasks|));
      StepKeepsSound(read, PatchWrite(|s.tasks|));
    }
  }

  /** A release that finds nothing live and no marker in its way settles, pays and finishes. */
  lemma ReleaseAfresh(s: Deal, report: PayoutReport) returns (s': Deal)
    requires Recoverable(s) && NoneLive(s) && CanTransition(s.row.status, Released)
    requires Permitted(UNAIDED, s, Begin(Client, report))
    requires Phase1(s.row, Client, report).Started?
    ensures Reaches(UNAIDED, s, s') && PaidExactlyOnce(s')
  {
    var t := |s.tasks|;
    Stay(UNAIDED, s);
    assert report == Confirmed && s.row.payoutId.Some? ==> Live(s, s.row.payoutId.value);
    var begun := Then(UNAIDED, s, s, Begin(Client, report));
    var paid := SettleAndPay(UNAIDED, begun, t);
    Join(UNAIDED, s, begun, paid);
    s' := Then(UNAIDED, s, paid, FinalizeLeg(t));
    assert Live(s', |s.payouts|);
    forall p: nat | Live(s', p) ensures p == |s.payouts| {
      assert p < |s.payouts| ==> Live(s, p);
    }
  }

  /** A recorded payout lets the deal be released: a paid one without paying again, a failed one
      by paying afresh. */
  lemma RecordedPayout(s: Deal) returns (s': Deal)
    requires Recoverable(s) && CanTransition(s.row.status, Released) && s.row.payoutId.Some?
    ensures Reaches(UNAIDED, s, s') && PaidExactlyOnce(s')
  {
    var p := s.row.payoutId.value;
    if s.payouts[p].verdict == Failed {
      forall q: nat ensures !Live(s, q) { assert !Live(s, p); }
      s' := ReleaseAfresh(s, Refuted);
    } else {
      var t := |s.tasks|;
      Stay(UNAIDED, s);
      var begun := Then(UNAIDED, s, s, Begin(Client, Confirmed));
      StepKeepsInv(s, Begin(Client, Confirmed));
      s' := Then(UNAIDED, s, begun, FinalizeLeg(t));
      StepKeepsInv(begun, FinalizeLeg(t));
      assert Live(s', p);
    }
  }

  /** A payout that arrived is recorded by confirm_payout, also while its call is still running. */
  lemma PaidIsConfirmed(s: Deal, p: nat) returns (s': Deal)
    requires Inv(s) && CanTransition(s.row.status, Released) && IsPaid(s, p)
    ensures Reaches(UNAIDED, s, s') && PaidExactlyOnce(s')
  {
    Stay(UNAIDED, s);
    s' := Then(UNAIDED, s, s, Confirm(p, Confirmed));
    StepKeepsInv(s, Confirm(p, Confirmed));
    assert Live(s', p);
  }

  /** A bare marker with no call behind it is cleared by reset_payout. */
  lemma ResetMarker(s: Deal) returns (s': Deal)
    requires Recoverable(s) && s.row.attempted && NoneLive(s) && NoSender(s)
    ensures Reaches(UNAIDED, s, s') && Recoverable(s')
    ensures s'.row == Cleared(s.row) && s'.payouts == s.payouts
  {
    Stay(UNAIDED, s);
    var read := Then(UNAIDED, s, s, ResetRead);
    StepKeepsSound(s, ResetRead);
    forall p: nat ensures !Live(read, p) { assert !Live(s, p); }
    forall t: nat ensures !MaySend(read, t) { assert !MaySend(s, t); }
    s' := Then(UNAIDED, s, read, ResetClear(|s.tasks|));
    StepKeepsSound(read, ResetClear(|s.tasks|));
  }

  lemma UnrecordedPayout(s: Deal) returns (s': Deal)
    requires Recoverable(s) && CanTransition(s.row.status, Released) && s.row.payoutId.None?
    requires NoneLive(s) ==> NoSender(s)
    ensures Reaches(UNAIDED, s, s') && PaidExactlyOnce(s')
  {
    if p: nat :| Live(s, p) {
      s' := PaidIsConfirmed(s, p);
    } else if s.row.attempted {
      var reset := ResetMarker(s);
      forall p: nat ensures !Live(reset, p) { assert !Live(s, p); }
      s' := ReleaseAfresh(reset, NoVerdict);
      Join(UNAIDED, s, reset, s');
    } else {
      s' := ReleaseAfresh(s, NoVerdict);
    }
  }

  lemma RecoverQuiet(s: Deal) returns (s': Deal)
    requires Recoverable(s) && CanTransition(s.row.status, Released)
    requires NoneLive(s) ==> NoSender(s)
    ensures Reaches(UNAIDED, s, s') && PaidExactlyOnce(s')
  {
    if s.row.payoutId.Some? {
      s' := RecordedPayout(s);
    } else {
      s' := UnrecordedPayout(s);
    }
  }

  // ---------- letting the one release in flight come to its own end ----------

  /** A failing leg clears the marker behind itself. */
  lemma ClearBehind(s: Deal, u: nat) returns (s': Deal)
    requires Recoverable(s) && CanTransition(s.row.status, Released) && IsAt(s, u, Clearing)
    ensures Reaches(UNAIDED, s, s') && Recoverable(s') && NoSender(s')
    ensures CanTransition(s'.row.status, Released)
  {
    assert MaySend(s, u) by { assert TaskOk(s, u); }
    Stay(UNAIDED, s);
    s' := Then(UNAIDED, s, s, ClearLeg(u));
    StepKeepsSound(s, ClearLeg(u));
    forall t: nat ensures !MaySend(s', t) { assert MaySend(s', t) ==> MaySend(s, t); }
  }

  /** A release that has not sent yet ends when its settle or its payout is refused. */
  lemma EndUnsent(s: Deal, u: nat) returns (s': Deal)
    requires Recoverable(s) && CanTransition(s.row.status, Released)
    requires MaySend(s, u) && s.tasks[u].leg != Finalizing
    ensures Reaches(UNAIDED, s, s') && Recoverable(s') && NoSender(s')
    ensures CanTransition(s'.row.status, Released)
  {
    Stay(UNAIDED, s);
    var failed := s;
    if s.tasks[u].leg == Settling {
      failed := Then(UNAIDED, s, s, SettleLeg(u, false, false));
      StepKeepsSound(s, SettleLeg(u, false, false));
    } else if s.tasks[u].leg == Paying {
      failed := Then(UNAIDED, s, s, PayLeg(u, PayoutRefused, false, 0));
      StepKeepsSound(s, PayLeg(u, PayoutRefused, false, 0));
    }
    s' := ClearBehind(failed, u);
    Join(UNAIDED, s, failed, s');
  }

  /** The client disputes, so that phase 3 of a release that began before aborts. */
  lemma FreezeForAbort(s: Deal) returns (s': Deal)
    requires Recoverable(s) && CanTransition(s.row.status, Released)
    ensures Reaches(UNAIDED, s, s') && Recoverable(s')
    ensures s'.row.status == Disputed && s'.payouts == s.payouts
    ensures s'.tasks == s.tasks || s'.tasks == s.tasks + [Done]
  {
    Stay(UNAIDED, s);
    s' := s;
    if s.row.status != Disputed {
      var read := Then(UNAIDED, s, s, DisputeRead);
      StepKeepsSound(s, DisputeRead);
      s' := Then(UNAIDED, s, read, DisputeWrite(|s.tasks|));
      StepKeepsSound(read, DisputeWrite(|s.tasks|));
    }
  }

  lemma EndFailed(s: Deal, u: nat) returns (s': Deal)
    requires Recoverable(s) && CanTransition(s.row.status, Released) && NoneLive(s)
    requires MaySend(s, u) && s.tasks[u].leg == Finalizing && s.tasks[u].original != Disputed
    ensures Reaches(UNAIDED, s, s') && Recoverable(s') && NoSender(s')
    ensures CanTransition(s'.row.status, Released)
  {
    var frozen := FreezeForAbort(s);
    assert frozen.tasks[u] == s.tasks[u] && MaySend(frozen, u);
    s' := Then(UNAIDED, s, frozen, FinalizeLeg(u));
    StepKeepsSound(frozen, FinalizeLeg(u));
    forall t: nat ensures !MaySend(s', t) { assert MaySend(s', t) ==> MaySend(frozen, t); }
  }

  /** No call dies and the network only answers: released, with one live payout. */
  lemma Recover(s: Deal) returns (s': Deal)
    requires Recoverable(s) && !Doomed(s)
    ensures Reaches(UNAIDED, s, s') && PaidExactlyOnce(s')
  {
    var open := Submit(s);
    if u: nat :| MaySend(open, u) {
      assert MaySend(s, u) && !Dooms(s, u) && SenderOk(open, u);
      var sent := open.tasks[u].sent;
      if open.tasks[u].leg == Finalizing && IsPaid(open, sent.value) {
        s' := PaidIsConfirmed(open, sent.value);
      } else {
        var ended: Deal;
        if open.tasks[u].leg != Finalizing {
          ended := EndUnsent(open, u);
        } else {
          assert forall p: nat :: !Live(open, p);
          ended := EndFailed(open, u);
        }
        s' := RecoverQuiet(ended);
        Join(UNAIDED, open, ended, s');
      }
    } else {
      s' := RecoverQuiet(open);
    }
    Join(UNAIDED, s, open, s');
  }

  // ---------- and where it cannot be got to ----------

  lemma {:induction false} PreimageStays(mode: Assuming, s: Deal, acts: seq<Action>)
    requires Run(mode, s, acts)
    ensures Exec(mode, s, acts).hasPreimage == s.hasPreimage
    ensures !s.hasPreimage && s.hold != Settled ==> Exec(mode, s, acts).hold != Settled
    decreases |acts|
  {
    if acts != [] {
      PreimageStays(mode, Step(s, acts[0]), acts[1..]);
    }
  }

  /** A deal without a preimage never comes to released. */
  lemma NeedsPreimage(amount: nat, acts: seq<Action>, mode: Assuming, s': Deal)
    requires mode.honest && Run(HONEST, Fresh(amount, false), acts)
    requires Reaches(mode, Exec(HONEST, Fresh(amount, false), acts), s')
    ensures s'.row.status != Released
  {
    var s0 := Fresh(amount, false);
    var s := Exec(HONEST, s0, acts);
    EscrowRuns.FreshInv(amount, false);
    EscrowRuns.RunKeepsInv(HONEST, s0, acts);
    PreimageStays(HONEST, s0, acts);
    var more :| Run(mode, s, more) && Exec(mode, s, more) == s';
    EscrowRuns.RunKeepsInv(mode, s, more);
    PreimageStays(mode, s, more);
  }

  /** Nothing is live, and either the doomed release is still in flight or the deal is closed
      with no release left that may pay. */
  ghost predicate Lost(s: Deal) {
    Sound(s) && NoneLive(s) && (Doomed(s) || (IsTerminal(s.row.status) && NoSender(s)))
  }

  lemma DoomedIsLost(s: Deal)
    requires Sound(s) && Doomed(s)
    ensures Lost(s)
  {
    var u: nat :| Dooms(s, u);
    assert SenderOk(s, u);
    forall p: nat ensures !Live(s, p) {}
  }

  lemma LegsMaySend(s: Deal, a: Action)
    requires Inv(s) && Enabled(s, a)
    ensures a.SettleLeg? || a.PayLeg? || a.ClearLeg? ==> MaySend(s, a.t)
  {
    assert a.SettleLeg? || a.PayLeg? || a.ClearLeg? ==> TaskOk(s, a.t);
  }

  /** The doomed release admits no other, no reset and no payout. */
  lemma DoomBlocks(s: Deal, a: Action, u: nat)
    requires Sound(s) && Dooms(s, u) && NoneLive(s) && Permitted(STEADY, s, a)
    ensures !(a.SettleLeg? || a.PayLeg? || a.ClearLeg? || a.ResetClear? || a.Resolve? || a.Crash?)
    ensures a.FinalizeLeg? ==> a.t == u
    ensures a.Begin? ==> Step(s, a) == s
  {
    assert SenderOk(s, u);
    LegsMaySend(s, a);
    assert a.FinalizeLeg? ==> TaskOk(s, a.t) && (s.tasks[a.t].confirmed || MaySend(s, a.t));
    assert a.FinalizeLeg? && s.tasks[a.t].confirmed ==> Live(s, s.tasks[a.t].payoutId.value);
    forall p: nat | p < |s.payouts| ensures s.payouts[p].verdict == Failed { assert !Live(s, p); }
  }

  /** So it can only run into its end. */
  lemma DoomStays(s: Deal, a: Action, u: nat)
    requires Sound(s) && Dooms(s, u) && NoneLive(s) && Permitted(STEADY, s, a)
    ensures Lost(Step(s, a))
  {
    var s' := Step(s, a);
    StepKeepsSound(s, a);
    DoomBlocks(s, a, u);
    assert s'.payouts == s.payouts;
    forall p: nat ensures !Live(s', p) { assert !Live(s, p); }
    if a == FinalizeLeg(u) {
      forall t: nat ensures !MaySend(s', t) { assert MaySend(s', t) ==> MaySend(s, t); }
    } else {
      StepMoves(s, a);
      assert s.tasks[u].Release? && s'.tasks[u] == s.tasks[u];
      assert Dooms(s', u);
    }
  }

  lemma ClosedStays(s: Deal, a: Action)
    requires Sound(s) && NoneLive(s) && IsTerminal(s.row.status) && NoSender(s) && Permitted(STEADY, s, a)
    ensures Lost(Step(s, a))
  {
    var s' := Step(s, a);
    StepKeepsSound(s, a);
    TerminalStays(s, a);
    LegsMaySend(s, a);
    forall p: nat ensures !Live(s', p) { assert !Live(s, p); }
    forall t: nat ensures !MaySend(s', t) { assert MaySend(s', t) ==> MaySend(s, t); }
  }

  lemma {:induction false} LostStays(mode: Assuming, s: Deal, acts: seq<Action>)
    requires Weaker(STEADY, mode) && Lost(s) && Run(mode, s, acts)
    ensures Lost(Exec(mode, s, acts))
    decreases |acts|
  {
    if acts != [] {
      if u: nat :| Dooms(s, u) {
        DoomStays(s, acts[0], u);
      } else {
        ClosedStays(s, acts[0]);
      }
      LostStays(mode, Step(s, acts[0]), acts[1..]);
    }
  }

  /** Without a preimage, or once doomed, no such run ends paid. */
  lemma NeverPaid(amount: nat, hasPreimage: bool, acts: seq<Action>, mode: Assuming, s': Deal)
    requires Weaker(STEADY, mode) && Run(HONEST, Fresh(amount, hasPreimage), acts)
    requires !hasPreimage || Doomed(Exec(HONEST, Fresh(amount, hasPreimage), acts))
    requires Reaches(mode, Exec(HONEST, Fresh(amount, hasPreimage), acts), s')
    ensures !PaidExactlyOnce(s')
  {
    if !hasPreimage {
      NeedsPreimage(amount, acts, mode, s');
    } else {
      var s := Exec(HONEST, Fresh(amount, hasPreimage), acts);
      ReachableIsSound(amount, hasPreimage, acts);
      DoomedIsLost(s);
      var more :| Run(mode, s, more) && Exec(mode, s, more) == s';
      LostStays(mode, s, more);
    }
  }

  // ---------- the theorems ----------

  /** Once LNbits has decided every payout, whichever way, the code and a truthful operator get
      an open funded deal to released with exactly one live payout, with no call dying and the
      network only answering, if and only if it has its preimage and is not doomed. */
  lemma RecoveryUnaidedIff(amount: nat, hasPreimage: bool, acts: seq<Action>)
    requires Run(HONEST, Fresh(amount, hasPreimage), acts)
    requires var s := Exec(HONEST, Fresh(amount, hasPreimage), acts); Funded(s) && Decided(s)
    ensures var s := Exec(HONEST, Fresh(amount, hasPreimage), acts);
            (exists s' :: Reaches(UNAIDED, s, s') && PaidExactlyOnce(s')) <==> hasPreimage && !Doomed(s)
  {
    var s := Exec(HONEST, Fresh(amount, hasPreimage), acts);
    ReachableIsSound(amount, hasPreimage, acts);
    PreimageStays(HONEST, Fresh(amount, hasPreimage), acts);
    if hasPreimage && !Doomed(s) {
      var s' := Recover(s);
    } else {
      forall s' | Reaches(UNAIDED, s, s') ensures !PaidExactlyOnce(s') {
        NeverPaid(amount, hasPreimage, acts, UNAIDED, s');
      }
    }
  }

  /** A release authorized from disputed stands before phase 3. */
  predicate FinalizingDispute(s: Deal, u: nat) {
    MaySend(s, u) && s.tasks[u].leg == Finalizing && s.tasks[u].original == Disputed
  }

  /** The moment LNbits decides a pending payout. A success always leads on; a failure does
      exactly when no release authorized from disputed stands before phase 3. */
  lemma AnyVerdictWillDoIff(amount: nat, hasPreimage: bool, acts: seq<Action>, p: nat, verdict: Verdict)
    requires Run(HONEST, Fresh(amount, hasPreimage), acts)
    requires var s := Exec(HONEST, Fresh(amount, hasPreimage), acts);
             Funded(s) && Enabled(s, Resolve(p, verdict))
    ensures var s := Exec(HONEST, Fresh(amount, hasPreimage), acts);
            (exists s' :: Reaches(UNAIDED, Step(s, Resolve(p, verdict)), s') && PaidExactlyOnce(s'))
            <==> hasPreimage && (verdict == Failed ==> forall u: nat :: !FinalizingDispute(s, u))
  {
    var s0 := Fresh(amount, hasPreimage);
    var s := Exec(HONEST, s0, acts);
    var a := Resolve(p, verdict);
    var decided := Step(s, a);
    ReachableIsSound(amount, hasPreimage, acts);
    assert Live(s, p);
    forall q: nat | q < |decided.payouts| ensures decided.payouts[q].verdict != Pending {
      assert q != p ==> !Live(s, q);
    }
    RunSplit(HONEST, s0, acts, [a]);
    RunOne(HONEST, s, a);
    forall u: nat ensures Dooms(decided, u) <==> verdict == Failed && FinalizingDispute(s, u) {
      assert MaySend(s, u) ==> SenderOk(s, u);
    }
    RecoveryUnaidedIff(amount, hasPreimage, acts + [a]);
  }

  /** A payout still pending can arrive. */
  lemma DecidePaid(s: Deal) returns (s': Deal)
    requires Sound(s) && s.hasPreimage && Funded(s) && !Doomed(s)
    ensures Reaches(STEADY, s, s') && Recoverable(s') && !Doomed(s')
  {
    s' := s;
    Stay(STEADY, s);
    if p: nat :| p < |s.payouts| && s.payouts[p].verdict == Pending {
      s' := Then(STEADY, s, s, Resolve(p, Paid));
      StepKeepsSound(s, Resolve(p, Paid));
      assert Live(s, p);
      forall q: nat | q < |s'.payouts| ensures s'.payouts[q].verdict != Pending {
        assert q != p ==> !Live(s, q);
      }
      forall u: nat ensures !Dooms(s', u) { assert !Dooms(s, u); }
    }
  }

  lemma Deliver(s: Deal) returns (s': Deal)
    requires PaidExactlyOnce(s)
    ensures Reaches(STEADY, s, s') && Delivered(s')
  {
    var p: nat :| Live(s, p);
    Stay(STEADY, s);
    s' := s;
    if s.payouts[p].verdict == Pending {
      s' := Then(STEADY, s, s, Resolve(p, Paid));
    }
    assert IsPaid(s', p);
    forall q: nat, r: nat | Live(s', q) && Live(s', r) ensures q == r {
      assert Live(s, q) && Live(s, r);
    }
  }

  lemma DeliverDecided(s: Deal) returns (s': Deal)
    requires Recoverable(s) && !Doomed(s)
    ensures Reaches(STEADY, s, s') && Delivered(s')
  {
    var released := Recover(s);
    LoosenReach(UNAIDED, STEADY, s, released);
    s' := Deliver(released);
    Join(STEADY, s, released, s');
  }

  lemma DeliveredIsPaid(s: Deal)
    requires Delivered(s)
    ensures PaidExactlyOnce(s)
  {
    var p: nat :| IsPaid(s, p);
    assert Live(s, p);
  }

  /** From every reachable open deal over committed sats, pending payouts included: released with
      the payout arrived is within lawful reach of a service that stays up, if and only if the row has
      its preimage and the deal is not doomed. */
  lemma NoDeadEndIff(amount: nat, hasPreimage: bool, acts: seq<Action>)
    requires Run(HONEST, Fresh(amount, hasPreimage), acts)
    requires Funded(Exec(HONEST, Fresh(amount, hasPreimage), acts))
    ensures var s := Exec(HONEST, Fresh(amount, hasPreimage), acts);
            (exists s' :: Reaches(STEADY, s, s') && Delivered(s')) <==> hasPreimage && !Doomed(s)
  {
    var s := Exec(HONEST, Fresh(amount, hasPreimage), acts);
    ReachableIsSound(amount, hasPreimage, acts);
    PreimageStays(HONEST, Fresh(amount, hasPreimage), acts);
    if hasPreimage && !Doomed(s) {
      var decided := DecidePaid(s);
      var s' := DeliverDecided(decided);
      Join(STEADY, s, decided, s');
    } else {
      forall s' | Reaches(STEADY, s, s') ensures !Delivered(s') {
        NeverPaid(amount, hasPreimage, acts, STEADY, s');
        if Delivered(s') {
          DeliveredIsPaid(s');
        }
      }
    }
  }

  /** While writes are lawful, only the death of the doomed call itself can still save a doomed
      deal: when calls may die, the preimage alone decides. EscrowStale says what stale writes
      change. */
  lemma RestartSavesIffPreimage(amount: nat, hasPreimage: bool, acts: seq<Action>)
    requires Run(HONEST, Fresh(amount, hasPreimage), acts)
    requires Funded(Exec(HONEST, Fresh(amount, hasPreimage), acts))
    ensures var s := Exec(HONEST, Fresh(amount, hasPreimage), acts);
            (exists s' :: Reaches(HONEST_LAWFUL, s, s') && Delivered(s')) <==> hasPreimage
  {
    var s := Exec(HONEST, Fresh(amount, hasPreimage), acts);
    ReachableIsSound(amount, hasPreimage, acts);
    PreimageStays(HONEST, Fresh(amount, hasPreimage), acts);
    if hasPreimage {
      Stay(HONEST_LAWFUL, s);
      var saved := s;
      if u: nat :| Dooms(s, u) {
        saved := Then(HONEST_LAWFUL, s, s, Crash(u));
        StepKeepsSound(s, Crash(u));
        forall t: nat ensures !Dooms(saved, t) {
          assert MaySend(saved, t) ==> MaySend(s, t);
        }
      }
      var decided := DecidePaid(saved);
      LoosenReach(STEADY, HONEST_LAWFUL, saved, decided);
      Join(HONEST_LAWFUL, s, saved, decided);
      var s' := DeliverDecided(decided);
      LoosenReach(STEADY, HONEST_LAWFUL, decided, s');
      Join(HONEST_LAWFUL, s, decided, s');
    } else {
      forall s' | Reaches(HONEST_LAWFUL, s, s') ensures s'.row.status != Released {
        NeedsPreimage(amount, acts, HONEST_LAWFUL, s');
      }
    }
  }

  /** The other exit: an open deal whose hold is dead is refunded by the sweep alone. */
  lemma DeadHoldIsSwept(s: Deal) returns (s': Deal)
    requires IsOpen(s.row.status) && s.hold == Dead
    ensures Reaches(UNAIDED, s, s')
    ensures s'.row == s.row.(status := Refunded) && s'.payouts == s.payouts
  {
    Stay(UNAIDED, s);
    var read := Then(UNAIDED, s, s, SweepRead);
    s' := Then(UNAIDED, s, read, SweepWrite(|s.tasks|, true));
  }
}
