/**
 Runs in which a freelancer's unguarded write may land anywhere: exactly when reset_payout is
 safe then, and exactly when a deal can still be delivered.
 */
module EscrowStale {
  import opened Deals
  import opened LNbits
  import opened Escrow
  import opened EscrowSafety
  import opened EscrowOrder
  import opened EscrowReach
  import opened EscrowRecovery
  import opened EscrowReset
  import EscrowRuns

  predicate PatchAt(s: Deal, w: nat) {
    w < |s.tasks| && s.tasks[w].Patch?
  }

  ghost predicate NoPatch(s: Deal) {
    forall w: nat :: !PatchAt(s, w)
  }

  /** From here the table allows a freelancer no target, so no further write is read for. */
  predicate PastUpdates(status: Status) {
    status == Reviewing || status == Disputed || IsTerminal(status)
  }

  lemma StaysPastUpdates(s: Deal, a: Action)
    requires PastUpdates(s.row.status) && Enabled(s, a)
    ensures !a.PatchWrite? ==> PastUpdates(Step(s, a).row.status)
    ensures !a.PatchRead?
  {
  }

  /** No write is pending that was not pending before, nor does one change its target. */
  lemma PatchesStay(s: Deal, a: Action)
    requires Enabled(s, a) && !a.PatchRead?
    ensures forall w: nat :: PatchAt(Step(s, a), w) ==> PatchAt(s, w) && Step(s, a).tasks[w] == s.tasks[w]
  {
    StepMoves(s, a);
    if |Step(s, a).tasks| > |s.tasks| {
      StartsNoPatch(s, a);
    }
  }

  lemma StartsNoPatch(s: Deal, a: Action)
    requires Enabled(s, a) && !a.PatchRead? && |Step(s, a).tasks| > |s.tasks|
    ensures !Step(s, a).tasks[|s.tasks|].Patch?
  {
  }

  function Lawfully(mode: Assuming): Assuming {
    mode.(lawful := true)
  }

  /** Once no write is pending and none can be read for, every run is lawful. */
  lemma {:induction false} NoPatchIsLawful(mode: Assuming, s: Deal, acts: seq<Action>)
    requires NoPatch(s) && PastUpdates(s.row.status) && Run(mode, s, acts)
    ensures Run(Lawfully(mode), s, acts) && Exec(Lawfully(mode), s, acts) == Exec(mode, s, acts)
    decreases |acts|
  {
    if acts != [] {
      assert acts[0].PatchWrite? ==> PatchAt(s, acts[0].t);
      StaysPastUpdates(s, acts[0]);
      PatchesStay(s, acts[0]);
      NoPatchIsLawful(mode, Step(s, acts[0]), acts[1..]);
    }
  }

  lemma ReachesLawfully(mode: Assuming, s: Deal, s': Deal)
    requires NoPatch(s) && PastUpdates(s.row.status) && Reaches(mode, s, s')
    ensures Reaches(Lawfully(mode), s, s')
  {
    var acts :| Run(mode, s, acts) && Exec(mode, s, acts) == s';
    NoPatchIsLawful(mode, s, acts);
  }

  // ---------- a doomed deal that a stale write reopens ----------

  /** A freelancer's write is pending or can still be read for. */
  ghost predicate CanReopen(s: Deal) {
    s.row.status == WorkSubmitted || !NoPatch(s)
  }

  lemma ReadForWrite(mode: Assuming, s: Deal) returns (s': Deal, w: nat)
    requires CanReopen(s) && Sound(s)
    ensures Reaches(mode, s, s') && PatchAt(s', w) && Sound(s')
    ensures s' == s.(tasks := s'.tasks)
    ensures s'.tasks == s.tasks || s'.tasks == s.tasks + [Patch(Reviewing)]
  {
    Stay(mode, s);
    s' := s;
    if v: nat :| PatchAt(s, v) {
      w := v;
    } else {
      w := |s.tasks|;
      s' := Then(mode, s, s, PatchRead(Reviewing));
      StepKeepsSound(s, PatchRead(Reviewing));
    }
  }

  /** The doomed release closes the deal. */
  lemma DoomEnds(s: Deal, u: nat)
    requires Sound(s) && Funded(s) && Dooms(s, u)
    ensures Permitted(HONEST_STEADY, s, FinalizeLeg(u))
    ensures var s' := Step(s, FinalizeLeg(u));
            Sound(s') && s'.row.status == Released && s'.payouts == s.payouts && NoneLive(s') && NoSender(s')
            && s'.tasks == s.tasks[u := Done]
  {
    var s' := Step(s, FinalizeLeg(u));
    StepKeepsSound(s, FinalizeLeg(u));
    assert SenderOk(s, u) && s.tasks[u].Release?;
    forall p: nat ensures !Live(s', p) { assert Live(s', p) ==> Live(s, p); }
    forall t: nat ensures !MaySend(s', t) { assert MaySend(s', t) ==> MaySend(s, t); }
  }

  /** A write that lands on a released deal opens it again. */
  lemma WriteReopens(s: Deal, w: nat)
    requires Sound(s) && s.row.status == Released && s.hasPreimage && NoneLive(s) && NoSender(s) && PatchAt(s, w)
    ensures Permitted(HONEST_STEADY, s, PatchWrite(w))
    ensures Recoverable(Step(s, PatchWrite(w))) && !Doomed(Step(s, PatchWrite(w)))
  {
    var s' := Step(s, PatchWrite(w));
    StepKeepsSound(s, PatchWrite(w));
    assert WriteFromRead(s.tasks[w]);
    forall p: nat | p < |s'.payouts| ensures s'.payouts[p].verdict != Pending { assert !Live(s, p); }
    forall t: nat ensures !MaySend(s', t) { assert MaySend(s', t) ==> MaySend(s, t); }
  }

  /** A doomed deal that a write can reopen then recovers. */
  lemma DoomIsReopened(s: Deal) returns (s': Deal)
    requires Sound(s) && s.hasPreimage && Funded(s) && Doomed(s) && CanReopen(s)
    ensures Reaches(HONEST_STEADY, s, s') && Recoverable(s') && !Doomed(s')
  {
    var u: nat :| Dooms(s, u);
    var read, w := ReadForWrite(HONEST_STEADY, s);
    assert Dooms(read, u);
    DoomEnds(read, u);
    var closed := Then(HONEST_STEADY, s, read, FinalizeLeg(u));
    WriteReopens(closed, w);
    s' := Then(HONEST_STEADY, s, closed, PatchWrite(w));
  }

  /** Whatever freelancers' writes do, with truthful operators and no call dying: an open deal over
      committed sats can be delivered if and only if it has its preimage and is not doomed, or a
      write can still reopen it. */
  lemma StaleNoDeadEndIff(amount: nat, hasPreimage: bool, acts: seq<Action>)
    requires Run(HONEST, Fresh(amount, hasPreimage), acts)
    requires Funded(Exec(HONEST, Fresh(amount, hasPreimage), acts))
    ensures var s := Exec(HONEST, Fresh(amount, hasPreimage), acts);
            (exists s' :: Reaches(HONEST_STEADY, s, s') && Delivered(s'))
            <==> hasPreimage && (!Doomed(s) || CanReopen(s))
  {
    var s := Exec(HONEST, Fresh(amount, hasPreimage), acts);
    ReachableIsSound(amount, hasPreimage, acts);
    PreimageStays(HONEST, Fresh(amount, hasPreimage), acts);
    if hasPreimage && !Doomed(s) {
      NoDeadEndIff(amount, hasPreimage, acts);
      var s' :| Reaches(STEADY, s, s') && Delivered(s');
      LoosenReach(STEADY, HONEST_STEADY, s, s');
    } else if hasPreimage && CanReopen(s) {
      var open := DoomIsReopened(s);
      var s' := DeliverDecided(open);
      LoosenReach(STEADY, HONEST_STEADY, open, s');
      Join(HONEST_STEADY, s, open, s');
    } else {
      forall s' | Reaches(HONEST_STEADY, s, s') ensures !Delivered(s') {
        StaleNeverDelivered(amount, hasPreimage, acts, s');
      }
    }
  }

  lemma StaleNeverDelivered(amount: nat, hasPreimage: bool, acts: seq<Action>, s': Deal)
    requires Run(HONEST, Fresh(amount, hasPreimage), acts)
    requires var s := Exec(HONEST, Fresh(amount, hasPreimage), acts);
             && Funded(s) && (!hasPreimage || (Doomed(s) && !CanReopen(s)))
             && Reaches(HONEST_STEADY, s, s')
    ensures !Delivered(s')
  {
    var s := Exec(HONEST, Fresh(amount, hasPreimage), acts);
    ReachableIsSound(amount, hasPreimage, acts);
    if !hasPreimage {
      NeedsPreimage(amount, acts, HONEST_STEADY, s');
    } else {
      var u: nat :| Dooms(s, u);
      assert s.tasks[u].Release?;
      ReachesLawfully(HONEST_STEADY, s, s');
      NeverPaid(amount, hasPreimage, acts, STEADY, s');
      if Delivered(s') {
        DeliveredIsPaid(s');
      }
    }
  }

  // ---------- resets that a stale write makes unsafe ----------

  /** Call u stands before phase 3 with the id of a payout that has failed. */
  predicate CarriesFailed(s: Deal, u: nat) {
    && StandsBeforePhase3(s, u)
    && s.tasks[u].payoutId.Some?
    && s.tasks[u].payoutId.value < |s.payouts|
    && s.payouts[s.tasks[u].payoutId.value].verdict == Failed
  }

  /** Phase 3 of call u would go through. */
  predicate CanFinish(s: Deal, u: nat)
    requires StandsBeforePhase3(s, u)
  {
    CanTransition(s.row.status, Released) && (s.row.status == Disputed ==> s.tasks[u].original == Disputed)
  }

  /** A release begins and pays; then call u closes the deal, over the marker of that release. */
  lemma ClosesOverMarker(s: Deal, u: nat) returns (s': Deal)
    requires s.row == Cleared(s.row) && s.hold == Settled && s.hasPreimage
    requires CarriesFailed(s, u) && CanFinish(s, u)
    ensures Reaches(HONEST, s, s')
    ensures s'.row == Row(Released, true, s.tasks[u].payoutId)
    ensures s'.payouts == s.payouts + [Payout(Pending, 0)] && s'.hold == Settled && s'.hasPreimage
    ensures |s.tasks| <= |s'.tasks| && forall w: nat :: PatchAt(s, w) ==> s'.tasks[w] == s.tasks[w]
  {
    Stay(HONEST, s);
    var paid := BeginAndPay(HONEST, s, s, Client);
    s' := Then(HONEST, s, paid, FinalizeLeg(u));
  }

  /** A stale write reopens the deal, and the next release finds the recorded payout refuted. */
  lemma ReopensAndPays(s: Deal, w: nat) returns (s': Deal)
    requires IsTerminal(s.row.status) && s.hold == Settled && s.hasPreimage && PatchAt(s, w)
    requires WriteFromRead(s.tasks[w])
    requires s.row.payoutId.Some? && s.row.payoutId.value < |s.payouts|
    requires s.payouts[s.row.payoutId.value].verdict == Failed
    ensures Reaches(HONEST, s, s') && s'.payouts == s.payouts + [Payout(Pending, 0)]
  {
    Stay(HONEST, s);
    var open := Then(HONEST, s, s, PatchWrite(w));
    var begun := Then(HONEST, s, open, Begin(Client, Refuted));
    s' := SettleAndPay(HONEST, begun, |open.tasks|);
    Join(HONEST, s, begun, s');
  }

  lemma FailedIdPaysTwice(s: Deal, u: nat, w: nat) returns (s': Deal)
    requires s.row == Cleared(s.row) && s.hold == Settled && s.hasPreimage
    requires CarriesFailed(s, u) && CanFinish(s, u) && PatchAt(s, w) && WriteFromRead(s.tasks[w])
    ensures Reaches(HONEST, s, s') && Live(s', |s.payouts|) && Live(s', |s.payouts| + 1)
  {
    var closed := ClosesOverMarker(s, u);
    s' := ReopensAndPays(closed, w);
    Join(HONEST, s, closed, s');
  }

  predicate TwoPatches(s: Deal, v: nat, w: nat) {
    v != w && PatchAt(s, v) && PatchAt(s, w)
  }

  /** What is pending beside call u lets it close the deal and a later write reopen it. */
  ghost predicate Revives(s: Deal, u: nat)
    requires StandsBeforePhase3(s, u)
  {
    || s.row.status == WorkSubmitted
    || (exists w: nat :: PatchAt(s, w) && s.tasks[w].target == WorkSubmitted)
    || (CanFinish(s, u) && !NoPatch(s))
    || (exists v: nat, w: nat :: TwoPatches(s, v, w))
  }

  /** A freelancer's write lands, whatever it lands on. */
  lemma WriteLands(s: Deal, w: nat) returns (s': Deal)
    requires PatchAt(s, w)
    ensures Reaches(HONEST, s, s')
    ensures s'.row == s.row.(status := s.tasks[w].target) && s'.tasks == s.tasks[w := Done]
    ensures s' == s.(row := s'.row, tasks := s'.tasks, log := s'.log)
  {
    Stay(HONEST, s);
    s' := Then(HONEST, s, s, PatchWrite(w));
  }

  /** In each of these cases some writes bring the deal to where call u can finish with one more
      write pending. */
  lemma MakeReady(s: Deal, u: nat) returns (s': Deal, w: nat)
    requires WritesFromReads(s) && s.row == Cleared(s.row) && CarriesFailed(s, u) && Revives(s, u)
    ensures Reaches(HONEST, s, s')
    ensures s' == s.(row := s'.row, tasks := s'.tasks, log := s'.log) && s'.row == Cleared(s'.row)
    ensures CarriesFailed(s', u) && CanFinish(s', u) && PatchAt(s', w) && WriteFromRead(s'.tasks[w])
  {
    Stay(HONEST, s);
    s' := s;
    if CanFinish(s, u) && !NoPatch(s) {
      w :| PatchAt(s, w);
    } else if v: nat, x: nat :| TwoPatches(s, v, x) {
      assert WriteFromRead(s.tasks[v]) && WriteFromRead(s.tasks[x]);
      s' := WriteLands(s, v);
      w := x;
    } else {
      if v: nat :| PatchAt(s, v) && s.tasks[v].target == WorkSubmitted {
        s' := WriteLands(s, v);
      }
      w := |s'.tasks|;
      s' := Then(HONEST, s, s', PatchRead(Reviewing));
    }
  }

  lemma RevivedPaysTwice(s: Deal, u: nat)
    requires WritesFromReads(s) && s.row == Cleared(s.row) && s.hold == Settled && s.hasPreimage
    requires CarriesFailed(s, u) && Revives(s, u)
    ensures !OneLiveForever(HONEST, s)
  {
    var ready, w := MakeReady(s, u);
    var s' := FailedIdPaysTwice(ready, u, w);
    Join(HONEST, s, ready, s');
  }

  /** The row reads released when the clear lands, and a stale write opens it again. */
  lemma ReopenedAfterReset(s: Deal, t: nat)
    requires Sound(s) && Enabled(s, ResetClear(t)) && !NothingToLose(s)
    requires IsTerminal(s.row.status) && s.hold != Dead && s.hasPreimage && !NoPatch(s)
    ensures !OneLiveForever(HONEST, Step(s, ResetClear(t)))
  {
    var cleared := Step(s, ResetClear(t));
    var w: nat :| PatchAt(s, w);
    assert WriteFromRead(s.tasks[w]);
    var open := WriteLands(cleared, w);
    var s': Deal;
    if p: nat :| Live(s, p) {
      s' := PaysAfresh(open);
      assert Live(s', p) && Live(s', |s.payouts|);
    } else {
      var u: nat :| IsUnsent(s, u);
      s' := UnsentPaysTwice(open, u);
    }
    LoosenReach(UNAIDED, HONEST, open, s');
    Join(HONEST, cleared, open, s');
  }

  // ---------- resets that stay safe under any write ----------

  /** One write is pending at most, and it lands too early to reopen what call u closes. */
  ghost predicate LastWrite(s: Deal, u: nat, w: nat) {
    && Harmless(s, u)
    && WritesFromReads(s)
    && PatchAt(s, w) && s.tasks[w].target == Reviewing
    && (forall v: nat :: PatchAt(s, v) ==> v == w)
    && (IsTerminal(s.row.status) || (s.row.status == Disputed && s.tasks[u].original != Disputed))
  }

  /** Without an unguarded write disputed and the terminal statuses are left only downwards. */
  lemma StaysLate(s: Deal, a: Action)
    requires WritesFromReads(s) && Enabled(s, a) && !a.PatchWrite?
    ensures IsTerminal(s.row.status) ==> Step(s, a).row.status == s.row.status
    ensures s.row.status == Disputed ==>
              Step(s, a).row.status == Disputed || IsTerminal(Step(s, a).row.status)
  {
    LegalIffLawful(s, a);
    LegalChangesDescend(s.row.status);
  }

  lemma PatchWaits(s: Deal, a: Action, w: nat)
    requires Enabled(s, a) && PatchAt(s, w) && a != PatchWrite(w) && a != Crash(w)
    ensures PatchAt(Step(s, a), w) && Step(s, a).tasks[w] == s.tasks[w]
  {
    StepMoves(s, a);
    assert !Acts(a, w);
  }

  lemma WriteWaits(s: Deal, a: Action, u: nat, w: nat)
    requires LastWrite(s, u, w) && Enabled(s, a) && Honest(s, a)
    requires a != FinalizeLeg(u) && a != Crash(u) && a != PatchWrite(w) && a != Crash(w)
    ensures LastWrite(Step(s, a), u, w)
  {
    assert a.PatchWrite? ==> PatchAt(s, a.t);
    StaysLate(s, a);
    StepKeepsWrites(s, a);
    OthersKeepHarmless(s, a, u);
    StaysPastUpdates(s, a);
    PatchesStay(s, a);
    PatchWaits(s, a, w);
  }

  lemma {:induction false} LastWriteKeepsOneLive(s: Deal, acts: seq<Action>, u: nat, w: nat)
    requires LastWrite(s, u, w) && Run(HONEST, s, acts)
    ensures AtMostOneLive(Exec(HONEST, s, acts))
    decreases |acts|
  {
    if acts == [] {
      HarmlessKeepsOneLive(HONEST_LAWFUL, s, [], u);
    } else {
      var a, rest, s' := acts[0], acts[1..], Step(s, acts[0]);
      if a == FinalizeLeg(u) || a == Crash(u) {
        assert s' == Without(s, u);
        EscrowRuns.RunKeepsInv(HONEST, s', rest);
      } else if a == PatchWrite(w) || a == Crash(w) {
        OthersKeepHarmless(s, a, u);
        StepKeepsWrites(s, a);
        PatchesStay(s, a);
        forall v: nat ensures !PatchAt(s', v) { assert PatchAt(s', v) ==> PatchAt(s, v); }
        NoPatchIsLawful(HONEST, s', rest);
        HarmlessKeepsOneLive(HONEST_LAWFUL, s', rest, u);
      } else {
        WriteWaits(s, a, u, w);
        LastWriteKeepsOneLive(s', rest, u, w);
      }
    }
  }

  lemma NoRevivalKeepsOneLive(s: Deal, t: nat, u: nat)
    requires Sound(s) && NothingToLose(s) && Enabled(s, ResetClear(t))
    requires MaySend(s, u) && StandsBeforePhase3(s, u) && !Revives(s, u)
    ensures OneLiveForever(HONEST, Step(s, ResetClear(t)))
  {
    var cleared := Step(s, ResetClear(t));
    forall w: nat ensures PatchAt(cleared, w) <==> PatchAt(s, w) {}
    assert s.tasks[u].Release?;
    if w: nat :| PatchAt(s, w) {
      assert WriteFromRead(s.tasks[w]);
      assert forall v: nat :: PatchAt(s, v) && v != w ==> TwoPatches(s, v, w);
      LeftRunningIsHarmless(s, t, u);
      StepKeepsWrites(s, ResetClear(t));
      forall s' | Reaches(HONEST, cleared, s') ensures AtMostOneLive(s') {
        var acts :| Run(HONEST, cleared, acts) && Exec(HONEST, cleared, acts) == s';
        LastWriteKeepsOneLive(cleared, acts, u, w);
      }
    } else {
      SafeReset(HONEST_LAWFUL, s, t);
      forall s' | Reaches(HONEST, cleared, s') ensures AtMostOneLive(s') {
        ReachesLawfully(HONEST, cleared, s');
      }
    }
  }

  // ---------- the theorem ----------

  ghost predicate CanRevive(s: Deal) {
    exists u: nat :: MaySend(s, u) && CarriesFailed(s, u) && Revives(s, u)
  }

  /** Nothing can be paid any more whatever is written, or nothing can be lost by the clear. */
  ghost predicate StaleSafe(s: Deal) {
    || s.hold == Dead || !s.hasPreimage
    || (IsTerminal(s.row.status) && NoPatch(s))
    || (NothingToLose(s) && !CanRevive(s))
  }

  /** Whatever reachable state reset_payout clears in, and wherever freelancers' writes land: no
      run of truthful operators has two live payouts afterwards, if and only if the hold is dead,
      there is no preimage, the deal is closed with no write pending, or nothing is live or unsent
      and no release over a failed payout can close the deal for a later write to reopen. */
  lemma StaleResetIsSafeIff(amount: nat, hasPreimage: bool, acts: seq<Action>, t: nat)
    requires Run(HONEST, Fresh(amount, hasPreimage), acts)
    requires Enabled(Exec(HONEST, Fresh(amount, hasPreimage), acts), ResetClear(t))
    ensures var s := Exec(HONEST, Fresh(amount, hasPreimage), acts);
            OneLiveForever(HONEST, Step(s, ResetClear(t))) <==> StaleSafe(s)
  {
    var s := Exec(HONEST, Fresh(amount, hasPreimage), acts);
    ReachableIsSound(amount, hasPreimage, acts);
    PreimageStays(HONEST, Fresh(amount, hasPreimage), acts);
    if StaleSafe(s) {
      StaleSafeReset(s, t);
    } else if !NothingToLose(s) && IsTerminal(s.row.status) {
      ReopenedAfterReset(s, t);
    } else if !NothingToLose(s) {
      UnsafeReset(s, t);
      var s' :| Reaches(HONEST_LAWFUL, Step(s, ResetClear(t)), s') && !AtMostOneLive(s');
      LoosenReach(HONEST_LAWFUL, HONEST, Step(s, ResetClear(t)), s');
    } else {
      RevivedReset(s, t);
    }
  }

  lemma RevivedReset(s: Deal, t: nat)
    requires Sound(s) && Enabled(s, ResetClear(t)) && s.hasPreimage && CanRevive(s)
    ensures !OneLiveForever(HONEST, Step(s, ResetClear(t)))
  {
    var cleared := Step(s, ResetClear(t));
    var u: nat :| MaySend(s, u) && CarriesFailed(s, u) && Revives(s, u);
    StepKeepsWrites(s, ResetClear(t));
    forall w: nat ensures PatchAt(cleared, w) <==> PatchAt(s, w) {}
    forall v: nat, w: nat ensures TwoPatches(cleared, v, w) <==> TwoPatches(s, v, w) {}
    RevivedPaysTwice(cleared, u);
  }

  lemma StaleSafeReset(s: Deal, t: nat)
    requires Sound(s) && Enabled(s, ResetClear(t)) && StaleSafe(s)
    requires !s.hasPreimage ==> s.hold != Settled
    ensures OneLiveForever(HONEST, Step(s, ResetClear(t)))
  {
    var cleared := Step(s, ResetClear(t));
    if s.hold == Dead || !s.hasPreimage {
      MoneylessReset(HONEST, s, t);
    } else if IsTerminal(s.row.status) && NoPatch(s) {
      TerminalReset(s, t);
      forall w: nat ensures !PatchAt(cleared, w) { assert !PatchAt(s, w); }
      forall s' | Reaches(HONEST, cleared, s') ensures AtMostOneLive(s') {
        ReachesLawfully(HONEST, cleared, s');
      }
    } else if u: nat :| MaySend(s, u) && s.tasks[u].payoutId.Some? {
      assert !IsUnsent(s, u) && SenderOk(s, u);
      assert !Live(s, s.tasks[u].sent.value);
      assert CarriesFailed(s, u);
      NoRevivalKeepsOneLive(s, t, u);
    } else {
      SafeReset(HONEST, s, t);
    }
  }
}
