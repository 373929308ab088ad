/**
 One deal as a step system: its row, the Lightning hold behind it, the payouts sent for it,
 and every call or worker that is somewhere between two of its own database statements.

 A row-locked transaction is one step and so is a single UPDATE. Between two steps of a call
 anything may happen, including a crash of that call. Network answers are part of the label of
 the step, so a run is the list of its labels.
 */
module Escrow {
  import opened Results
  import opened Deals
  import opened LNbits

  /** Open: nobody has paid yet. Dead: returned or expired, and it will never hold funds again. */
  datatype Hold = Open | Held | Settled | Dead

  datatype Verdict = Pending | Paid | Failed

  datatype Payout = Payout(verdict: Verdict, sats: nat)

  /** The columns of the deals table that carry protocol state. Payouts are numbered in the
      order LNbits received them, and a payout's number stands for its checking_id. */
  datatype Row = Row(status: Status, attempted: bool, payoutId: Option<nat>)

  datatype Leg = Settling | Paying | Clearing | Finalizing

  datatype Authority = Client | Operator

  /** A call in flight with its local variables. `sent` records the payout the call sent even
      when LNbits answered without an id; the code has no such variable. */
  datatype Task =
    | Release(leg: Leg, original: Status, confirmed: bool, payoutId: Option<nat>, sent: Option<nat>)
    | Patch(target: Status)
    | Dispute(expected: Status)
    | Sweep(expected: Status)
    | Reset
    | Detect
    | Notify
    | Done

  /** What a run has done so far. */
  datatype History = History(released: bool, refunded: bool, paidSeen: bool, notified: nat)

  datatype Deal = Deal(
    amount: nat,
    hasPreimage: bool,
    row: Row,
    hold: Hold,
    payouts: seq<Payout>,
    tasks: seq<Task>,
    log: History)

  datatype Action =
    // releaseEscrow: phase 1, the two network legs, the marker reset, phase 3
    | Begin(who: Authority, report: PayoutReport)
    | SettleLeg(t: nat, ok: bool, took: bool)
    | PayLeg(t: nat, result: PayResult, sent: bool, sats: nat)
    | ClearLeg(t: nat)
    | FinalizeLeg(t: nat)
    // operator: refundDispute and ReconcilePayout
    | Refund(ok: bool, took: bool, committed: bool)
    | Confirm(p: nat, report: PayoutReport)
    | ResetRead
    | ResetClear(t: nat)
    // freelancer: UpdateStatus and SubmitWork, an unlocked read and an unguarded write
    | PatchRead(target: Status)
    | PatchWrite(t: nat)
    // client: DisputeDeal, an unlocked read and a conditional write
    | DisputeRead
    | DisputeWrite(t: nat)
    // hold-expiry sweep
    | SweepRead
    | SweepWrite(t: nat, gone: bool)
    // webhook, poll and public view
    | DetectRead
    | LockWrite(t: nat)
    | NotifySent(t: nat)
    // a process or connection dies
    | Crash(t: nat)
    // the Lightning network
    | Fund
    | Return
    | Resolve(p: nat, verdict: Verdict)

  function Fresh(amount: nat, hasPreimage: bool): Deal {
    Deal(amount, hasPreimage, Row(AwaitingPayment, false, None), Open, [], [],
         History(false, false, false, 0))
  }

  // ---------- releaseEscrow, one function per locked transaction or network leg ----------

  predicate Authorized(who: Authority, status: Status) {
    match who
    case Client => CanTransition(status, Released)
    case Operator => status == Disputed
  }

  datatype Begun = Rejected | Started(row: Row, call: Task)

  function Phase1(row: Row, who: Authority, report: PayoutReport): Begun {
    if !Authorized(who, row.status) then Rejected
    else if row.payoutId.Some? then
      match report
      case Confirmed => Started(row, Release(Finalizing, row.status, true, row.payoutId, None))
      case Refuted => Started(Row(row.status, true, None), Release(Settling, row.status, false, None, None))
      case NoVerdict => Rejected
    else if row.attempted then Rejected
    else Started(row.(attempted := true), Release(Settling, row.status, false, None, None))
  }

  function Cleared(row: Row): Row {
    row.(attempted := false, payoutId := None)
  }

  /** None when phase 3 aborts. */
  function Phase3(row: Row, original: Status, payoutId: Option<nat>): Option<Row> {
    if original != Disputed && row.status == Disputed then None
    else if !CanTransition(row.status, Released) then None
    else Some(Row(Released, row.attempted, if row.payoutId.None? then payoutId else row.payoutId))
  }

  // ---------- helpers ----------

  predicate IsAt(s: Deal, t: nat, leg: Leg) {
    t < |s.tasks| && s.tasks[t].Release? && s.tasks[t].leg == leg
  }

  function Spawn(s: Deal, task: Task): Deal {
    s.(tasks := s.tasks + [task])
  }

  function SetTask(s: Deal, t: nat, task: Task): Deal
    requires t < |s.tasks|
  {
    s.(tasks := s.tasks[t := task])
  }

  function SetStatus(s: Deal, status: Status): Deal {
    s.(row := s.row.(status := status),
       log := s.log.(released := s.log.released || status == Released,
                     refunded := s.log.refunded || status == Refunded))
  }

  function HoldAfter(hold: Hold, took: bool, result: Hold): Hold {
    if took then result else hold
  }

  // ---------- what the code and the network can do ----------

  /** LNbits reports a payout's verdict truthfully. */
  predicate TrueReport(s: Deal, p: nat, report: PayoutReport) {
    p < |s.payouts| ==>
      && (report == Confirmed ==> s.payouts[p].verdict == Paid)
      && (report == Refuted ==> s.payouts[p].verdict == Failed)
  }

  predicate Enabled(s: Deal, a: Action) {
    match a
    case Begin(who, report) =>
      s.row.payoutId.Some? ==> TrueReport(s, s.row.payoutId.value, report)
    case SettleLeg(t, ok, took) =>
      && IsAt(s, t, Settling)
      && (took ==> s.hold == Held && s.hasPreimage)
      && (ok ==> s.hasPreimage && HoldAfter(s.hold, took, Settled) == Settled)
    case PayLeg(t, result, sent, sats) =>
      && IsAt(s, t, Paying)
      && (result.Accepted? ==> sent)
      && (result.PayoutRefused? ==> !sent)
      && sats <= s.amount
    case ClearLeg(t) => IsAt(s, t, Clearing)
    case FinalizeLeg(t) => IsAt(s, t, Finalizing)
    case Refund(ok, took, committed) =>
      && s.row.status == Disputed
      && (took ==> s.hold == Open || s.hold == Held)
      && (ok ==> HoldAfter(s.hold, took, Dead) == Dead)
    case Confirm(p, report) => TrueReport(s, p, report)
    case ResetRead => !IsTerminal(s.row.status) && (s.row.attempted || s.row.payoutId.Some?)
    case ResetClear(t) => t < |s.tasks| && s.tasks[t].Reset?
    case PatchRead(target) => IsFreelancerTarget(target) && CanTransition(s.row.status, target)
    case PatchWrite(t) => t < |s.tasks| && s.tasks[t].Patch?
    case DisputeRead => CanTransition(s.row.status, Disputed)
    case DisputeWrite(t) => t < |s.tasks| && s.tasks[t].Dispute?
    case SweepRead => IsOpen(s.row.status)
    case SweepWrite(t, gone) =>
      && t < |s.tasks| && s.tasks[t].Sweep?
      && (gone ==> s.hold == Dead)
    case DetectRead => s.hold == Held || s.hold == Settled
    case LockWrite(t) => t < |s.tasks| && s.tasks[t].Detect?
    case NotifySent(t) => t < |s.tasks| && s.tasks[t].Notify?
    case Crash(t) => t < |s.tasks|
    case Fund => s.hold == Open
    case Return => s.hold == Open || s.hold == Held
    case Resolve(p, verdict) => p < |s.payouts| && s.payouts[p].verdict == Pending && verdict != Pending
  }

  function BeginStep(s: Deal, who: Authority, report: PayoutReport): Deal {
    match Phase1(s.row, who, report)
    case Rejected => s
    case Started(row, call) => Spawn(s.(row := row), call)
  }

  function SettleStep(s: Deal, t: nat, ok: bool, took: bool): Deal
    requires IsAt(s, t, Settling)
  {
    SetTask(s.(hold := HoldAfter(s.hold, took, Settled)), t,
            s.tasks[t].(leg := if ok then Paying else Clearing))
  }

  function PayStep(s: Deal, t: nat, result: PayResult, sent: bool, sats: nat): Deal
    requires IsAt(s, t, Paying)
  {
    var id := |s.payouts|;
    var s1 := if sent then s.(payouts := s.payouts + [Payout(Pending, sats)]) else s;
    match result
    case Accepted(hasId) =>
      SetTask(s1, t, s.tasks[t].(leg := Finalizing, sent := Some(id),
                                 payoutId := if hasId then Some(id) else None))
    case PayoutRefused => SetTask(s1, t, s.tasks[t].(leg := Clearing))
    case Ambiguous => SetTask(s1, t, Done)
  }

  function FinalizeStep(s: Deal, t: nat): Deal
    requires IsAt(s, t, Finalizing)
  {
    var ended := SetTask(s, t, Done);
    match Phase3(s.row, s.tasks[t].original, s.tasks[t].payoutId)
    case None => ended
    case Some(row) => SetStatus(ended.(row := row), Released)
  }

  function RefundStep(s: Deal, ok: bool, took: bool, committed: bool): Deal {
    var s1 := s.(hold := HoldAfter(s.hold, took, Dead));
    if ok && committed then SetStatus(s1, Refunded) else s1
  }

  function ConfirmStep(s: Deal, p: nat, report: PayoutReport): Deal {
    if report == Confirmed && CanTransition(s.row.status, Released)
    then SetStatus(s.(row := s.row.(payoutId := Some(p))), Released)
    else s
  }

  /** UPDATE ... WHERE status = expected, by a task that then ends or goes on as `next`. */
  function CompareAndSet(s: Deal, t: nat, expected: Status, status: Status, next: Task): Deal
    requires t < |s.tasks|
  {
    if s.row.status == expected then SetTask(SetStatus(s, status), t, next) else SetTask(s, t, Done)
  }

  function Step(s: Deal, a: Action): Deal
    requires Enabled(s, a)
  {
    match a
    case Begin(who, report) => BeginStep(s, who, report)
    case SettleLeg(t, ok, took) => SettleStep(s, t, ok, took)
    case PayLeg(t, result, sent, sats) => PayStep(s, t, result, sent, sats)
    case ClearLeg(t) => SetTask(s.(row := Cleared(s.row)), t, Done)
    case FinalizeLeg(t) => FinalizeStep(s, t)
    case Refund(ok, took, committed) => RefundStep(s, ok, took, committed)
    case Confirm(p, report) => ConfirmStep(s, p, report)
    case ResetRead => Spawn(s, Task.Reset)
    case ResetClear(t) => SetTask(s.(row := Cleared(s.row)), t, Done)
    case PatchRead(target) => Spawn(s, Patch(target))
    case PatchWrite(t) => SetTask(SetStatus(s, s.tasks[t].target), t, Done)
    case DisputeRead => Spawn(s, Dispute(s.row.status))
    case DisputeWrite(t) => CompareAndSet(s, t, s.tasks[t].expected, Disputed, Done)
    case SweepRead => Spawn(s, Sweep(s.row.status))
    case SweepWrite(t, gone) =>
      if gone then CompareAndSet(s, t, s.tasks[t].expected, Refunded, Done) else SetTask(s, t, Done)
    case DetectRead => Spawn(s, Detect).(log := s.log.(paidSeen := true))
    case LockWrite(t) => CompareAndSet(s, t, AwaitingPayment, Locked, Notify)
    case NotifySent(t) => SetTask(s, t, Done).(log := s.log.(notified := s.log.notified + 1))
    case Crash(t) => SetTask(s, t, Done)
    case Fund => s.(hold := Held)
    case Return => s.(hold := Dead)
    case Resolve(p, verdict) => s.(payouts := s.payouts[p := s.payouts[p].(verdict := verdict)])
  }

  // ---------- how a step moves the calls ----------

  predicate IsLeg(a: Action) {
    a.SettleLeg? || a.PayLeg? || a.ClearLeg? || a.FinalizeLeg?
  }

  predicate IsStatusWrite(a: Action) {
    a.PatchWrite? || a.DisputeWrite? || a.SweepWrite? || a.LockWrite?
  }

  predicate IsEnd(a: Action) {
    a.ResetClear? || a.NotifySent? || a.Crash?
  }

  predicate IsStart(a: Action) {
    a.Begin? || a.ResetRead? || a.PatchRead? || a.DisputeRead? || a.SweepRead? || a.DetectRead?
  }

  /** The step is call t's own. */
  predicate Acts(a: Action, t: nat) {
    (IsLeg(a) || IsStatusWrite(a) || IsEnd(a)) && a.t == t
  }

  /** A call's own step ends it, moves a release on, or lets a paid report go on to notify. */
  predicate GoesOn(from: Task, to: Task) {
    || to == Done
    || (&& from.Release? && to.Release? && to.original == from.original && to.confirmed == from.confirmed
        && (to.leg != Finalizing ==> from.leg != Finalizing))
    || (from.Detect? && to.Notify?)
  }

  /** At most one call begins, and a call in flight moves on only by a step of its own. */
  ghost predicate CallsMove(s: Deal, a: Action, s': Deal) {
    && |s.tasks| <= |s'.tasks| <= |s.tasks| + 1
    && (|s'.tasks| > |s.tasks| ==> IsStart(a))
    && (forall t: nat :: t < |s.tasks| ==>
          s'.tasks[t] == s.tasks[t] || (Acts(a, t) && GoesOn(s.tasks[t], s'.tasks[t])))
  }

  lemma LegsMove(s: Deal, a: Action)
    requires Enabled(s, a) && IsLeg(a)
    ensures CallsMove(s, a, Step(s, a))
  {
  }

  lemma WritesMove(s: Deal, a: Action)
    requires Enabled(s, a) && IsStatusWrite(a)
    ensures CallsMove(s, a, Step(s, a))
  {
  }

  lemma StepMoves(s: Deal, a: Action)
    requires Enabled(s, a)
    ensures CallsMove(s, a, Step(s, a))
  {
    if IsLeg(a) {
      LegsMove(s, a);
    } else if IsStatusWrite(a) {
      WritesMove(s, a);
    }
  }

  // ---------- what is asked of people ----------

  /** A payout that has not failed. */
  predicate Live(s: Deal, p: nat) {
    p < |s.payouts| && s.payouts[p].verdict != Failed
  }

  ghost predicate NoneLive(s: Deal) {
    forall p: nat :: !Live(s, p)
  }

  /** A release that went past phase 1 without finding a paid payout: it may send one. */
  predicate MaySend(s: Deal, t: nat) {
    t < |s.tasks| && s.tasks[t].Release? && !s.tasks[t].confirmed
  }

  /** The operator tells the truth: confirm_payout names a payout of this deal, and when
      reset_payout clears, nothing was paid and no release that may pay is running. */
  ghost predicate Honest(s: Deal, a: Action) {
    && (a.Confirm? ==> a.p < |s.payouts|)
    && (a.ResetClear? ==> NoneLive(s) && forall t: nat :: !MaySend(s, t))
  }

  /** A freelancer's unguarded write lands where the lifecycle allows it, or changes nothing. */
  predicate Lawful(s: Deal, a: Action)
    requires Enabled(s, a)
  {
    a.PatchWrite? ==>
      s.row.status == s.tasks[a.t].target || CanTransition(s.row.status, s.tasks[a.t].target)
  }

  /** What the payer, the network's timeouts and the payee's node do on their own. */
  predicate IsNetworkStep(a: Action) {
    a.Fund? || a.Return? || a.Resolve?
  }

  /** Which assumptions a run makes: honest operators, lawful writes, a still network, and a
      steady service none of whose calls dies. */
  datatype Assuming = Assuming(honest: bool, lawful: bool, still: bool, steady: bool)

  const NOTHING := Assuming(false, false, false, false)
  const HONEST := Assuming(true, false, false, false)
  const LAWFUL := Assuming(false, true, false, false)
  const HONEST_LAWFUL := Assuming(true, true, false, false)
  const HONEST_STEADY := Assuming(true, false, false, true)
  const STEADY := Assuming(true, true, false, true)
  const UNAIDED := Assuming(true, true, true, true)

  ghost predicate Permitted(mode: Assuming, s: Deal, a: Action) {
    && Enabled(s, a)
    && (mode.honest ==> Honest(s, a))
    && (mode.lawful ==> Lawful(s, a))
    && (mode.still ==> !IsNetworkStep(a))
    && (mode.steady ==> !a.Crash?)
  }

  ghost predicate Run(mode: Assuming, s: Deal, acts: seq<Action>)
    decreases |acts|
  {
    acts == [] || (Permitted(mode, s, acts[0]) && Run(mode, Step(s, acts[0]), acts[1..]))
  }

  ghost function Exec(mode: Assuming, s: Deal, acts: seq<Action>): Deal
    requires Run(mode, s, acts)
    decreases |acts|
  {
    if acts == [] then s else Exec(mode, Step(s, acts[0]), acts[1..])
  }

  lemma RunOne(mode: Assuming, s: Deal, a: Action)
    requires Permitted(mode, s, a)
    ensures Run(mode, s, [a]) && Exec(mode, s, [a]) == Step(s, a)
  {
    var acts := [a];
    var rest: seq<Action> := [];
    assert acts[0] == a && acts[1..] == rest;
    assert Run(mode, Step(s, a), rest) && Exec(mode, Step(s, a), rest) == Step(s, a);
  }

  lemma {:induction false} RunSplit(mode: Assuming, s: Deal, xs: seq<Action>, ys: seq<Action>)
    ensures Run(mode, s, xs + ys) <==> Run(mode, s, xs) && Run(mode, Exec(mode, s, xs), ys)
    ensures Run(mode, s, xs + ys) ==> Exec(mode, s, xs + ys) == Exec(mode, Exec(mode, s, xs), ys)
    decreases |xs|
  {
    if xs == [] {
      assert xs + ys == ys;
    } else {
      assert (xs + ys)[0] == xs[0] && (xs + ys)[1..] == xs[1..] + ys;
      if Permitted(mode, s, xs[0]) {
        RunSplit(mode, Step(s, xs[0]), xs[1..], ys);
      }
    }
  }
}
