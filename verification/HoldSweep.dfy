/** The hold-expiry sweep over the deals table: a snapshot, one LNbits answer a deal, and one
    conditional update a deal, with other writers at work before each update. */
module HoldSweep {
  import opened Results
  import opened Deals
  import opened LNbits
  import Escrow
  import opened Wallet

  /** A deal's row number is its place in creation order, the order ListOpenBefore returns. */
  datatype TableRow = TableRow(status: Status, createdAt: int, checkingId: Option<nat>)

  /** What the sweep remembers of a deal between listing and updating it. */
  datatype Listed = Listed(id: nat, status: Status, checkingId: Option<nat>)

  predicate IsListed(rows: seq<TableRow>, cutoff: int, i: nat) {
    i < |rows| && IsOpen(rows[i].status) && rows[i].createdAt < cutoff
  }

  function OpenBefore(rows: seq<TableRow>, cutoff: int, n: nat): seq<Listed>
    requires n <= |rows|
  {
    if n == 0 then []
    else OpenBefore(rows, cutoff, n - 1)
         + if IsListed(rows, cutoff, n - 1)
           then [Listed(n - 1, rows[n - 1].status, rows[n - 1].checkingId)] else []
  }

  predicate InOrder(open: seq<Listed>) {
    forall j, k :: 0 <= j < k < |open| ==> open[j].id < open[k].id
  }

  /** The snapshot holds exactly the old open deals, each once, as they were read. */
  lemma {:induction false} SnapshotExact(rows: seq<TableRow>, cutoff: int, n: nat)
    requires n <= |rows|
    ensures var open := OpenBefore(rows, cutoff, n);
            && InOrder(open)
            && (forall k :: 0 <= k < |open| ==>
                  && open[k].id < n && IsListed(rows, cutoff, open[k].id)
                  && open[k].status == rows[open[k].id].status
                  && open[k].checkingId == rows[open[k].id].checkingId)
            && (forall i: nat :: i < n && IsListed(rows, cutoff, i) ==>
                  Listed(i, rows[i].status, rows[i].checkingId) in open)
  {
    if n > 0 {
      SnapshotExact(rows, cutoff, n - 1);
    }
  }

  /** LNbits says the hold of this deal is gone. */
  predicate ReportedGone(deal: Listed, answers: map<nat, CheckReply>) {
    && deal.checkingId.Some?
    && deal.checkingId.value in answers
    && answers[deal.checkingId.value].Payment?
    && IsHoldReleased(answers[deal.checkingId.value].status)
  }

  /** An update that reports an error may have been applied. */
  datatype UpdateReply = Works | Errs(applied: bool)

  function ReplyTo(updates: map<nat, UpdateReply>, id: nat): UpdateReply {
    if id in updates then updates[id] else Works
  }

  /** The answers one sweep gets: LNbits' by checking id, the database's by deal. */
  datatype World = World(answers: map<nat, CheckReply>, updates: map<nat, UpdateReply>)

  /** The conditional update of one listed deal finds the status it read. */
  predicate Hits(rows: seq<TableRow>, deal: Listed, w: World) {
    deal.id < |rows| && deal.status == rows[deal.id].status && ReportedGone(deal, w.answers)
  }

  /** ... and is applied to the row. */
  predicate Moves(rows: seq<TableRow>, deal: Listed, w: World) {
    Hits(rows, deal, w) && (ReplyTo(w.updates, deal.id).Works? || ReplyTo(w.updates, deal.id).applied)
  }

  /** ... and answered, so that the sweep counts it. */
  predicate Counts(rows: seq<TableRow>, deal: Listed, w: World) {
    Hits(rows, deal, w) && ReplyTo(w.updates, deal.id).Works?
  }

  /** The table after the sweep is done with one listed deal. */
  function Updated(rows: seq<TableRow>, deal: Listed, w: World): seq<TableRow> {
    if Moves(rows, deal, w) then rows[deal.id := rows[deal.id].(status := Refunded)] else rows
  }

  /** What one update does: it takes the listed row to refunded if the row still has the status it
      was listed with, one of the five open ones, LNbits said that its hold is gone, and the database
      applied the update; it touches nothing else, and it counts if the database said so. */
  predicate TouchesOnlyGone(rows: seq<TableRow>, deal: Listed, w: World) {
    var applied := deal.id !in w.updates || w.updates[deal.id] == Works || w.updates[deal.id] == Errs(true);
    var answered := deal.id !in w.updates || w.updates[deal.id] == Works;
    var gone := deal.checkingId.Some? && deal.checkingId.value in w.answers
                && SaysGone(w.answers[deal.checkingId.value]);
    && |Updated(rows, deal, w)| == |rows|
    && (forall i: nat :: i < |rows| ==>
          && (Updated(rows, deal, w)[i] != rows[i] <==>
                deal.id == i && rows[i].status == deal.status && gone && applied)
          && (Updated(rows, deal, w)[i] != rows[i] ==>
                && Updated(rows, deal, w)[i] == rows[i].(status := Refunded)
                && rows[i].status in {AwaitingPayment, Locked, WorkSubmitted, Reviewing, Disputed}))
    && (Counts(rows, deal, w) <==> Updated(rows, deal, w) != rows && answered)
  }

  /** What other writers have made of some statuses before each update. */
  type Others = seq<map<nat, Status>>

  function Patched(rows: seq<TableRow>, patch: map<nat, Status>): (after: seq<TableRow>)
    ensures |after| == |rows|
    ensures forall i: nat :: i < |rows| ==>
              after[i] == if i in patch then rows[i].(status := patch[i]) else rows[i]
  {
    seq(|rows|, i requires 0 <= i < |rows| => if i in patch then rows[i].(status := patch[i]) else rows[i])
  }

  function Meanwhile(rows: seq<TableRow>, others: Others, k: nat): seq<TableRow> {
    if k < |others| then Patched(rows, others[k]) else rows
  }

  /** seen[k] is the table update k runs on; this is the table when the first k are done. */
  function TableAfter(start: seq<TableRow>, open: seq<Listed>, w: World, seen: seq<seq<TableRow>>, k: nat)
    : seq<TableRow>
    requires k <= |seen| <= |open|
  {
    if k == 0 then start else Updated(seen[k - 1], open[k - 1], w)
  }

  predicate Follows(start: seq<TableRow>, open: seq<Listed>, w: World, others: Others, seen: seq<seq<TableRow>>, k: nat)
    requires k < |seen| <= |open|
  {
    seen[k] == Meanwhile(TableAfter(start, open, w, seen, k), others, k)
  }

  predicate Trace(start: seq<TableRow>, open: seq<Listed>, w: World, others: Others, seen: seq<seq<TableRow>>) {
    |seen| <= |open| && forall k: nat :: k < |seen| ==> Follows(start, open, w, others, seen, k)
  }

  ghost function Counted(open: seq<Listed>, w: World, seen: seq<seq<TableRow>>): set<nat>
    requires |seen| <= |open|
  {
    set k: nat | k < |seen| && Counts(seen[k], open[k], w)
  }

  class DealTable {
    var rows: seq<TableRow>

    constructor (rows: seq<TableRow>)
      ensures this.rows == rows
    {
      this.rows := rows;
    }

    method ListOpenBefore(cutoff: int) returns (open: seq<Listed>)
      ensures open == OpenBefore(rows, cutoff, |rows|)
    {
      open := [];
      for i := 0 to |rows|
        invariant open == OpenBefore(rows, cutoff, i)
      {
        if IsOpen(rows[i].status) && rows[i].createdAt < cutoff {
          open := open + [Listed(i, rows[i].status, rows[i].checkingId)];
        }
      }
    }

    method UpdateStatusIfCurrent(id: nat, expected: Status, to: Status) returns (transitioned: bool)
      requires id < |rows|
      modifies this
      ensures transitioned == (old(rows[id].status) == expected)
      ensures rows == if transitioned then old(rows)[id := old(rows[id]).(status := to)] else old(rows)
    {
      transitioned := rows[id].status == expected;
      if transitioned {
        rows := rows[id := rows[id].(status := to)];
      }
    }

    /** SweepExpiredHolds after its snapshot. A deal absent from the answers is one LNbits could
        not be reached for. Each update acts on the table as others have left it by then; an
        update that errs is not counted, even when it was applied. */
    method SweepListed(open: seq<Listed>, w: World, others: Others) returns (swept: nat, ghost seen: seq<seq<TableRow>>)
      requires forall k :: 0 <= k < |open| ==> open[k].id < |rows|
      modifies this
      ensures |seen| == |open| && Trace(old(rows), open, w, others, seen)
      ensures rows == TableAfter(old(rows), open, w, seen, |seen|)
      ensures swept == |Counted(open, w, seen)|
    {
      swept, seen := 0, [];
      for k := 0 to |open|
        invariant |seen| == k && |rows| == |old(rows)|
        invariant Trace(old(rows), open, w, others, seen)
        invariant rows == TableAfter(old(rows), open, w, seen, |seen|)
        invariant swept == |Counted(open, w, seen)|
      {
        var deal := open[k];
        rows := Meanwhile(rows, others, k);
        ghost var now := rows;
        ghost var before := seen;
        seen := seen + [now];
        TraceMore(old(rows), open, w, others, before, now);
        CountMore(open, w, before, now);
        if deal.checkingId.Some? && deal.checkingId.value in w.answers {
          match w.answers[deal.checkingId.value]
          case Unreachable =>
          case Payment(_, status) =>
            if IsHoldReleased(status) {
              match ReplyTo(w.updates, deal.id)
              case Works =>
                var transitioned := UpdateStatusIfCurrent(deal.id, deal.status, Refunded);
                if transitioned {
                  swept := swept + 1;
                }
              case Errs(applied) =>
                if applied {
                  var unheard := UpdateStatusIfCurrent(deal.id, deal.status, Refunded);
                }
            }
        }
        assert rows == Updated(now, deal, w);
      }
    }

    /** SweepExpiredHolds. Whatever others write before each update, the sweep's own write to a
        row happens only while the row still has the open status the snapshot read and its hold
        was reported gone, so it never touches a released deal; the result counts the deals whose
        update was applied and answered. */
    method SweepExpiredHolds(cutoff: int, w: World, others: Others)
      returns (swept: nat, ghost open: seq<Listed>, ghost seen: seq<seq<TableRow>>)
      modifies this
      ensures open == OpenBefore(old(rows), cutoff, |old(rows)|)
      ensures |seen| == |open| && Trace(old(rows), open, w, others, seen)
      ensures rows == TableAfter(old(rows), open, w, seen, |seen|)
      ensures swept == |Counted(open, w, seen)|
      ensures forall k: nat :: k < |seen| ==> TouchesOnlyGone(seen[k], open[k], w)
    {
      var listed := ListOpenBefore(cutoff);
      open := listed;
      SnapshotExact(rows, cutoff, |rows|);
      swept, seen := SweepListed(listed, w, others);
      forall k: nat | k < |seen| ensures TouchesOnlyGone(seen[k], open[k], w) {
        assert IsListed(old(rows), cutoff, open[k].id);
        OneUpdate(seen[k], open[k], w);
      }
    }
  }

  lemma OneUpdate(rows: seq<TableRow>, deal: Listed, w: World)
    requires IsOpen(deal.status)
    ensures TouchesOnlyGone(rows, deal, w)
  {
    assert Updated(rows, deal, w) != rows ==> deal.id < |rows| && Updated(rows, deal, w)[deal.id] != rows[deal.id];
    assert Moves(rows, deal, w) ==> Updated(rows, deal, w)[deal.id] != rows[deal.id];
  }

  lemma TraceMore(start: seq<TableRow>, open: seq<Listed>, w: World, others: Others,
                  seen: seq<seq<TableRow>>, now: seq<TableRow>)
    requires |seen| < |open| && Trace(start, open, w, others, seen)
    requires now == Meanwhile(TableAfter(start, open, w, seen, |seen|), others, |seen|)
    ensures Trace(start, open, w, others, seen + [now])
    ensures TableAfter(start, open, w, seen + [now], |seen| + 1) == Updated(now, open[|seen|], w)
  {
    var more := seen + [now];
    forall k: nat | k < |more| ensures Follows(start, open, w, others, more, k) {
      assert k < |seen| ==> more[k] == seen[k] && Follows(start, open, w, others, seen, k);
      assert k > 0 ==> more[k - 1] == seen[k - 1];
    }
  }

  lemma CountMore(open: seq<Listed>, w: World, seen: seq<seq<TableRow>>, now: seq<TableRow>)
    requires |seen| < |open|
    ensures |Counted(open, w, seen + [now])|
            == |Counted(open, w, seen)| + if Counts(now, open[|seen|], w) then 1 else 0
  {
    var k, more := |seen|, seen + [now];
    forall j: nat ensures j in Counted(open, w, more) <==>
                          j in Counted(open, w, seen) || (j == k && Counts(now, open[k], w))
    {
      assert j < k ==> more[j] == seen[j];
    }
    assert Counted(open, w, more) == Counted(open, w, seen) + if Counts(now, open[k], w) then {k} else {};
  }

  // ---------- the sweep of one deal is SweepRead and SweepWrite ----------

  /** Row i of the table is deal s of the escrow. */
  predicate Stands(rows: seq<TableRow>, i: nat, s: Escrow.Deal) {
    i < |rows| && rows[i].status == s.row.status
  }

  /** The sweep's process neither dies nor comes to this deal's update along the run. */
  predicate LeavesSweep(acts: seq<Escrow.Action>, t: nat) {
    forall j :: 0 <= j < |acts| ==> !((acts[j].SweepWrite? || acts[j].Crash?) && acts[j].t == t)
  }

  lemma {:induction false} SweepWaits(s: Escrow.Deal, acts: seq<Escrow.Action>, t: nat)
    requires t < |s.tasks| && s.tasks[t].Sweep? && LeavesSweep(acts, t) && Escrow.Run(Escrow.HONEST, s, acts)
    ensures t < |Escrow.Exec(Escrow.HONEST, s, acts).tasks|
    ensures Escrow.Exec(Escrow.HONEST, s, acts).tasks[t] == s.tasks[t]
    decreases |acts|
  {
    if acts != [] {
      assert !((acts[0].SweepWrite? || acts[0].Crash?) && acts[0].t == t);
      forall j | 0 <= j < |acts[1..]|
        ensures !((acts[1..][j].SweepWrite? || acts[1..][j].Crash?) && acts[1..][j].t == t)
      {
        assert acts[1..][j] == acts[j + 1];
      }
      SweepWaits(Escrow.Step(s, acts[0]), acts[1..], t);
    }
  }

  /** Listing a deal is SweepRead and its update is SweepWrite, with any run of the escrow in
      between: if row and deal agree when the deal is listed and when its update runs, then the
      whole is a run of the escrow, and they agree afterwards. LNbits' answer must be true of the hold
      as it is then. */
  lemma SweepIsReadAndWrite(listed: seq<TableRow>, cutoff: int, i: nat, w: World, now: seq<TableRow>,
                            s: Escrow.Deal, between: seq<Escrow.Action>)
    requires IsListed(listed, cutoff, i) && Stands(listed, i, s)
    requires LeavesSweep(between, |s.tasks|)
             && Escrow.Run(Escrow.HONEST, Escrow.Step(s, Escrow.SweepRead), between)
    requires var later := Escrow.Exec(Escrow.HONEST, Escrow.Step(s, Escrow.SweepRead), between);
             Stands(now, i, later)
             && (listed[i].checkingId.Some? && listed[i].checkingId.value in w.answers ==>
                   TrueOfHold(later.hold, w.answers[listed[i].checkingId.value]))
    ensures var deal := Listed(i, listed[i].status, listed[i].checkingId);
            var acts := [Escrow.SweepRead] + (between + [Escrow.SweepWrite(|s.tasks|, Moves(now, deal, w))]);
            && Escrow.Run(Escrow.HONEST, s, acts)
            && Stands(Updated(now, deal, w), i, Escrow.Exec(Escrow.HONEST, s, acts))
  {
    var deal := Listed(i, listed[i].status, listed[i].checkingId);
    var read := Escrow.Step(s, Escrow.SweepRead);
    var write := Escrow.SweepWrite(|s.tasks|, Moves(now, deal, w));
    SweepWaits(read, between, |s.tasks|);
    var later := Escrow.Exec(Escrow.HONEST, read, between);
    Escrow.RunOne(Escrow.HONEST, later, write);
    Escrow.RunSplit(Escrow.HONEST, read, between, [write]);
    var rest := between + [write];
    var acts := [Escrow.SweepRead] + rest;
    assert acts[0] == Escrow.SweepRead;
    assert acts[1..] == rest;
  }

  // ---------- an undisturbed sweep ----------

  predicate Undisturbed(w: World, others: Others) {
    w.updates == map[] && others == []
  }

  /** Row i is refunded: it is listed and its hold is gone. */
  predicate IsSwept(rows: seq<TableRow>, cutoff: int, answers: map<nat, CheckReply>, i: nat) {
    IsListed(rows, cutoff, i) && ReportedGone(Listed(i, rows[i].status, rows[i].checkingId), answers)
  }

  function Swept(rows: seq<TableRow>, cutoff: int, answers: map<nat, CheckReply>): (after: seq<TableRow>)
    ensures |after| == |rows|
    ensures forall i: nat :: i < |rows| ==>
              after[i] == if IsSwept(rows, cutoff, answers, i) then rows[i].(status := Refunded) else rows[i]
  {
    seq(|rows|, i requires 0 <= i < |rows| =>
      if IsSwept(rows, cutoff, answers, i) then rows[i].(status := Refunded) else rows[i])
  }

  /** One of the first n listed deals is deal i, and its hold is gone. */
  predicate SweptBy(open: seq<Listed>, n: nat, answers: map<nat, CheckReply>, i: nat)
    requires n <= |open|
  {
    exists k: nat :: k < n && open[k].id == i && ReportedGone(open[k], answers)
  }

  function SweptRows(rows: seq<TableRow>, open: seq<Listed>, n: nat, answers: map<nat, CheckReply>): set<nat>
    requires n <= |open|
  {
    set i: nat | i < |rows| && SweptBy(open, n, answers, i)
  }

  ghost predicate IsSnapshot(start: seq<TableRow>, open: seq<Listed>) {
    InOrder(open)
    && forall k :: 0 <= k < |open| ==> open[k].id < |start| && open[k].status == start[open[k].id].status
                                       && open[k].status != Refunded
  }

  lemma SweptByOneMore(open: seq<Listed>, n: nat, answers: map<nat, CheckReply>, i: nat)
    requires n < |open|
    ensures SweptBy(open, n + 1, answers, i) <==>
            SweptBy(open, n, answers, i) || (open[n].id == i && ReportedGone(open[n], answers))
  {
    if SweptBy(open, n + 1, answers, i) {
      var k: nat :| k < n + 1 && open[k].id == i && ReportedGone(open[k], answers);
      assert k < n ==> SweptBy(open, n, answers, i);
    }
  }

  lemma SweptByNext(start: seq<TableRow>, open: seq<Listed>, n: nat, answers: map<nat, CheckReply>)
    requires IsSnapshot(start, open) && n < |open|
    ensures !SweptBy(open, n, answers, open[n].id)
    ensures forall i: nat :: SweptBy(open, n + 1, answers, i) <==>
                             SweptBy(open, n, answers, i) || (open[n].id == i && ReportedGone(open[n], answers))
    ensures |SweptRows(start, open, n + 1, answers)|
            == |SweptRows(start, open, n, answers)| + if ReportedGone(open[n], answers) then 1 else 0
  {
    forall i: nat
      ensures SweptBy(open, n + 1, answers, i) <==>
              SweptBy(open, n, answers, i) || (open[n].id == i && ReportedGone(open[n], answers))
    {
      SweptByOneMore(open, n, answers, i);
    }
    assert SweptRows(start, open, n + 1, answers)
        == SweptRows(start, open, n, answers) + if ReportedGone(open[n], answers) then {open[n].id} else {};
  }

  /** What n undisturbed updates have come to. */
  ghost predicate SweptSoFar(start: seq<TableRow>, open: seq<Listed>, answers: map<nat, CheckReply>,
                             n: nat, now: seq<TableRow>)
    requires n <= |open|
  {
    |now| == |start|
    && forall i: nat :: i < |start| ==>
         now[i] == if SweptBy(open, n, answers, i) then start[i].(status := Refunded) else start[i]
  }

  /** With nobody else at work and no erring update, a listed deal is still as it was listed when
      its turn comes. */
  lemma NextSwept(start: seq<TableRow>, open: seq<Listed>, w: World, n: nat, now: seq<TableRow>)
    requires IsSnapshot(start, open) && w.updates == map[] && n < |open|
    requires SweptSoFar(start, open, w.answers, n, now)
    ensures SweptSoFar(start, open, w.answers, n + 1, Updated(now, open[n], w))
    ensures Counts(now, open[n], w) <==> ReportedGone(open[n], w.answers)
  {
    var deal := open[n];
    SweptByNext(start, open, n, w.answers);
    assert now[deal.id] == start[deal.id];
    assert ReplyTo(w.updates, deal.id) == Works;
  }

  lemma {:induction false} PrefixSwept(start: seq<TableRow>, open: seq<Listed>, w: World, others: Others,
                                       seen: seq<seq<TableRow>>, n: nat)
    requires IsSnapshot(start, open) && Undisturbed(w, others)
    requires Trace(start, open, w, others, seen) && n <= |seen|
    ensures SweptSoFar(start, open, w.answers, n, TableAfter(start, open, w, seen, n))
    ensures |Counted(open, w, seen[..n])| == |SweptRows(start, open, n, w.answers)|
  {
    if n == 0 {
      assert Counted(open, w, []) == {} && SweptRows(start, open, 0, w.answers) == {};
    } else {
      var before, now := seen[..n - 1], seen[n - 1];
      PrefixSwept(start, open, w, others, seen, n - 1);
      assert Follows(start, open, w, others, seen, n - 1);
      assert seen[..n] == before + [now];
      NextSwept(start, open, w, n - 1, now);
      SweptByNext(start, open, n - 1, w.answers);
      CountMore(open, w, before, now);
    }
  }

  /** Then the whole sweep refunds exactly the old open deals whose hold is gone, and counts them. */
  lemma UndisturbedSweep(start: seq<TableRow>, cutoff: int, w: World, others: Others, seen: seq<seq<TableRow>>)
    requires Undisturbed(w, others)
    requires |seen| == |OpenBefore(start, cutoff, |start|)|
    requires Trace(start, OpenBefore(start, cutoff, |start|), w, others, seen)
    ensures var open := OpenBefore(start, cutoff, |start|);
            && TableAfter(start, open, w, seen, |seen|) == Swept(start, cutoff, w.answers)
            && |Counted(open, w, seen)| == |set i: nat | i < |start| && IsSwept(start, cutoff, w.answers, i)|
  {
    var open := OpenBefore(start, cutoff, |start|);
    SnapshotExact(start, cutoff, |start|);
    PrefixSwept(start, open, w, others, seen, |seen|);
    assert seen[..|seen|] == seen;
    forall i: nat | i < |start|
      ensures SweptBy(open, |open|, w.answers, i) <==> IsSwept(start, cutoff, w.answers, i)
    {
      if IsSwept(start, cutoff, w.answers, i) {
        var k :| 0 <= k < |open| && open[k] == Listed(i, start[i].status, start[i].checkingId);
        assert open[k].id == i && ReportedGone(open[k], w.answers);
      }
    }
    assert SweptRows(start, open, |open|, w.answers)
        == set i: nat | i < |start| && IsSwept(start, cutoff, w.answers, i);
  }

  /** LNbits answers for these holds, in its own words and truthfully. */
  predicate TrueAnswers(answers: map<nat, CheckReply>, holds: map<nat, Escrow.Hold>) {
    forall id :: id in answers ==> id in holds && TellsHold(holds[id], answers[id])
  }

  /** In terms of the holds themselves: an undisturbed sweep refunds exactly the deals older than the
      cutoff that are awaiting payment, locked, submitted, under review or disputed, and whose hold
      is dead, as far as LNbits could be asked; a deal whose hold is held or settled stays as it is. */
  lemma SweepRefundsTheDead(start: seq<TableRow>, cutoff: int, w: World, others: Others, seen: seq<seq<TableRow>>,
                            holds: map<nat, Escrow.Hold>)
    requires Undisturbed(w, others) && TrueAnswers(w.answers, holds)
    requires |seen| == |OpenBefore(start, cutoff, |start|)|
    requires Trace(start, OpenBefore(start, cutoff, |start|), w, others, seen)
    ensures var after := TableAfter(start, OpenBefore(start, cutoff, |start|), w, seen, |seen|);
            && |after| == |start|
            && forall i: nat :: i < |start| ==>
                 after[i] ==
                 if && start[i].createdAt < cutoff
                    && start[i].status in {AwaitingPayment, Locked, WorkSubmitted, Reviewing, Disputed}
                    && start[i].checkingId.Some? && start[i].checkingId.value in w.answers
                    && w.answers[start[i].checkingId.value].Payment?
                    && holds[start[i].checkingId.value] == Escrow.Dead
                 then start[i].(status := Refunded) else start[i]
  {
    UndisturbedSweep(start, cutoff, w, others, seen);
    forall i: nat | i < |start|
      ensures IsSwept(start, cutoff, w.answers, i) <==>
                && start[i].createdAt < cutoff
                && start[i].status in {AwaitingPayment, Locked, WorkSubmitted, Reviewing, Disputed}
                && start[i].checkingId.Some? && start[i].checkingId.value in w.answers
                && w.answers[start[i].checkingId.value].Payment?
                && holds[start[i].checkingId.value] == Escrow.Dead
    {
      OpenIsNotTerminal(start[i].status);
      if start[i].checkingId.Some? && start[i].checkingId.value in w.answers {
        var id := start[i].checkingId.value;
        assert TellsHold(holds[id], w.answers[id]);
      }
    }
  }

  /** ... and leaves nothing for a second sweep with the same answers. */
  lemma SecondSweepMovesNone(start: seq<TableRow>, cutoff: int, w: World, others: Others,
                             first: seq<seq<TableRow>>, second: seq<seq<TableRow>>)
    requires Undisturbed(w, others)
    requires var open := OpenBefore(start, cutoff, |start|);
             && |first| == |open| && Trace(start, open, w, others, first)
    requires var once := TableAfter(start, OpenBefore(start, cutoff, |start|), w, first, |first|);
             var again := OpenBefore(once, cutoff, |once|);
             && |second| == |again| && Trace(once, again, w, others, second)
    ensures var once := TableAfter(start, OpenBefore(start, cutoff, |start|), w, first, |first|);
            var again := OpenBefore(once, cutoff, |once|);
            TableAfter(once, again, w, second, |second|) == once && Counted(again, w, second) == {}
  {
    var once := TableAfter(start, OpenBefore(start, cutoff, |start|), w, first, |first|);
    UndisturbedSweep(start, cutoff, w, others, first);
    UndisturbedSweep(once, cutoff, w, others, second);
    assert forall i: nat :: i < |once| ==> !IsSwept(once, cutoff, w.answers, i);
    assert (set i: nat | i < |once| && IsSwept(once, cutoff, w.answers, i)) == {};
  }
}
