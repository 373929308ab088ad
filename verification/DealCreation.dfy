/** CreateDeal: draw the hold, insert the row, and tear the hold down again when the row may not
    be there. */
module DealCreation {
  import opened Results
  import opened Deals
  import Escrow
  import EscrowReach
  import EscrowRecovery
  import EscrowRuns

  type Bytes = seq<bv8>

  datatype Request = Request(
    freelancerId: string,
    emailIsValid: bool,
    title: string,
    amountSats: int,
    sourcePlatform: string,
    payeeInvoice: string,
    status: Option<Status>)

  datatype CreateError =
    | InvalidInput
    | HoldNotDrawn
    | BeginFailed
    | InsertFailed
    | CommitUnknown

  /** The answer to the draw; LNbits may have drawn a hold whose answer was lost. */
  datatype DrawReply = Drawn | DrawFailed(drawnAnyway: bool)

  /** A commit error says nothing about whether the row persisted. */
  datatype CommitReply = Committed | CommitError(persisted: bool)

  datatype Invoice = Payable | Cancelled

  /** A row stores the preimage, or nothing when encrypting it failed. */
  datatype NewDeal = NewDeal(status: Status, amount: nat, preimage: Option<Bytes>)

  predicate IsAcceptable(q: Request) {
    q.freelancerId != "" && q.emailIsValid && q.title != "" && q.amountSats > 0
    && q.sourcePlatform != "" && q.payeeInvoice != ""
  }

  /** The deal the escrow goes on with, once its row and its hold are as they are. */
  function Entered(row: NewDeal, hold: Invoice): Escrow.Deal {
    Escrow.Deal(row.amount, row.preimage.Some?, Escrow.Row(row.status, false, None),
                if hold == Payable then Escrow.Open else Escrow.Dead, [], [],
                Escrow.History(false, false, false, 0))
  }

  class Desk {
    const sha256: Bytes -> Bytes
    /** hold invoices at LNbits and deals rows, by payment hash */
    var holds: map<Bytes, Invoice>
    var rows: map<Bytes, NewDeal>
    /** every cancel sent so far */
    var cancels: seq<Bytes>

    constructor (sha256: Bytes -> Bytes)
      ensures this.sha256 == sha256 && holds == map[] && rows == map[] && cancels == []
    {
      this.sha256 := sha256;
      holds, rows, cancels := map[], map[], [];
    }

    /** No client can pay into a hold that no deal stands behind. */
    ghost predicate NoOrphanHold()
      reads this
    {
      forall hash :: hash in holds && holds[hash] == Payable ==> hash in rows
    }

    method CancelOrphanHold(hash: Bytes, works: bool)
      requires hash in holds
      modifies this`holds, this`cancels
      ensures cancels == old(cancels) + [hash]
      ensures holds == if works then old(holds)[hash := Cancelled] else old(holds)
    {
      cancels := cancels + [hash];
      if works {
        holds := holds[hash := Cancelled];
      }
    }

    /** The deal is created exactly when every stage succeeds. Afterwards its row holds the
        preimage of the hash its hold is locked to, unless encrypting the preimage failed: then
        the row has none and nobody is told. On any failure once the hold is drawn, exactly one
        cancel goes out, for exactly that hash; a payable hold is left without a row only when
        that cancel has no effect and no row persisted, or when LNbits drew a hold and its
        answer was lost. */
    method CreateDeal(q: Request, preimage: Bytes, encrypts: bool, draw: DrawReply, beginOk: bool,
                      insertOk: bool, commit: CommitReply, cancelWorks: bool)
      returns (r: Result<Bytes, CreateError>)
      requires sha256(preimage) !in holds && sha256(preimage) !in rows
      modifies this`holds, this`rows, this`cancels
      ensures r.Success? <==> IsAcceptable(q) && draw.Drawn? && beginOk && insertOk && commit.Committed?
      ensures r.Success? ==>
                && r.value == sha256(preimage)
                && holds == old(holds)[r.value := Payable]
                && rows == old(rows)[r.value := NewDeal(if q.status.Some? then q.status.value else AwaitingPayment,
                                                        q.amountSats, if encrypts then Some(preimage) else None)]
                && cancels == old(cancels)
      ensures r.Failure? && IsAcceptable(q) && draw.Drawn? ==>
                && cancels == old(cancels) + [sha256(preimage)]
                && (cancelWorks ==> holds == old(holds)[sha256(preimage) := Cancelled])
      ensures r.Failure? && !(IsAcceptable(q) && draw.Drawn?) ==> cancels == old(cancels) && rows == old(rows)
      ensures r == Failure(InvalidInput) <==>
                || q.freelancerId == "" || !q.emailIsValid || q.title == "" || q.amountSats <= 0
                || q.sourcePlatform == "" || q.payeeInvoice == ""
      ensures r == Failure(InvalidInput) <==> !IsAcceptable(q)
      ensures r == Failure(HoldNotDrawn) <==> IsAcceptable(q) && draw.DrawFailed?
      ensures r == Failure(BeginFailed) <==> IsAcceptable(q) && draw.Drawn? && !beginOk
      ensures r == Failure(InsertFailed) <==> IsAcceptable(q) && draw.Drawn? && beginOk && !insertOk
      ensures r == Failure(CommitUnknown) <==>
                IsAcceptable(q) && draw.Drawn? && beginOk && insertOk && commit.CommitError?
      ensures r == Failure(InvalidInput) ==> holds == old(holds)
      ensures r.Success? && q.status.None? ==>
                Entered(rows[r.value], holds[r.value]) == Escrow.Fresh(q.amountSats, encrypts)
      ensures sha256(preimage) in rows && r.Failure? <==>
                IsAcceptable(q) && draw.Drawn? && beginOk && insertOk && commit == CommitError(true)
      ensures r.Failure? && sha256(preimage) in rows ==>
                && r.error == CommitUnknown
                && sha256(preimage) in holds
                && rows[sha256(preimage)].status == (if q.status.Some? then q.status.value else AwaitingPayment)
                && rows[sha256(preimage)].amount == q.amountSats
                && Entered(rows[sha256(preimage)], holds[sha256(preimage)]).hold
                   == if cancelWorks then Escrow.Dead else Escrow.Open
      ensures old(NoOrphanHold()) ==>
                (NoOrphanHold() <==>
                   !(IsAcceptable(q)
                     && (draw == DrawFailed(true)
                         || (draw.Drawn? && r.Failure? && !cancelWorks && sha256(preimage) !in rows))))
    {
      if q.freelancerId == "" || !q.emailIsValid || q.title == "" || q.amountSats <= 0
         || q.sourcePlatform == "" || q.payeeInvoice == "" {
        return Failure(InvalidInput);
      }
      var status := if q.status.Some? then q.status.value else AwaitingPayment;
      var hash := sha256(preimage);
      if draw.DrawFailed? {
        if draw.drawnAnyway {
          holds := holds[hash := Payable];
          assert hash !in rows;
        }
        return Failure(HoldNotDrawn);
      }
      holds := holds[hash := Payable];
      if !beginOk {
        CancelOrphanHold(hash, cancelWorks);
        assert holds[hash] == if cancelWorks then Cancelled else Payable;
        return Failure(BeginFailed);
      }
      var row := NewDeal(status, q.amountSats, if encrypts then Some(preimage) else None);
      if !insertOk {
        CancelOrphanHold(hash, cancelWorks);
        assert holds[hash] == if cancelWorks then Cancelled else Payable;
        return Failure(InsertFailed);
      }
      if commit.CommitError? {
        if commit.persisted {
          rows := rows[hash := row];
        }
        CancelOrphanHold(hash, cancelWorks);
        assert holds[hash] == if cancelWorks then Cancelled else Payable;
        return Failure(CommitUnknown);
      }
      rows := rows[hash := row];
      r := Success(hash);
    }
  }

  /** A row that survived an ambiguous commit while its hold was cancelled: the sweep refunds it,
      whatever open status it was created with. */
  lemma SurvivorIsSwept(row: NewDeal) returns (s': Escrow.Deal)
    requires IsOpen(row.status)
    ensures EscrowReach.Reaches(Escrow.UNAIDED, Entered(row, Cancelled), s')
    ensures s'.row.status == Refunded && s'.payouts == []
  {
    s' := EscrowRecovery.DeadHoldIsSwept(Entered(row, Cancelled));
  }

  lemma {:induction false} DeadStaysDead(mode: Escrow.Assuming, s: Escrow.Deal, acts: seq<Escrow.Action>)
    requires s.hold == Escrow.Dead && Escrow.Run(mode, s, acts)
    ensures Escrow.Exec(mode, s, acts).hold == Escrow.Dead
    decreases |acts|
  {
    if acts != [] {
      DeadStaysDead(mode, Escrow.Step(s, acts[0]), acts[1..]);
    }
  }

  /** ... and until then nothing anybody does can release it or pay anything out. */
  lemma SurvivorNeverPays(row: NewDeal, acts: seq<Escrow.Action>)
    requires IsOpen(row.status) && Escrow.Run(Escrow.HONEST, Entered(row, Cancelled), acts)
    ensures var s := Escrow.Exec(Escrow.HONEST, Entered(row, Cancelled), acts);
            s.payouts == [] && s.row.status != Released
  {
    DeadStaysDead(Escrow.HONEST, Entered(row, Cancelled), acts);
    EscrowRuns.RunKeepsInv(Escrow.HONEST, Entered(row, Cancelled), acts);
  }
}
