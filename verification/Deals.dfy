/** The deal lifecycle: its statuses, the transition table and the order the table induces. */
module Deals {

  datatype Status =
    | AwaitingPayment
    | Locked
    | WorkSubmitted
    | Reviewing
    | Released
    | Disputed
    | Refunded

  function ValidTransitions(from: Status): set<Status> {
    match from
    case AwaitingPayment => {Locked, WorkSubmitted, Refunded}
    case Locked => {WorkSubmitted, Disputed}
    case WorkSubmitted => {Reviewing, Released, Disputed}
    case Reviewing => {Released, Disputed}
    case Disputed => {Released, Refunded}
    case Released => {}
    case Refunded => {}
  }

  predicate CanTransition(from: Status, to: Status) {
    to in ValidTransitions(from)
  }

  predicate IsTerminal(status: Status) {
    status == Released || status == Refunded
  }

  /** The states ListOpenBefore selects for the hold-expiry sweep. */
  predicate IsOpen(status: Status) {
    status in {AwaitingPayment, Locked, WorkSubmitted, Reviewing, Disputed}
  }

  /** The sweep refunds any open deal whose hold is gone, which the table does not list. */
  predicate SweepEdge(from: Status, to: Status) {
    IsOpen(from) && to == Refunded
  }

  predicate LegalChange(from: Status, to: Status) {
    CanTransition(from, to) || SweepEdge(from, to)
  }

  /** The targets UpdateStatus accepts from a freelancer: every other status is a money move. */
  predicate IsFreelancerTarget(status: Status) {
    status !in {Locked, Released, Disputed, Refunded}
  }

  function Rank(status: Status): (r: nat) {
    match status
    case AwaitingPayment => 5
    case Locked => 4
    case WorkSubmitted => 3
    case Reviewing => 2
    case Disputed => 1
    case Released => 0
    case Refunded => 0
  }

  /** The lifecycle never climbs, and a status can be left exactly when it is not terminal. */
  lemma LegalChangesDescend(from: Status)
    ensures forall to :: LegalChange(from, to) ==> Rank(to) < Rank(from)
    ensures (exists to :: LegalChange(from, to)) <==> !IsTerminal(from)
  {
    if IsOpen(from) {
      assert LegalChange(from, Refunded);
    }
  }

  /** The table read backwards: what each status can be reached from. Money is released only for
      work that was submitted, only paid-for deals are disputed, and nobody but an arbiter or the
      sweep of an unpaid deal refunds. */
  lemma ReachedFrom(from: Status, to: Status)
    ensures CanTransition(from, to) <==>
              match to
              case AwaitingPayment => false
              case Locked => from == AwaitingPayment
              case WorkSubmitted => from == AwaitingPayment || from == Locked
              case Reviewing => from == WorkSubmitted
              case Released => from == WorkSubmitted || from == Reviewing || from == Disputed
              case Disputed => from == Locked || from == WorkSubmitted || from == Reviewing
              case Refunded => from == AwaitingPayment || from == Disputed
  {
  }

  /** What the freelancer can bring about by hand: submitting, and marking submitted work as under
      review. */
  lemma FreelancerMoves(from: Status, to: Status)
    ensures IsFreelancerTarget(to) && CanTransition(from, to) <==>
              || (to == WorkSubmitted && (from == AwaitingPayment || from == Locked))
              || (to == Reviewing && from == WorkSubmitted)
  {
  }

  /** The sweep looks at exactly the deals that are not closed. */
  lemma OpenIsNotTerminal(status: Status)
    ensures IsOpen(status) <==>
              || status == AwaitingPayment || status == Locked || status == WorkSubmitted
              || status == Reviewing || status == Disputed
    ensures IsOpen(status) <==> !(status == Released || status == Refunded)
    ensures IsOpen(status) <==> !IsTerminal(status)
  {
  }
}
