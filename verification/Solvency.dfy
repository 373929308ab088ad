/** Any number of deals side by side: the wallet never pays out more than it settled. */
module Solvency {
  import opened Escrow
  import opened EscrowSafety
  import EscrowRuns

  type World = seq<Deal>

  datatype Move =
    | Create(amount: nat, hasPreimage: bool)
    | On(i: nat, a: Action)

  ghost predicate Allowed(w: World, m: Move) {
    m.On? ==> m.i < |w| && Permitted(HONEST, w[m.i], m.a)
  }

  ghost function Next(w: World, m: Move): World
    requires Allowed(w, m)
  {
    match m
    case Create(amount, hasPreimage) => w + [Fresh(amount, hasPreimage)]
    case On(i, a) => w[i := Step(w[i], a)]
  }

  ghost predicate Happens(w: World, moves: seq<Move>)
    decreases |moves|
  {
    moves == [] || (Allowed(w, moves[0]) && Happens(Next(w, moves[0]), moves[1..]))
  }

  ghost function After(w: World, moves: seq<Move>): World
    requires Happens(w, moves)
    decreases |moves|
  {
    if moves == [] then w else After(Next(w, moves[0]), moves[1..])
  }

  ghost predicate AllInv(w: World) {
    forall i :: 0 <= i < |w| ==> Inv(w[i])
  }

  lemma {:induction false} AllInvAfter(w: World, moves: seq<Move>)
    requires AllInv(w) && Happens(w, moves)
    ensures AllInv(After(w, moves))
    decreases |moves|
  {
    if moves != [] {
      match moves[0] {
        case Create(amount, hasPreimage) => EscrowRuns.FreshInv(amount, hasPreimage);
        case On(i, a) => StepKeepsInv(w[i], a);
      }
      AllInvAfter(Next(w, moves[0]), moves[1..]);
    }
  }

  // ---------- the books ----------

  /** Sats paid out or possibly on their way. */
  function PaidOut(payouts: seq<Payout>): nat {
    if payouts == [] then 0
    else (if payouts[0].verdict == Failed then 0 else payouts[0].sats) + PaidOut(payouts[1..])
  }

  function Income(s: Deal): nat {
    if s.hold == Settled then s.amount else 0
  }

  function TotalIncome(w: World): nat {
    if w == [] then 0 else Income(w[0]) + TotalIncome(w[1..])
  }

  function TotalPaidOut(w: World): nat {
    if w == [] then 0 else PaidOut(w[0].payouts) + TotalPaidOut(w[1..])
  }

  function LiveCount(payouts: seq<Payout>): nat {
    if payouts == [] then 0 else (if payouts[0].verdict == Failed then 0 else 1) + LiveCount(payouts[1..])
  }

  function TotalLive(w: World): nat {
    if w == [] then 0 else LiveCount(w[0].payouts) + TotalLive(w[1..])
  }

  function SettledHolds(w: World): nat {
    if w == [] then 0 else (if w[0].hold == Settled then 1 else 0) + SettledHolds(w[1..])
  }

  ghost predicate OneLiveAtMost(payouts: seq<Payout>) {
    forall p: nat, q: nat :: p < q < |payouts| ==> payouts[p].verdict == Failed || payouts[q].verdict == Failed
  }

  lemma {:induction false} OneLiveBoundsPay(payouts: seq<Payout>, amount: nat)
    requires OneLiveAtMost(payouts)
    requires forall p: nat :: p < |payouts| ==> payouts[p].sats <= amount
    ensures PaidOut(payouts) <= amount
    ensures LiveCount(payouts) <= 1
    ensures (forall p: nat :: p < |payouts| ==> payouts[p].verdict == Failed)
            ==> PaidOut(payouts) == 0 && LiveCount(payouts) == 0
  {
    if payouts != [] {
      var rest := payouts[1..];
      forall p: nat, q: nat | p < q < |rest|
        ensures rest[p].verdict == Failed || rest[q].verdict == Failed
      {
        assert payouts[p + 1].verdict == Failed || payouts[q + 1].verdict == Failed;
      }
      OneLiveBoundsPay(rest, amount);
      if payouts[0].verdict != Failed {
        forall p: nat | p < |rest| ensures rest[p].verdict == Failed {
          assert payouts[p + 1].verdict == Failed;
        }
      }
    }
  }

  lemma DealIsSolvent(s: Deal)
    requires Inv(s)
    ensures PaidOut(s.payouts) <= Income(s)
    ensures LiveCount(s.payouts) <= if s.hold == Settled then 1 else 0
  {
    forall p: nat, q: nat | p < q < |s.payouts|
      ensures s.payouts[p].verdict == Failed || s.payouts[q].verdict == Failed
    {
      assert !(Live(s, p) && Live(s, q));
    }
    OneLiveBoundsPay(s.payouts, s.amount);
  }

  lemma {:induction false} SumsAreSolvent(w: World)
    requires AllInv(w)
    ensures TotalPaidOut(w) <= TotalIncome(w)
    ensures TotalLive(w) <= SettledHolds(w)
  {
    if w != [] {
      DealIsSolvent(w[0]);
      assert AllInv(w[1..]);
      SumsAreSolvent(w[1..]);
    }
  }

  /** In every history of any number of deals, live payouts never outnumber settled holds, and
      when no payee invoice exceeds its deal's amount the wallet's balance never goes negative. */
  lemma NeverInsolvent(moves: seq<Move>)
    requires Happens([], moves)
    ensures TotalPaidOut(After([], moves)) <= TotalIncome(After([], moves))
    ensures TotalLive(After([], moves)) <= SettledHolds(After([], moves))
  {
    AllInvAfter([], moves);
    SumsAreSolvent(After([], moves));
  }
}
