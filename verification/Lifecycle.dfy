/** The payment state machine (ml-core: state). */
module Lifecycle {
  import opened Prelude

  datatype PaymentState =
    | Authorized
    | Paid
    | Settled
    | SettlementFailed
    | Compensated
    | Delivered
    | Expired

  predicate CanTransition(from: PaymentState, to: PaymentState) {
    match from
    case Authorized => to.Paid? || to.Expired?
    case Paid => to.Settled? || to.SettlementFailed?
    case SettlementFailed => to.Compensated?
    case Settled => to.Delivered?
    case _ => false
  }

  predicate IsTerminal(s: PaymentState) {
    s.Compensated? || s.Delivered? || s.Expired?
  }

  /** The states whose amount still counts against the mandate's budget. */
  predicate IsLive(s: PaymentState) {
    s.Authorized? || s.Paid? || s.Settled? || s.Delivered?
  }

  /** A whole life so far: starts authorized and takes only permitted steps. */
  predicate Path(states: seq<PaymentState>) {
    && (states != [] ==> states[0] == Authorized)
    && forall i :: 0 <= i < |states| - 1 ==> CanTransition(states[i], states[i + 1])
  }

  const DELIVERY: seq<PaymentState> := [Authorized, Paid, Settled, Delivered]
  const FAILURE: seq<PaymentState> := [Authorized, Paid, SettlementFailed, Compensated]
  const LAPSE: seq<PaymentState> := [Authorized, Expired]

  lemma PathSnoc(states: seq<PaymentState>, next: PaymentState)
    requires Path(states)
    requires if states == [] then next == Authorized else CanTransition(Last(states), next)
    ensures Path(states + [next])
  {
  }

  /** There are only three lives, and a terminal state is the end of one. */
  lemma PathShapes(states: seq<PaymentState>)
    ensures Path(states) <==> states <= DELIVERY || states <= FAILURE || states <= LAPSE
    ensures Path(states) ==> |states| <= 4
  {
    if Path(states) {
      assert |states| > 1 ==> CanTransition(states[0], states[1]);
      assert |states| > 2 ==> CanTransition(states[1], states[2]);
      assert |states| > 3 ==> CanTransition(states[2], states[3]);
      assert |states| > 4 ==> CanTransition(states[3], states[4]);
    }
  }
}
