/**
 The trade transition table: `ALLOWED_TRANSITIONS` in packages/pearl-sdk/src/otc.ts.

 `CommittedIsClosed`: once a PRL release or refund is under way, no allowed transition leads back to
 the one state from which a release is decided.
 */
module TradeStates {

  datatype TradeState =
    | Quoted | QuoteExpired
    | PearlEscrowPending | PearlEscrowSeen | PearlEscrowConfirmed
    | UsdcEscrowPending | UsdcEscrowConfirmed
    | ReleasePending | Released
    | RefundAvailable | RefundPending | Refunded
    | Disputed | Cancelled | FailedManualReview
    | LatePrlFunding | UsdcRefunded | PrlReleaseFailed
    | AmountMismatch | Reorged | StaleIndexer | UnknownSpend

  const EDGE_REVIEW_STATES := {AmountMismatch, Reorged, StaleIndexer, UnknownSpend}

  function AllowedTransitions(from: TradeState): set<TradeState> {
    match from
    case Quoted => {QuoteExpired, PearlEscrowPending, Cancelled, Disputed, FailedManualReview}
    case PearlEscrowPending => {PearlEscrowSeen, LatePrlFunding, Cancelled, Disputed, FailedManualReview} + EDGE_REVIEW_STATES
    case PearlEscrowSeen =>
      {PearlEscrowConfirmed, PearlEscrowPending, LatePrlFunding, Disputed, FailedManualReview} + EDGE_REVIEW_STATES
    case PearlEscrowConfirmed => {UsdcEscrowPending, RefundAvailable, Disputed, FailedManualReview} + EDGE_REVIEW_STATES
    case UsdcEscrowPending => {UsdcEscrowConfirmed, RefundAvailable, UsdcRefunded, Disputed, FailedManualReview} + EDGE_REVIEW_STATES
    case UsdcEscrowConfirmed => {ReleasePending, UsdcRefunded, Disputed, FailedManualReview} + EDGE_REVIEW_STATES
    case ReleasePending => {Released, PrlReleaseFailed, Disputed, FailedManualReview} + EDGE_REVIEW_STATES
    case RefundAvailable => {RefundPending, UsdcRefunded, Disputed, FailedManualReview}
    case RefundPending => {Refunded, UsdcRefunded, Disputed, FailedManualReview}
    case Disputed => {ReleasePending, RefundAvailable, FailedManualReview}
    case LatePrlFunding => {FailedManualReview}
    case UsdcRefunded => {FailedManualReview}
    case PrlReleaseFailed => {FailedManualReview}
    case AmountMismatch => {FailedManualReview}
    case Reorged => {FailedManualReview}
    case StaleIndexer => {FailedManualReview}
    case UnknownSpend => {FailedManualReview}
    case _ => {}
  }

  predicate IsTerminal(s: TradeState) {
    |AllowedTransitions(s)| == 0
  }

  lemma TerminalStates(s: TradeState)
    ensures IsTerminal(s) <==> s in {QuoteExpired, Released, Refunded, Cancelled, FailedManualReview}
  {
    if s !in {QuoteExpired, Released, Refunded, Cancelled, FailedManualReview} {
      assert Disputed in AllowedTransitions(s) || FailedManualReview in AllowedTransitions(s);
    }
  }

  /** An escrow is being funded, is funded or is being released. */
  predicate InEscrow(s: TradeState) {
    s.PearlEscrowPending? || s.PearlEscrowSeen? || s.PearlEscrowConfirmed? || s.UsdcEscrowPending? || s.UsdcEscrowConfirmed? || s.ReleasePending?
  }

  predicate InRefund(s: TradeState) {
    s.RefundAvailable? || s.RefundPending?
  }

  /** The trade waits for a person to look at it. */
  predicate OnHold(s: TradeState) {
    s.LatePrlFunding? || s.UsdcRefunded? || s.PrlReleaseFailed? || s.AmountMismatch? || s.Reorged? || s.StaleIndexer? || s.UnknownSpend?
  }

  /** The table turned around: whether a state may be entered from another. */
  predicate EnteredFrom(to: TradeState, from: TradeState) {
    match to
    case Quoted => false
    case QuoteExpired => from.Quoted?
    case PearlEscrowPending => from.Quoted? || from.PearlEscrowSeen?
    case PearlEscrowSeen => from.PearlEscrowPending?
    case PearlEscrowConfirmed => from.PearlEscrowSeen?
    case UsdcEscrowPending => from.PearlEscrowConfirmed?
    case UsdcEscrowConfirmed => from.UsdcEscrowPending?
    case ReleasePending => from.UsdcEscrowConfirmed? || from.Disputed?
    case Released => from.ReleasePending?
    case RefundAvailable => from.PearlEscrowConfirmed? || from.UsdcEscrowPending? || from.Disputed?
    case RefundPending => from.RefundAvailable?
    case Refunded => from.RefundPending?
    case Disputed => from.Quoted? || InEscrow(from) || InRefund(from)
    case Cancelled => from.Quoted? || from.PearlEscrowPending?
    case FailedManualReview => from.Quoted? || InEscrow(from) || InRefund(from) || from.Disputed? || OnHold(from)
    case LatePrlFunding => from.PearlEscrowPending? || from.PearlEscrowSeen?
    case UsdcRefunded => from.UsdcEscrowPending? || from.UsdcEscrowConfirmed? || InRefund(from)
    case PrlReleaseFailed => from.ReleasePending?
    case _ => InEscrow(from)
  }

  lemma QuotedEntered(from: TradeState, to: TradeState)
    requires from.Quoted?
    ensures to in AllowedTransitions(from) <==> EnteredFrom(to, from)
  {
  }

  lemma FundingEntered(from: TradeState, to: TradeState)
    requires from.PearlEscrowPending? || from.PearlEscrowSeen?
    ensures to in AllowedTransitions(from) <==> EnteredFrom(to, from)
  {
  }

  lemma FundedEntered(from: TradeState, to: TradeState)
    requires from.PearlEscrowConfirmed? || from.UsdcEscrowPending?
    ensures to in AllowedTransitions(from) <==> EnteredFrom(to, from)
  {
  }

  lemma ReleaseEntered(from: TradeState, to: TradeState)
    requires from.UsdcEscrowConfirmed? || from.ReleasePending?
    ensures to in AllowedTransitions(from) <==> EnteredFrom(to, from)
  {
  }

  lemma RefundEntered(from: TradeState, to: TradeState)
    requires InRefund(from) || from.Disputed?
    ensures to in AllowedTransitions(from) <==> EnteredFrom(to, from)
  {
  }

  lemma LastEntered(from: TradeState, to: TradeState)
    requires !from.Quoted? && !InEscrow(from) && !InRefund(from) && !from.Disputed?
    ensures to in AllowedTransitions(from) <==> EnteredFrom(to, from)
  {
  }

  /** A transition is allowed exactly when its target may be entered from its source. */
  lemma AllowedIffEntered(from: TradeState, to: TradeState)
    ensures to in AllowedTransitions(from) <==> EnteredFrom(to, from)
  {
    hide AllowedTransitions, EnteredFrom;
    if from.Quoted? {
      QuotedEntered(from, to);
    } else if from.PearlEscrowPending? || from.PearlEscrowSeen? {
      FundingEntered(from, to);
    } else if from.PearlEscrowConfirmed? || from.UsdcEscrowPending? {
      FundedEntered(from, to);
    } else if InEscrow(from) {
      ReleaseEntered(from, to);
    } else if InRefund(from) || from.Disputed? {
      RefundEntered(from, to);
    } else {
      LastEntered(from, to);
    }
  }

  ghost predicate Reaches(from: TradeState, to: TradeState, steps: nat)
    decreases steps
  {
    if steps == 0 then from == to else exists mid :: mid in AllowedTransitions(from) && Reaches(mid, to, steps - 1)
  }

  /** The states from which no chain of allowed transitions reaches `UsdcEscrowConfirmed`. */
  predicate Committed(s: TradeState) {
    !(s.Quoted? || s.PearlEscrowPending? || s.PearlEscrowSeen? || s.PearlEscrowConfirmed? || s.UsdcEscrowPending? || s.UsdcEscrowConfirmed?)
  }

  lemma CommittedStep(from: TradeState, to: TradeState)
    requires Committed(from) && to in AllowedTransitions(from)
    ensures Committed(to)
  {
  }

  lemma {:induction false} CommittedStays(from: TradeState, to: TradeState, steps: nat)
    requires Committed(from) && Reaches(from, to, steps)
    ensures Committed(to)
    decreases steps
  {
    if steps > 0 {
      var mid :| mid in AllowedTransitions(from) && Reaches(mid, to, steps - 1);
      CommittedStep(from, mid);
      CommittedStays(mid, to, steps - 1);
    }
  }

  lemma Via(from: TradeState, mid: TradeState, steps: nat)
    requires mid in AllowedTransitions(from) && Reaches(mid, UsdcEscrowConfirmed, steps)
    ensures Reaches(from, UsdcEscrowConfirmed, steps + 1)
  {
  }

  lemma Already()
    ensures Reaches(UsdcEscrowConfirmed, UsdcEscrowConfirmed, 0)
  {
  }

  lemma StepsToConfirmed(s: TradeState) returns (steps: nat)
    requires !Committed(s)
    ensures Reaches(s, UsdcEscrowConfirmed, steps)
  {
    hide Reaches;
    Already();
    Via(UsdcEscrowPending, UsdcEscrowConfirmed, 0);
    Via(PearlEscrowConfirmed, UsdcEscrowPending, 1);
    Via(PearlEscrowSeen, PearlEscrowConfirmed, 2);
    Via(PearlEscrowPending, PearlEscrowSeen, 3);
    Via(Quoted, PearlEscrowPending, 4);
    steps := if s.UsdcEscrowConfirmed? then 0 else if s.UsdcEscrowPending? then 1 else if s.PearlEscrowConfirmed? then 2
    else if s.PearlEscrowSeen? then 3 else if s.PearlEscrowPending? then 4 else 5;
  }

  /** A state is committed exactly when `UsdcEscrowConfirmed` is out of its reach. */
  lemma CommittedIsClosed(s: TradeState)
    ensures Committed(s) <==> forall steps :: !Reaches(s, UsdcEscrowConfirmed, steps)
  {
    hide Reaches;
    if Committed(s) {
      forall steps
        ensures !Reaches(s, UsdcEscrowConfirmed, steps)
      {
        if Reaches(s, UsdcEscrowConfirmed, steps) {
          CommittedStays(s, UsdcEscrowConfirmed, steps);
        }
      }
    } else {
      var steps := StepsToConfirmed(s);
    }
  }
}
