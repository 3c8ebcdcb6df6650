/**
 The settlement decision: services/settlement-worker/src/decision-engine.ts, and the Base status it is
 fed, services/settlement-worker/src/settlement-loop.ts.

 `Decisions` says for every snapshot which action is taken; `DepositIsPaid` says what an escrow event
 log must hold for the Base status to be `deposited`.
 */
module Settlement {
  import opened Wrappers
  import opened TradeStates
  import UsdcEvents

  datatype PearlStatus = Missing | Seen | Confirmed | Late | AmountMismatch | Reorged | Released | Refunded | UnknownSpend
  datatype BaseStatus = NoEscrow | Created | Deposited | Released | Refunded | Cancelled | Reorged | Stale

  datatype Pearl = Pearl(
    status: PearlStatus, sourceEventId: string, txid: Option<string>, outpoint: Option<string>, confirmations: int, observedAt: int)
  datatype Base = Base(status: BaseStatus, sourceEventId: string, txHash: Option<string>, confirmations: int, observedAt: int)
  datatype Observation = Observation(pearl: Pearl, base: Base)

  /** Instants in milliseconds. */
  datatype Deadlines = Deadlines(
    quoteExpiresAt: int, pearlFundingDeadline: int, usdcDepositDeadline: int, settlementDeadline: int, refundAvailableAt: int)

  datatype EscrowMode = Coordinator | Multisig
  datatype SigningMode = PreauthorizeRelease | ManualAfterBaseDeposit
  datatype Presignature = Presignature(revoked: bool)

  datatype Trade = Trade(
    tradeId: string, state: TradeState, deadlines: Deadlines, pearlConfirmations: int, baseConfirmations: int,
    escrowMode: Option<EscrowMode>, signingMode: Option<SigningMode>, presignature: Option<Presignature>)

  datatype Action =
    | Wait | ManualReview | PreparePrlRelease | PreparePrlRefund | PrepareUsdcRelease | MarkReleased | MarkRefunded

  predicate ReviewState(s: TradeState) {
    s.LatePrlFunding? || s.UsdcRefunded? || s.PrlReleaseFailed? || s.AmountMismatch? || s.Reorged? || s.StaleIndexer? || s.UnknownSpend?
  }

  predicate PearlFunded(p: Pearl) {
    p.status.Seen? || p.status.Confirmed?
  }

  predicate BaseEmpty(b: Base) {
    b.status.NoEscrow? || b.status.Created? || b.status.Cancelled?
  }

  /** `getManualReviewReason` gives a reason. */
  predicate NeedsManualReview(t: Trade, o: Observation) {
    if ReviewState(t.state) then true
    else if o.pearl.status.AmountMismatch? || o.pearl.status.Reorged? || o.pearl.status.UnknownSpend? || o.pearl.status.Late? then true
    else if PearlFunded(o.pearl) && o.pearl.observedAt > t.deadlines.pearlFundingDeadline then true
    else if o.base.status.Reorged? || o.base.status.Stale? then true
    else if o.base.status.Released? && !o.pearl.status.Released? then true
    else if o.base.status.Refunded? && !(o.pearl.status.Refunded? || o.pearl.status.Missing?) then true
    else o.pearl.status.Released? && o.base.status.Refunded?
  }

  predicate AutoReleaseAuthorized(t: Trade) {
    t.escrowMode == Some(Multisig) ==>
      t.signingMode == Some(PreauthorizeRelease) && t.presignature.Some? && !t.presignature.value.revoked
  }

  predicate PrlReleaseAllowed(t: Trade, o: Observation) {
    && t.state.UsdcEscrowConfirmed?
    && o.pearl.status.Confirmed? && o.base.status.Deposited?
    && o.pearl.confirmations >= t.pearlConfirmations && o.base.confirmations >= t.baseConfirmations
    && o.pearl.observedAt <= t.deadlines.pearlFundingDeadline
    && AutoReleaseAuthorized(t)
  }

  function Decide(t: Trade, o: Observation, now: int): Action {
    if NeedsManualReview(t, o) then ManualReview
    else if IsTerminal(t.state) then Wait
    else if o.pearl.status.Released? && o.base.status.Deposited? then PrepareUsdcRelease
    else if o.pearl.status.Released? && o.base.status.Released? then MarkReleased
    else if o.pearl.status.Refunded? then MarkRefunded
    else if PrlReleaseAllowed(t, o) then PreparePrlRelease
    else if PearlFunded(o.pearl) && BaseEmpty(o.base) && now >= t.deadlines.refundAvailableAt then PreparePrlRefund
    else Wait
  }

  /** Neither branch order nor the checks before them narrow the preparing actions any further than this. */
  lemma Decisions(t: Trade, o: Observation, now: int)
    ensures Decide(t, o, now).PreparePrlRelease? <==> PrlReleaseAllowed(t, o)
    ensures Decide(t, o, now).PreparePrlRefund? <==>
      && PearlFunded(o.pearl) && BaseEmpty(o.base) && t.deadlines.refundAvailableAt <= now
      && o.pearl.observedAt <= t.deadlines.pearlFundingDeadline
      && !ReviewState(t.state) && !IsTerminal(t.state)
    ensures Decide(t, o, now).PrepareUsdcRelease? <==>
      o.pearl.status.Released? && o.base.status.Deposited? && !ReviewState(t.state) && !IsTerminal(t.state)
    ensures Decide(t, o, now).MarkReleased? <==>
      o.pearl.status.Released? && o.base.status.Released? && !ReviewState(t.state) && !IsTerminal(t.state)
  {
    TerminalStates(t.state);
  }

  // ---- The Base status ----

  datatype UsdcTerms = UsdcTerms(
    tradeKey: string, chainId: int, contract: string, expectedAmountMicros: string, amountMicros: string, feeMicros: string,
    expiresAt: int, buyer: string, seller: string)

  predicate Absent(s: Option<string>) {
    s.GetOr("") == ""
  }

  /** `findBaseEscrowStateMismatch` gives a reason. */
  predicate Mismatch(s: UsdcEvents.TradeState, t: UsdcTerms) {
    var funded := s.status.Deposited? || s.status.Released? || s.status.Refunded?;
    if s.tradeKey != t.tradeKey then true
    else if s.chainId != t.chainId then true
    else if Lower(s.contractAddress) != Lower(t.contract) then true
    else if (s.status.TradeCreated? || funded)
            && (Absent(s.buyer) || Absent(s.seller) || s.feeMicros.None? || s.expiryUnixSeconds.None?) then true
    else if !Absent(s.buyer) && Lower(s.buyer.value) != Lower(t.buyer) then true
    else if !Absent(s.seller) && Lower(s.seller.value) != Lower(t.seller) then true
    else if s.expiryUnixSeconds.Some? && s.expiryUnixSeconds.value != t.expiresAt then true
    else if s.status.TradeCreated? && (s.amountMicros != Some(t.amountMicros) || s.feeMicros != Some(t.feeMicros)) then true
    else if s.feeMicros.Some? && s.feeMicros.value != t.feeMicros then true
    else if funded && s.amountMicros != Some(t.expectedAmountMicros) then true
    else s.status.Released? && (s.sellerAmountMicros != Some(t.amountMicros) || s.feeAmountMicros != Some(t.feeMicros))
  }

  /** `baseEscrowEventStateFromUsdcTradeState` for a trade. */
  function BaseStatusOf(state: Option<UsdcEvents.TradeState>, t: UsdcTerms): BaseStatus {
    if state.None? then NoEscrow
    else if Mismatch(state.value, t) then Stale
    else
      match state.value.status
      case TradeCreated => BaseStatus.Created
      case Deposited => BaseStatus.Deposited
      case Released => BaseStatus.Released
      case Refunded => BaseStatus.Refunded
      case Cancelled => BaseStatus.Cancelled
  }

  predicate Named(name: Option<string>, agreed: string) {
    name.Some? && name.value != "" && Lower(name.value) == Lower(agreed)
  }

  /** The escrow is this trade's, on the agreed contract and terms, as far as its status says them. */
  predicate OnTerms(s: UsdcEvents.TradeState, t: UsdcTerms) {
    && s.tradeKey == t.tradeKey && s.chainId == t.chainId && Lower(s.contractAddress) == Lower(t.contract)
    && match s.status
       case Cancelled =>
         && (s.buyer.GetOr("") == "" || Named(s.buyer, t.buyer)) && (s.seller.GetOr("") == "" || Named(s.seller, t.seller))
         && (s.expiryUnixSeconds.None? || s.expiryUnixSeconds.value == t.expiresAt)
         && (s.feeMicros.None? || s.feeMicros.value == t.feeMicros)
       case TradeCreated => PartiesAgreed(s, t) && s.amountMicros == Some(t.amountMicros)
       case Released =>
         && PartiesAgreed(s, t) && s.amountMicros == Some(t.expectedAmountMicros)
         && s.sellerAmountMicros == Some(t.amountMicros) && s.feeAmountMicros == Some(t.feeMicros)
       case _ => PartiesAgreed(s, t) && s.amountMicros == Some(t.expectedAmountMicros)
  }

  predicate PartiesAgreed(s: UsdcEvents.TradeState, t: UsdcTerms) {
    && Named(s.buyer, t.buyer) && Named(s.seller, t.seller)
    && s.expiryUnixSeconds == Some(t.expiresAt) && s.feeMicros == Some(t.feeMicros)
  }

  /** The Base status is the escrow's own exactly on the agreed terms; off them it is stale, and without an escrow none. */
  lemma BaseStatusIff(state: Option<UsdcEvents.TradeState>, t: UsdcTerms)
    ensures BaseStatusOf(state, t) == NoEscrow <==> state.None?
    ensures BaseStatusOf(state, t) == Stale <==> state.Some? && !OnTerms(state.value, t)
    ensures BaseStatusOf(state, t) == BaseStatus.Created <==> state.Some? && OnTerms(state.value, t) && state.value.status == UsdcEvents.TradeCreated
    ensures BaseStatusOf(state, t) == BaseStatus.Deposited <==> state.Some? && OnTerms(state.value, t) && state.value.status == UsdcEvents.Deposited
    ensures BaseStatusOf(state, t) == BaseStatus.Released <==> state.Some? && OnTerms(state.value, t) && state.value.status == UsdcEvents.Released
    ensures BaseStatusOf(state, t) == BaseStatus.Refunded <==> state.Some? && OnTerms(state.value, t) && state.value.status == UsdcEvents.Refunded
    ensures BaseStatusOf(state, t) == BaseStatus.Cancelled <==> state.Some? && OnTerms(state.value, t) && state.value.status == UsdcEvents.Cancelled
  {
    hide Lower;
  }

  lemma {:induction false} LatestIsReported<T>(events: seq<UsdcEvents.TradeEvent>, field: UsdcEvents.TradeEvent -> Option<T>, v: T)
    requires UsdcEvents.Latest(events, field) == Some(v)
    ensures exists e :: e in events && field(e) == Some(v)
  {
    var n := |events| - 1;
    if field(events[n]).Some? {
      assert events[n] in events;
    } else {
      LatestIsReported(events[..n], field, v);
    }
  }

  /** The Base status is `deposited` only if the trade's last event is a deposit of the expected amount, and the log
      holds a creation with the agreed fee, one with the agreed expiry, and events naming the buyer and the seller. */
  lemma DepositIsPaid(sorted: seq<UsdcEvents.TradeEvent>, t: UsdcTerms)
    requires sorted != [] && UsdcEvents.FoldTrade(sorted).Ok?
    requires BaseStatusOf(UsdcEvents.FoldTrade(sorted).value, t).Deposited?
    ensures var last := sorted[|sorted| - 1];
      last.detail.DepositedDetail? && last.detail.amountMicros == t.expectedAmountMicros
      && last.chainId == t.chainId && last.tradeKey == t.tradeKey && Lower(last.contractAddress) == Lower(t.contract)
    ensures exists e :: e in sorted && e.detail.CreatedDetail? && e.detail.feeMicros == t.feeMicros
    ensures exists e :: e in sorted && e.detail.CreatedDetail? && e.detail.expiryUnixSeconds == t.expiresAt
    ensures exists e :: e in sorted && UsdcEvents.Buyer(e).Some? && Lower(UsdcEvents.Buyer(e).value) == Lower(t.buyer)
    ensures exists e :: e in sorted && UsdcEvents.Seller(e).Some? && Lower(UsdcEvents.Seller(e).value) == Lower(t.seller)
  {
    hide UsdcEvents.FoldTrade;
    UsdcEvents.FieldsAreLatest(sorted);
    var s := UsdcEvents.FoldTrade(sorted).value.value;
    LatestIsReported(sorted, UsdcEvents.Fee, t.feeMicros);
    LatestIsReported(sorted, UsdcEvents.Expiry, t.expiresAt);
    LatestIsReported(sorted, UsdcEvents.Buyer, s.buyer.value);
    LatestIsReported(sorted, UsdcEvents.Seller, s.seller.value);
  }
}
