/**
 The order, quote, trade and sweep tables of the OTC desk: `InMemoryOtcRepository` in
 services/otc-api/src/repository.ts, and the calls of services/otc-api/src/trade-service.ts that fill
 and fund an order.  Stable ids are the tuples they hash; grains in base units are numbers.
 */
module Orders {
  import opened Wrappers
  import opened Amounts
  import Quotes

  datatype Side = BuyPrl | SellPrl
  datatype OrderStatus = Open | PartiallyFilled | Filled | Cancelled | Expired
  datatype PrefundMode = AutoSweep | ManualConfirm
  datatype PrefundState =
    | NoPrefund | PendingAllocation | PendingFunding | Funded | PartiallySwept | FullySwept | RefundPending | Refunded | FundingExpired

  datatype Order = Order(
    makerUserId: string, side: Side, makerPearlAddress: string, makerUsdcAddress: string,
    amountPrl: string, remainingPrl: string, priceUsdcPerPrl: string, minFillPrl: Option<string>,
    status: OrderStatus, expiresAt: Option<int>,
    prefundMode: Option<PrefundMode>, prefundState: PrefundState, fundedOutpoint: Option<string>,
    fundedGrains: nat, remainingGrains: nat, refundAfter: Option<int>, refundTxid: Option<string>)

  datatype SweepStatus = SweepPending | AwaitingMakerSignature
  datatype Sweep = Sweep(orderId: string, tradeId: string, inputOutpoint: string, sweptGrains: nat, status: SweepStatus)

  datatype QuoteRequest = QuoteRequest(
    side: Side, amountPrl: string, buyerPearlAddress: string, usdcRefundAddress: string, clientRequestId: string)
  datatype QuoteId = QuoteId(clientRequestId: string, side: Side, amountPrl: string)
  datatype Quote = Quote(side: Side, amounts: Quotes.QuoteAmounts, expiresAt: int)
  datatype Link = Link(orderId: string, amountPrl: string, takerUserId: string)

  datatype TradeId = TradeId(quoteId: QuoteId, clientRequestId: string)
  datatype Trade = Trade(quoteId: QuoteId, amountPrl: string)

  datatype Store = Store(
    orders: map<string, Order>,
    quotes: map<QuoteId, Quote>, quoteRequests: map<string, (QuoteId, QuoteRequest)>, links: map<QuoteId, Link>,
    trades: map<TradeId, Trade>, tradeByQuote: map<QuoteId, TradeId>, tradeRequests: map<string, (TradeId, string)>,
    sweeps: map<string, Sweep>, sweepByTrade: map<string, string>)

  const EMPTY := Store(map[], map[], map[], map[], map[], map[], map[], map[], map[])

  // ---- Order fills ----

  /** `reserveOrderFill`. */
  function ReserveOrderFill(orders: map<string, Order>, orderId: string, amountPrl: string): Result<map<string, Order>> {
    if orderId !in orders then Thrown
    else
      var order := orders[orderId];
      if !order.status.Open? && !order.status.PartiallyFilled? then Thrown
      else
        var remaining, fill := RepoParse(order.remainingPrl, 8), RepoParse(amountPrl, 8);
        if remaining.Thrown? || fill.Thrown? || remaining.value < fill.value then Thrown
        else
          var next := remaining.value - fill.value;
          Ok(orders[orderId := order.(
                 remainingPrl := RepoFormat(next, 8), status := if next == 0 then Filled else PartiallyFilled)])
  }

  /** `assertOrderFillable` passes. */
  predicate Fillable(order: Order, amountPrl: string, now: int) {
    var fill, remaining := ParseDecimalToUnits(amountPrl, 8), ParseDecimalToUnits(order.remainingPrl, 8);
    && (order.status.Open? || order.status.PartiallyFilled?)
    && !(order.expiresAt.Some? && order.expiresAt.value <= now)
    && fill.Ok? && remaining.Ok? && fill.value <= remaining.value
    && (order.minFillPrl.Some? ==>
          ParseDecimalToUnits(order.minFillPrl.value, 8).Ok? && ParseDecimalToUnits(order.minFillPrl.value, 8).value <= fill.value)
  }

  predicate PositiveAmount(amountPrl: string) {
    ParseDecimalToUnits(amountPrl, 8).Ok? && ParseDecimalToUnits(amountPrl, 8).value > 0
  }

  /** The order as `createOrder` first stores it; an empty minimum is none. */
  function NewOrder(draft: Order): Order {
    draft.(
      makerPearlAddress := Trim(draft.makerPearlAddress),
      amountPrl := Trim(draft.amountPrl), remainingPrl := Trim(draft.amountPrl), priceUsdcPerPrl := Trim(draft.priceUsdcPerPrl),
      minFillPrl := if draft.minFillPrl.GetOr("") != "" then Some(Trim(draft.minFillPrl.value)) else None, status := Open,
      prefundState := if draft.prefundMode.Some? then PendingFunding else NoPrefund,
      refundAfter := if draft.prefundMode.Some? then draft.refundAfter else None,
      fundedOutpoint := None, fundedGrains := 0, remainingGrains := 0, refundTxid := None)
  }

  /** `createOrder`; `admitted` stands for its other checks. */
  function CreateOrder(st: Store, orderId: string, draft: Order, admitted: bool): Result<Store> {
    if !admitted || !PositiveAmount(draft.amountPrl) || (draft.minFillPrl.GetOr("") != "" && !PositiveAmount(draft.minFillPrl.value))
       || (draft.prefundMode.Some? && !draft.side.SellPrl?) then Thrown
    else Ok(st.(orders := st.orders[orderId := NewOrder(draft)]))
  }

  datatype Terms = Terms(feeBps: nat, quoteTtl: int)

  /** `createQuoteWithPrice`. */
  function QuoteWithPrice(st: Store, request: QuoteRequest, price: string, terms: Terms, now: int): Result<(Store, QuoteId)> {
    if request.clientRequestId in st.quoteRequests then
      var (quoteId, first) := st.quoteRequests[request.clientRequestId];
      if first == request then Ok((st, quoteId)) else Thrown
    else
      match Quotes.CalculateQuoteAmounts(request.amountPrl, price, terms.feeBps)
      case Thrown => Thrown
      case Ok(amounts) =>
        var quoteId := QuoteId(request.clientRequestId, request.side, amounts.amountPrl);
        Ok((st.(quotes := st.quotes[quoteId := Quote(request.side, amounts, now + terms.quoteTtl)],
                quoteRequests := st.quoteRequests[request.clientRequestId := (quoteId, request)]), quoteId))
  }

  /** `createQuote`, at the desk's own price. */
  function CreateQuote(st: Store, request: QuoteRequest, deskPrice: string, terms: Terms, now: int, admitted: bool): Result<Store> {
    if !admitted || !PositiveAmount(request.amountPrl) then Thrown
    else
      match QuoteWithPrice(st, request, deskPrice, terms, now)
      case Thrown => Thrown
      case Ok((st', _)) => Ok(st')
  }

  datatype Take = Take(orderId: string, amountPrl: string, takerUserId: string, pearlAddress: string, usdcAddress: string, clientRequestId: string)

  /** The quote a taker asks for on an order; a buying maker is the quote's buyer. */
  function TakeRequest(order: Order, take: Take): QuoteRequest {
    QuoteRequest(
      order.side, Trim(take.amountPrl),
      if order.side.BuyPrl? then order.makerPearlAddress else take.pearlAddress,
      if order.side.BuyPrl? then order.makerUsdcAddress else take.usdcAddress, take.clientRequestId)
  }

  /** `createOrderQuote`. */
  function CreateOrderQuote(st: Store, take: Take, terms: Terms, now: int, admitted: bool): Result<Store> {
    if !admitted || !PositiveAmount(take.amountPrl) || take.orderId !in st.orders then Thrown
    else
      var order := st.orders[take.orderId];
      if !Fillable(order, take.amountPrl, now) || order.makerUserId == take.takerUserId then Thrown
      else
        match QuoteWithPrice(st, TakeRequest(order, take), order.priceUsdcPerPrl, terms, now)
        case Thrown => Thrown
        case Ok((st', quoteId)) =>
          if quoteId !in st'.quotes then Thrown
          else Ok(st'.(links := st'.links[quoteId := Link(take.orderId, st'.quotes[quoteId].amounts.amountPrl, take.takerUserId)]))
  }

  datatype Accept = Accept(quoteId: QuoteId, clientRequestId: string, details: string)

  /** The fill an accepted quote reserves. */
  datatype Fill = Fill(orderId: string, tradeId: TradeId, grains: nat)

  function SaveAcceptedTrade(st: Store, a: Accept, orders: map<string, Order>): Store
    requires a.quoteId in st.quotes
  {
    var tradeId := TradeId(a.quoteId, a.clientRequestId);
    st.(orders := orders,
        trades := st.trades[tradeId := Trade(a.quoteId, st.quotes[a.quoteId].amounts.amountPrl)],
        tradeByQuote := st.tradeByQuote[a.quoteId := tradeId],
        tradeRequests := st.tradeRequests[a.clientRequestId := (tradeId, a.details)])
  }

  /** `acceptQuote`; the fill is reported with the new store.  The request hash covers the quote id. */
  function AcceptQuote(st: Store, a: Accept, now: int, admitted: bool): Result<(Store, Option<Fill>)> {
    if a.clientRequestId in st.tradeRequests then
      var (tradeId, details) := st.tradeRequests[a.clientRequestId];
      if tradeId.quoteId == a.quoteId && details == a.details then Ok((st, None)) else Thrown
    else if a.quoteId !in st.quotes || st.quotes[a.quoteId].expiresAt <= now || a.quoteId in st.tradeByQuote then Thrown
    else if a.quoteId !in st.links then
      if admitted then Ok((SaveAcceptedTrade(st, a, st.orders), None)) else Thrown
    else
      var link := st.links[a.quoteId];
      if link.orderId !in st.orders || !Fillable(st.orders[link.orderId], link.amountPrl, now) || !admitted then Thrown
      else
        match ReserveOrderFill(st.orders, link.orderId, link.amountPrl)
        case Thrown => Thrown
        case Ok(orders) =>
          var fill := RepoParse(link.amountPrl, 8);
          Ok((SaveAcceptedTrade(st, a, orders),
              Some(Fill(link.orderId, TradeId(a.quoteId, a.clientRequestId), if fill.Ok? then fill.value else 0))))
  }

  // ---- Prefunding ----

  /** What the indexer reports of the funding; `Blank` is the empty string. */
  datatype Reported = Unreported | Blank | Grains(amount: nat)
  datatype Proof = Proof(confirmations: int, fundingOutpoint: string, spent: bool, observed: Reported)

  predicate FundsArrived(p: Proof) {
    p.confirmations > 0 && p.fundingOutpoint != "" && !p.spent
  }

  /** `applyPrefundFundedObservation`. */
  function ApplyFunded(orders: map<string, Order>, orderId: string, outpoint: string, grains: nat): Result<map<string, Order>> {
    if orderId !in orders || !orders[orderId].prefundState.PendingFunding? then Thrown
    else Ok(orders[orderId := orders[orderId].(
                prefundState := Funded, fundedOutpoint := Some(outpoint), fundedGrains := grains, remainingGrains := grains)])
  }

  /** `applyPrefundExpired`. */
  function ApplyFundingExpired(orders: map<string, Order>, orderId: string): Result<map<string, Order>> {
    if orderId !in orders || !orders[orderId].prefundState.PendingFunding? then Thrown
    else Ok(orders[orderId := orders[orderId].(prefundState := FundingExpired, status := Expired)])
  }

  /** One listed order of `runPrefundFundingObserverIteration`; `probe` throws when the indexer cannot be reached. */
  function ObserveFunding(orders: map<string, Order>, orderId: string, probe: Result<Proof>, reserved: bool, nowMs: int): map<string, Order> {
    if orderId !in orders || !orders[orderId].prefundState.PendingFunding? then orders
    else
      var order := orders[orderId];
      var pastCltv := order.refundAfter.Some? && order.refundAfter.value * 1000 <= nowMs;
      if probe.Thrown? && !pastCltv then orders
      else if probe.Ok? && FundsArrived(probe.value) then
        var expected := ParseDecimalToUnits(order.amountPrl, 8);
        if expected.Thrown? then orders
        else if probe.value.observed.Grains? && probe.value.observed.amount < expected.value then orders
        else if !reserved then orders
        else
          var grains := match probe.value.observed
            case Unreported => expected.value
            case Blank => 0
            case Grains(amount) => amount;
          ApplyFunded(orders, orderId, probe.value.fundingOutpoint, grains).value
      else if pastCltv then ApplyFundingExpired(orders, orderId).value
      else orders
  }

  function ObserveAll(
    orders: map<string, Order>, listed: seq<string>, observe: string -> Result<Proof>, reserved: set<string>, nowMs: int): map<string, Order>
  {
    if listed == [] then orders
    else
      var n := |listed| - 1;
      ObserveFunding(ObserveAll(orders, listed[..n], observe, reserved, nowMs), listed[n], observe(listed[n]), listed[n] in reserved, nowMs)
  }

  predicate Sweepable(order: Order) {
    order.prefundState.Funded? || order.prefundState.PartiallySwept?
  }

  /** `applyOrderPrefundSweepProgress`. */
  function ApplySweepProgress(orders: map<string, Order>, orderId: string, remaining: nat, state: PrefundState): Result<map<string, Order>> {
    if orderId !in orders || !Sweepable(orders[orderId]) then Thrown
    else Ok(orders[orderId := orders[orderId].(remainingGrains := remaining, prefundState := state)])
  }

  /** `initiateOrderSweep`: the caller passes the order it read; the sweep row stays when the progress throws. */
  function InitiateOrderSweep(st: Store, sweepId: string, orderId: string, order: Order, tradeId: string, swept: int): (Store, bool) {
    if order.prefundMode.None? || !Sweepable(order) || order.fundedOutpoint.GetOr("") == "" then (st, false)
    else if swept <= 0 || swept > order.remainingGrains then (st, false)
    else if tradeId in st.sweepByTrade then (st, false)
    else
      var remaining := order.remainingGrains - swept;
      var status := if order.prefundMode == Some(AutoSweep) then SweepPending else AwaitingMakerSignature;
      var st1 := st.(
        sweeps := st.sweeps[sweepId := Sweep(orderId, tradeId, order.fundedOutpoint.value, swept, status)],
        sweepByTrade := st.sweepByTrade[tradeId := sweepId]);
      match ApplySweepProgress(st.orders, orderId, remaining, if remaining == 0 then FullySwept else PartiallySwept)
      case Thrown => (st1, false)
      case Ok(orders) => (st1.(orders := orders), true)
  }

  /** `requestPrefundRefund`, ending in `applyPrefundRefundPending`; `built` is whether the refund could be prepared. */
  function RequestPrefundRefund(orders: map<string, Order>, orderId: string, nowSec: int, built: bool): Result<map<string, Order>> {
    if orderId !in orders then Thrown
    else
      var order := orders[orderId];
      if !Sweepable(order) || order.refundAfter.None? || nowSec < order.refundAfter.value || order.remainingGrains <= 0 || !built then Thrown
      else Ok(orders[orderId := order.(prefundState := RefundPending)])
  }

  /** `applyPrefundRefunded`. */
  function ApplyPrefundRefunded(orders: map<string, Order>, orderId: string, refundTxid: string): Result<map<string, Order>> {
    if orderId !in orders || !orders[orderId].prefundState.RefundPending? then Thrown
    else Ok(orders[orderId := orders[orderId].(prefundState := Refunded, refundTxid := Some(refundTxid), status := Cancelled)])
  }

  /** One candidate of `runPrefundCltvCutoffIteration`. */
  function CutOff(orders: map<string, Order>, orderId: string, nowSec: int): map<string, Order> {
    if orderId !in orders then orders
    else
      var order := orders[orderId];
      if !Sweepable(order) || order.status.Cancelled? || order.refundAfter.None? || nowSec < order.refundAfter.value then orders
      else orders[orderId := order.(status := Cancelled)]
  }

  function CutOffAll(orders: map<string, Order>, listed: seq<string>, nowSec: int): map<string, Order> {
    if listed == [] then orders
    else CutOff(CutOffAll(orders, listed[..|listed| - 1], nowSec), listed[|listed| - 1], nowSec)
  }
}
