/**
 The desk's repository and service objects, each method proved to compute its specification in `Orders`:
 `InMemoryOtcRepository` in services/otc-api/src/repository.ts and the order calls of trade-service.ts.
 */
module OtcService {
  import opened Wrappers
  import opened Amounts
  import opened Orders

  class InMemoryOtcRepository {
    var orders: map<string, Order>
    var quotes: map<QuoteId, Quote>
    var quoteRequests: map<string, (QuoteId, QuoteRequest)>
    var links: map<QuoteId, Link>
    var trades: map<TradeId, Trade>
    var tradeByQuote: map<QuoteId, TradeId>
    var tradeRequests: map<string, (TradeId, string)>
    var orderSweeps: map<string, Sweep>
    var orderSweepByTradeId: map<string, string>

    ghost function Contents(): Store reads this {
      Store(orders, quotes, quoteRequests, links, trades, tradeByQuote, tradeRequests, orderSweeps, orderSweepByTradeId)
    }

    constructor ()
      ensures Contents() == EMPTY
    {
      orders, quotes, quoteRequests, links := map[], map[], map[], map[];
      trades, tradeByQuote, tradeRequests := map[], map[], map[];
      orderSweeps, orderSweepByTradeId := map[], map[];
    }

    /** False where the source throws, having changed nothing. */
    method ReserveOrderFill(orderId: string, amountPrl: string) returns (ok: bool)
      modifies `orders
      ensures ok <==> Orders.ReserveOrderFill(old(orders), orderId, amountPrl).Ok?
      ensures orders == if ok then Orders.ReserveOrderFill(old(orders), orderId, amountPrl).value else old(orders)
    {
      hide RepoParse, RepoFormat;
      if orderId !in orders { return false; }
      var order := orders[orderId];
      if !order.status.Open? && !order.status.PartiallyFilled? { return false; }
      var remaining, fill := RepoParse(order.remainingPrl, 8), RepoParse(amountPrl, 8);
      if remaining.Thrown? || fill.Thrown? { return false; }
      if remaining.value < fill.value { return false; }
      var next := remaining.value - fill.value;
      orders := orders[orderId := order.(
        remainingPrl := RepoFormat(next, 8), status := if next == 0 then Filled else PartiallyFilled)];
      return true;
    }

    /** `saveTrade`. */
    method SaveTrade(a: Accept, trade: Trade)
      modifies `trades, `tradeByQuote, `tradeRequests
      ensures trades == old(trades)[TradeId(a.quoteId, a.clientRequestId) := trade]
      ensures tradeByQuote == old(tradeByQuote)[a.quoteId := TradeId(a.quoteId, a.clientRequestId)]
      ensures tradeRequests == old(tradeRequests)[a.clientRequestId := (TradeId(a.quoteId, a.clientRequestId), a.details)]
    {
      var tradeId := TradeId(a.quoteId, a.clientRequestId);
      trades := trades[tradeId := trade];
      tradeByQuote := tradeByQuote[a.quoteId := tradeId];
      tradeRequests := tradeRequests[a.clientRequestId := (tradeId, a.details)];
    }

    /** `saveOrderSweep`; false where it throws. */
    method SaveOrderSweep(sweepId: string, sweep: Sweep) returns (ok: bool)
      modifies `orderSweeps, `orderSweepByTradeId
      ensures ok <==> sweep.tradeId !in old(orderSweepByTradeId)
      ensures orderSweeps == if ok then old(orderSweeps)[sweepId := sweep] else old(orderSweeps)
      ensures orderSweepByTradeId == if ok then old(orderSweepByTradeId)[sweep.tradeId := sweepId] else old(orderSweepByTradeId)
    {
      if sweep.tradeId in orderSweepByTradeId { return false; }
      orderSweeps := orderSweeps[sweepId := sweep];
      orderSweepByTradeId := orderSweepByTradeId[sweep.tradeId := sweepId];
      return true;
    }
  }

  class OtcTradeService {
    const repository: InMemoryOtcRepository

    constructor (repository: InMemoryOtcRepository) ensures this.repository == repository {
      this.repository := repository;
    }

    /** `watched` says whether the deposit watch can be registered; when it cannot, the call throws after its writes. */
    method AcceptQuote(a: Accept, now: int, admitted: bool, watched: bool) returns (outcome: Result<Option<Fill>>)
      modifies repository
      ensures outcome.Ok? <==> watched && Orders.AcceptQuote(old(repository.Contents()), a, now, admitted).Ok?
      ensures var accepted := Orders.AcceptQuote(old(repository.Contents()), a, now, admitted);
        repository.Contents() == if accepted.Ok? then accepted.value.0 else old(repository.Contents())
      ensures outcome.Ok? ==> outcome.value == Orders.AcceptQuote(old(repository.Contents()), a, now, admitted).value.1
    {
      hide Fillable, RepoParse, RepoFormat;
      var r := repository;
      if a.clientRequestId in r.tradeRequests {
        var existing := r.tradeRequests[a.clientRequestId];
        return if existing.0.quoteId == a.quoteId && existing.1 == a.details && watched then Ok(None) else Thrown;
      }
      if a.quoteId !in r.quotes { return Thrown; }
      var quote := r.quotes[a.quoteId];
      if quote.expiresAt <= now { return Thrown; }
      if a.quoteId in r.tradeByQuote { return Thrown; }
      var fill: Option<Fill> := None;
      if a.quoteId in r.links {
        var link := r.links[a.quoteId];
        if link.orderId !in r.orders { return Thrown; }
        if !Fillable(r.orders[link.orderId], link.amountPrl, now) { return Thrown; }
        if !admitted { return Thrown; }
        var filled := r.ReserveOrderFill(link.orderId, link.amountPrl);
        if !filled { return Thrown; }
        var grains := RepoParse(link.amountPrl, 8);
        fill := Some(Fill(link.orderId, TradeId(a.quoteId, a.clientRequestId), if grains.Ok? then grains.value else 0));
      } else if !admitted {
        return Thrown;
      }
      r.SaveTrade(a, Trade(a.quoteId, quote.amounts.amountPrl));
      return if watched then Ok(fill) else Thrown;
    }

    method InitiateOrderSweep(sweepId: string, orderId: string, order: Order, tradeId: string, swept: int) returns (ok: bool)
      modifies repository
      ensures (repository.Contents(), ok) == Orders.InitiateOrderSweep(old(repository.Contents()), sweepId, orderId, order, tradeId, swept)
    {
      var r := repository;
      if order.prefundMode.None? { return false; }
      if !Sweepable(order) { return false; }
      if order.fundedOutpoint.GetOr("") == "" { return false; }
      if swept <= 0 || swept > order.remainingGrains { return false; }
      var remaining := order.remainingGrains - swept;
      var status := if order.prefundMode == Some(AutoSweep) then SweepPending else AwaitingMakerSignature;
      var saved := r.SaveOrderSweep(sweepId, Sweep(orderId, tradeId, order.fundedOutpoint.value, swept, status));
      if !saved { return false; }
      if orderId !in r.orders || !Sweepable(r.orders[orderId]) { return false; }
      r.orders := r.orders[orderId := r.orders[orderId].(
        remainingGrains := remaining, prefundState := if remaining == 0 then FullySwept else PartiallySwept)];
      return true;
    }

    method RunPrefundFundingObserverIteration(listed: seq<string>, observe: string -> Result<Proof>, reserved: set<string>, nowMs: int)
      modifies repository`orders
      ensures repository.orders == ObserveAll(old(repository.orders), listed, observe, reserved, nowMs)
    {
      hide ParseDecimalToUnits;
      var r := repository;
      ghost var before := r.orders;
      for n := 0 to |listed|
        invariant r.orders == ObserveAll(before, listed[..n], observe, reserved, nowMs)
      {
        assert listed[..n + 1][..n] == listed[..n];
        var orderId := listed[n];
        if orderId in r.orders && r.orders[orderId].prefundState.PendingFunding? {
          var order := r.orders[orderId];
          var pastCltv := order.refundAfter.Some? && order.refundAfter.value * 1000 <= nowMs;
          var probe := observe(orderId);
          if probe.Ok? || pastCltv {
            if probe.Ok? && FundsArrived(probe.value) {
              var expected := ParseDecimalToUnits(order.amountPrl, 8);
              var observed := probe.value.observed;
              if expected.Ok? && !(observed.Grains? && observed.amount < expected.value) && orderId in reserved {
                var grains := if observed.Grains? then observed.amount else if observed.Blank? then 0 else expected.value;
                r.orders := r.orders[orderId := order.(
                  prefundState := Funded, fundedOutpoint := Some(probe.value.fundingOutpoint), fundedGrains := grains, remainingGrains := grains)];
              }
            } else if pastCltv {
              r.orders := r.orders[orderId := order.(prefundState := FundingExpired, status := Expired)];
            }
          }
        }
      }
      assert listed[..|listed|] == listed;
    }

    method RunPrefundCltvCutoffIteration(listed: seq<string>, nowSec: int)
      modifies repository`orders
      ensures repository.orders == CutOffAll(old(repository.orders), listed, nowSec)
    {
      var r := repository;
      ghost var before := r.orders;
      for n := 0 to |listed|
        invariant r.orders == CutOffAll(before, listed[..n], nowSec)
      {
        assert listed[..n + 1][..n] == listed[..n];
        var orderId := listed[n];
        if orderId in r.orders {
          var order := r.orders[orderId];
          if Sweepable(order) && !order.status.Cancelled? && order.refundAfter.Some? && order.refundAfter.value <= nowSec {
            r.orders := r.orders[orderId := order.(status := Cancelled)];
          }
        }
      }
      assert listed[..|listed|] == listed;
    }

    method RequestPrefundRefund(orderId: string, nowSec: int, built: bool) returns (ok: bool)
      modifies repository`orders
      ensures ok <==> Orders.RequestPrefundRefund(old(repository.orders), orderId, nowSec, built).Ok?
      ensures repository.orders ==
        if ok then Orders.RequestPrefundRefund(old(repository.orders), orderId, nowSec, built).value else old(repository.orders)
    {
      var r := repository;
      if orderId !in r.orders { return false; }
      var order := r.orders[orderId];
      if !Sweepable(order) { return false; }
      if order.refundAfter.None? || nowSec < order.refundAfter.value { return false; }
      if order.remainingGrains == 0 || !built { return false; }
      r.orders := r.orders[orderId := order.(prefundState := RefundPending)];
      return true;
    }
  }
}
