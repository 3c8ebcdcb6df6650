/**
 Prefund escrows over every run of the order book (`OrderRuns`): what was funded is what remains and what
 was swept, exactly when every sweep call is balanced (`PrefundConservesIff`).
 */
module PrefundRuns {
  import opened Wrappers
  import opened Amounts
  import opened Orders
  import opened OrderRuns
  import Quotes

  // ---- The grains swept from an order ----

  function SweptBy(s: Sweep, orderId: string): nat {
    if s.orderId == orderId then s.sweptGrains else 0
  }

  ghost function SweptOf(sweeps: map<string, Sweep>, orderId: string): nat
    decreases |sweeps|
  {
    if sweeps == map[] then 0
    else
      var k :| k in sweeps;
      SweptBy(sweeps[k], orderId) + SweptOf(sweeps - {k}, orderId)
  }

  lemma {:induction false} SweptWithout(sweeps: map<string, Sweep>, orderId: string, k: string)
    requires k in sweeps
    ensures SweptOf(sweeps, orderId) == SweptBy(sweeps[k], orderId) + SweptOf(sweeps - {k}, orderId)
    decreases |sweeps|
  {
    hide SweptBy;
    var j :| j in sweeps && SweptOf(sweeps, orderId) == SweptBy(sweeps[j], orderId) + SweptOf(sweeps - {j}, orderId);
    if j != k {
      SweptWithout(sweeps - {j}, orderId, k);
      SweptWithout(sweeps - {k}, orderId, j);
      assert sweeps - {j} - {k} == sweeps - {k} - {j};
    }
  }

  lemma SweptAdds(sweeps: map<string, Sweep>, orderId: string, k: string, s: Sweep)
    ensures SweptOf(sweeps[k := s], orderId) ==
      SweptOf(sweeps, orderId) - (if k in sweeps then SweptBy(sweeps[k], orderId) else 0) + SweptBy(s, orderId)
  {
    SweptWithout(sweeps[k := s], orderId, k);
    if k in sweeps {
      SweptWithout(sweeps, orderId, k);
      assert sweeps[k := s] - {k} == sweeps - {k};
    } else {
      assert sweeps[k := s] - {k} == sweeps;
    }
  }

  lemma {:induction false} NothingSwept(sweeps: map<string, Sweep>, orderId: string)
    requires forall k :: k in sweeps ==> sweeps[k].orderId != orderId
    ensures SweptOf(sweeps, orderId) == 0
    decreases |sweeps|
  {
    if sweeps != map[] {
      var k :| k in sweeps;
      SweptWithout(sweeps, orderId, k);
      NothingSwept(sweeps - {k}, orderId);
    }
  }

  // ---- The invariant ----

  predicate HoldsFunds(s: PrefundState) {
    s.Funded? || s.PartiallySwept? || s.FullySwept? || s.RefundPending? || s.Refunded?
  }

  /** Conservation, and what each state says about the amounts. */
  predicate PrefundOk(o: Order, swept: nat) {
    && (!HoldsFunds(o.prefundState) ==> swept == 0)
    && (HoldsFunds(o.prefundState) ==> o.fundedGrains == o.remainingGrains + swept)
    && (o.prefundState.Funded? ==> swept == 0)
    && (o.prefundState.PartiallySwept? ==> 0 < o.remainingGrains < o.fundedGrains)
    && (o.prefundState.FullySwept? ==> o.remainingGrains == 0 && swept > 0)
    && (o.prefundState.RefundPending? || o.prefundState.Refunded? ==> o.remainingGrains > 0)
  }

  ghost predicate OrdersFunded(orders: map<string, Order>, sweeps: map<string, Sweep>) {
    forall id :: id in orders ==> PrefundOk(orders[id], SweptOf(sweeps, id))
  }

  /** Each sweep is of a known order, and each trade has at most one. */
  ghost predicate SweepsOk(ids: set<string>, sweeps: map<string, Sweep>, byTrade: map<string, string>) {
    && (forall k :: k in sweeps ==> sweeps[k].orderId in ids && sweeps[k].sweptGrains > 0)
    && (forall k :: k in sweeps ==> sweeps[k].tradeId in byTrade && byTrade[sweeps[k].tradeId] == k)
  }

  ghost predicate PrefundInv(st: Store) {
    OrdersFunded(st.orders, st.sweeps) && SweepsOk(st.orders.Keys, st.sweeps, st.sweepByTrade)
  }

  // ---- Steps ----

  lemma CreateKeepsPrefund(st: Store, orderId: string, draft: Order, admitted: bool)
    requires PrefundInv(st) && orderId !in st.orders
    ensures PrefundInv(Kept(CreateOrder(st, orderId, draft, admitted), st))
  {
    hide PositiveAmount, Trim, SweptOf;
    NothingSwept(st.sweeps, orderId);
  }

  /** A fill changes none of an order's prefund fields. */
  predicate SamePrefund(o: Order, o': Order) {
    o'.prefundMode == o.prefundMode && o'.prefundState == o.prefundState && o'.fundedGrains == o.fundedGrains && o'.remainingGrains == o.remainingGrains
  }

  predicate SameFunding(st: Store, st': Store) {
    st'.orders == st.orders && st'.sweeps == st.sweeps && st'.sweepByTrade == st.sweepByTrade
  }

  lemma AskKeepsFunding(st: Store, request: QuoteRequest, deskPrice: string, terms: Terms, now: int, admitted: bool)
    ensures SameFunding(st, Kept(CreateQuote(st, request, deskPrice, terms, now, admitted), st))
  {
    hide PositiveAmount, QuoteWithPrice;
    QuoteTouchesNothing(st, request, deskPrice, terms, now);
  }

  lemma TakeKeepsFunding(st: Store, take: Take, terms: Terms, now: int, admitted: bool)
    ensures SameFunding(st, Kept(CreateOrderQuote(st, take, terms, now, admitted), st))
  {
    hide PositiveAmount, Fillable, TakeRequest, QuoteWithPrice;
    if take.orderId in st.orders {
      var order := st.orders[take.orderId];
      QuoteTouchesNothing(st, TakeRequest(order, take), order.priceUsdcPerPrl, terms, now);
    }
  }

  lemma QuotesKeepPrefund(st: Store, terms: Terms, e: Event)
    requires e.QuoteAsked? || e.OrderQuoteAsked?
    ensures SameFunding(st, Apply(st, terms, e).0)
  {
    hide CreateQuote, CreateOrderQuote, SameFunding;
    if e.QuoteAsked? {
      AskKeepsFunding(st, e.request, e.deskPrice, terms, e.now, e.admitted);
    } else {
      TakeKeepsFunding(st, e.take, terms, e.now, e.admitted);
    }
  }

  lemma QuoteTouchesNothing(st: Store, request: QuoteRequest, price: string, terms: Terms, now: int)
    ensures var r := QuoteWithPrice(st, request, price, terms, now);
      r.Ok? ==> r.value.0 == st.(quotes := r.value.0.quotes, quoteRequests := r.value.0.quoteRequests)
  {
    hide Quotes.CalculateQuoteAmounts;
  }

  lemma AcceptKeepsPrefund(st: Store, a: Accept, now: int, admitted: bool)
    requires PrefundInv(st)
    ensures PrefundInv(Kept(AcceptQuote(st, a, now, admitted), (st, None)).0)
  {
    hide Fillable, RepoParse, ReserveOrderFill, PrefundInv;
    if a.quoteId in st.links {
      ReserveKeepsPrefund(st, st.links[a.quoteId].orderId, st.links[a.quoteId].amountPrl);
    }
    SameTables(st, Kept(AcceptQuote(st, a, now, admitted), (st, None)).0);
  }

  lemma SameTables(st: Store, st': Store)
    requires st'.sweeps == st.sweeps && st'.sweepByTrade == st.sweepByTrade
    ensures PrefundInv(st.(orders := st'.orders)) <==> PrefundInv(st')
  {
  }

  lemma ReserveKeepsPrefund(st: Store, orderId: string, amountPrl: string)
    requires PrefundInv(st)
    ensures ReserveOrderFill(st.orders, orderId, amountPrl).Ok? ==>
      PrefundInv(st.(orders := ReserveOrderFill(st.orders, orderId, amountPrl).value))
    ensures st.(orders := st.orders) == st
  {
    hide RepoParse, RepoFormat, SweptOf;
  }

  lemma FundingKeepsPrefund(st: Store, orders: map<string, Order>, orderId: string, probe: Result<Proof>, reserved: bool, nowMs: int)
    requires PrefundInv(st.(orders := orders))
    ensures PrefundInv(st.(orders := ObserveFunding(orders, orderId, probe, reserved, nowMs)))
  {
    hide ParseDecimalToUnits, SweptOf;
  }

  lemma {:induction false} ObserverKeepsPrefund(
    st: Store, listed: seq<string>, observe: string -> Result<Proof>, reserved: set<string>, nowMs: int)
    requires PrefundInv(st)
    ensures PrefundInv(st.(orders := ObserveAll(st.orders, listed, observe, reserved, nowMs)))
  {
    hide PrefundInv, ObserveFunding;
    if listed != [] {
      var n := |listed| - 1;
      ObserverKeepsPrefund(st, listed[..n], observe, reserved, nowMs);
      FundingKeepsPrefund(st, ObserveAll(st.orders, listed[..n], observe, reserved, nowMs), listed[n], observe(listed[n]), listed[n] in reserved, nowMs);
    } else {
      assert st.(orders := st.orders) == st;
    }
  }

  lemma {:induction false} CutoffKeepsPrefund(st: Store, listed: seq<string>, nowSec: int)
    requires PrefundInv(st)
    ensures PrefundInv(st.(orders := CutOffAll(st.orders, listed, nowSec)))
  {
    hide SweptOf;
    if listed != [] {
      CutoffKeepsPrefund(st, listed[..|listed| - 1], nowSec);
    } else {
      assert st.(orders := st.orders) == st;
    }
  }

  lemma OrderUpdated(st: Store, orderId: string, o: Order)
    requires PrefundInv(st) && orderId in st.orders && PrefundOk(o, SweptOf(st.sweeps, orderId))
    ensures PrefundInv(st.(orders := st.orders[orderId := o]))
  {
    hide SweptOf, PrefundOk;
    assert st.orders[orderId := o].Keys == st.orders.Keys;
  }

  lemma OrderIsFunded(st: Store, orderId: string)
    requires PrefundInv(st) && orderId in st.orders
    ensures PrefundOk(st.orders[orderId], SweptOf(st.sweeps, orderId))
    ensures st.(orders := st.orders) == st
  {
    hide PrefundOk;
  }

  /** Asking for the refund and seeing it paid keep conservation: what is refunded is what remained. */
  lemma RefundKeepsPrefund(st: Store, orderId: string, nowSec: int, built: bool, refundTxid: string)
    requires PrefundInv(st)
    ensures PrefundInv(st.(orders := Kept(RequestPrefundRefund(st.orders, orderId, nowSec, built), st.orders)))
    ensures PrefundInv(st.(orders := Kept(ApplyPrefundRefunded(st.orders, orderId, refundTxid), st.orders)))
  {
    hide SweptOf, PrefundInv;
    assert st.(orders := st.orders) == st;
    if orderId in st.orders {
      OrderIsFunded(st, orderId);
      if RequestPrefundRefund(st.orders, orderId, nowSec, built).Ok? {
        OrderUpdated(st, orderId, st.orders[orderId].(prefundState := RefundPending));
      }
      if ApplyPrefundRefunded(st.orders, orderId, refundTxid).Ok? {
        OrderUpdated(st, orderId, st.orders[orderId].(prefundState := Refunded, refundTxid := Some(refundTxid), status := Cancelled));
      }
    }
  }

  /** The checks of `initiateOrderSweep` pass, all on the order the caller passed in; the sweep's row is written. */
  predicate RowWritten(st: Store, order: Order, tradeId: string, swept: int) {
    && order.prefundMode.Some? && Sweepable(order) && order.fundedOutpoint.GetOr("") != ""
    && 0 < swept <= order.remainingGrains && tradeId !in st.sweepByTrade
  }

  /** What a sweep writes: its row, and the order's progress if the stored order is sweepable too. */
  lemma SweepIs(st: Store, sweepId: string, orderId: string, order: Order, tradeId: string, swept: int)
    ensures var (st', ok) := InitiateOrderSweep(st, sweepId, orderId, order, tradeId, swept);
      && (ok <==> RowWritten(st, order, tradeId, swept) && orderId in st.orders && Sweepable(st.orders[orderId]))
      && (!RowWritten(st, order, tradeId, swept) ==> st' == st)
      && (RowWritten(st, order, tradeId, swept) ==>
            && sweepId in st'.sweeps && st'.sweeps == st.sweeps[sweepId := st'.sweeps[sweepId]]
            && st'.sweeps[sweepId].orderId == orderId && st'.sweeps[sweepId].sweptGrains == swept && st'.sweeps[sweepId].tradeId == tradeId
            && Some(st'.sweeps[sweepId].inputOutpoint) == order.fundedOutpoint
            && (st'.sweeps[sweepId].status == SweepPending <==> order.prefundMode == Some(AutoSweep))
            && st'.sweepByTrade == st.sweepByTrade[tradeId := sweepId]
            && st'.orders == if ok then st.orders[orderId := SweptOrder(st.orders[orderId], order.remainingGrains - swept)] else st.orders)
  {
  }

  function SweptOrder(o: Order, remaining: nat): Order {
    o.(remainingGrains := remaining, prefundState := if remaining == 0 then FullySwept else PartiallySwept)
  }

  /** The grains of the order that a sweep under the id overwrites. */
  function Overwritten(sweeps: map<string, Sweep>, sweepId: string, orderId: string): nat {
    if sweepId in sweeps then SweptBy(sweeps[sweepId], orderId) else 0
  }

  lemma SweptNow(st: Store, st': Store, sweepId: string, id: string)
    requires sweepId in st'.sweeps && st'.sweeps == st.sweeps[sweepId := st'.sweeps[sweepId]]
    ensures SweptOf(st'.sweeps, id) == SweptOf(st.sweeps, id) - Overwritten(st.sweeps, sweepId, id) + SweptBy(st'.sweeps[sweepId], id)
    ensures SweptOf(st.sweeps, id) >= Overwritten(st.sweeps, sweepId, id)
  {
    SweptAdds(st.sweeps, id, sweepId, st'.sweeps[sweepId]);
    if sweepId in st.sweeps { SweptWithout(st.sweeps, id, sweepId); }
  }

  /** The sweep's row and what it overwrites are of one order, and the remainder passed in is the stored one with what is
      overwritten put back; an order whose progress is refused has its row replaced by an equal one. */
  predicate Balanced(st: Store, sweepId: string, orderId: string, order: Order, tradeId: string, swept: int) {
    RowWritten(st, order, tradeId, swept) ==>
      && orderId in st.orders && (sweepId in st.sweeps ==> st.sweeps[sweepId].orderId == orderId)
      && var stored, replaced := st.orders[orderId], Overwritten(st.sweeps, sweepId, orderId);
         if Sweepable(stored) then order.remainingGrains == stored.remainingGrains + replaced
         else HoldsFunds(stored.prefundState) && swept == replaced
  }

  /** Every order that holds funds has them in its remainder and its sweeps. */
  ghost predicate Equations(st: Store) {
    forall id :: id in st.orders && HoldsFunds(st.orders[id].prefundState) ==>
      st.orders[id].fundedGrains == st.orders[id].remainingGrains + SweptOf(st.sweeps, id)
  }

  lemma SweptOrderOk(o: Order, before: nat, after: nat, remaining: nat)
    requires PrefundOk(o, before) && Sweepable(o) && after > 0 && o.fundedGrains == remaining + after
    ensures PrefundOk(SweptOrder(o, remaining), after)
  {
  }

  lemma BalancedKeeps(st: Store, sweepId: string, orderId: string, order: Order, tradeId: string, swept: int)
    requires PrefundInv(st) && Balanced(st, sweepId, orderId, order, tradeId, swept)
    ensures PrefundInv(InitiateOrderSweep(st, sweepId, orderId, order, tradeId, swept).0)
  {
    hide SweptOf, InitiateOrderSweep, PrefundOk;
    var (st', ok) := InitiateOrderSweep(st, sweepId, orderId, order, tradeId, swept);
    SweepIs(st, sweepId, orderId, order, tradeId, swept);
    if RowWritten(st, order, tradeId, swept) {
      OrderIsFunded(st, orderId);
      assert st'.orders.Keys == st.orders.Keys;
      forall id | id in st.orders
        ensures PrefundOk(st'.orders[id], SweptOf(st'.sweeps, id))
      {
        SweptNow(st, st', sweepId, id);
        if id == orderId && ok {
          FundedSum(st.orders[id], SweptOf(st.sweeps, id));
          SweptOrderOk(st.orders[id], SweptOf(st.sweeps, id), SweptOf(st'.sweeps, id), order.remainingGrains - swept);
        }
      }
    }
  }

  lemma FundedSum(o: Order, swept: nat)
    requires PrefundOk(o, swept)
    ensures HoldsFunds(o.prefundState) ==> o.fundedGrains == o.remainingGrains + swept
    ensures swept > 0 ==> HoldsFunds(o.prefundState)
  {
  }

  lemma InvIsEquations(st: Store)
    requires PrefundInv(st)
    ensures Equations(st)
    ensures forall k :: k in st.sweeps ==> st.sweeps[k].orderId in st.orders && st.sweeps[k].sweptGrains > 0
  {
    hide SweptOf, PrefundOk;
    forall id | id in st.orders
      ensures HoldsFunds(st.orders[id].prefundState) ==> st.orders[id].fundedGrains == st.orders[id].remainingGrains + SweptOf(st.sweeps, id)
    {
      FundedSum(st.orders[id], SweptOf(st.sweeps, id));
    }
  }

  /** If all sums still hold, the call was balanced, as far as its order is known and holds funds. */
  lemma SumsBalance(st: Store, sweepId: string, orderId: string, order: Order, tradeId: string, swept: int)
    requires PrefundInv(st) && Equations(InitiateOrderSweep(st, sweepId, orderId, order, tradeId, swept).0)
    requires orderId in st.orders && HoldsFunds(st.orders[orderId].prefundState)
    ensures Balanced(st, sweepId, orderId, order, tradeId, swept)
  {
    hide SweptOf, InitiateOrderSweep, PrefundInv;
    var (st', ok) := InitiateOrderSweep(st, sweepId, orderId, order, tradeId, swept);
    SweepIs(st, sweepId, orderId, order, tradeId, swept);
    InvIsEquations(st);
    if RowWritten(st, order, tradeId, swept) {
      SweptNow(st, st', sweepId, orderId);
      if sweepId in st.sweeps && st.sweeps[sweepId].orderId != orderId {
        var other := st.sweeps[sweepId].orderId;
        SweptNow(st, st', sweepId, other);
        OrderIsFunded(st, other);
        FundedSum(st.orders[other], SweptOf(st.sweeps, other));
      }
    }
  }

  /** A sweep call, accepted or not, keeps the invariant exactly when it is balanced. */
  lemma SweepKeepsIff(st: Store, sweepId: string, orderId: string, order: Order, tradeId: string, swept: int)
    requires PrefundInv(st)
    ensures PrefundInv(InitiateOrderSweep(st, sweepId, orderId, order, tradeId, swept).0) <==>
      Balanced(st, sweepId, orderId, order, tradeId, swept)
  {
    hide SweptOf, InitiateOrderSweep, PrefundInv, Balanced;
    var (st', ok) := InitiateOrderSweep(st, sweepId, orderId, order, tradeId, swept);
    if Balanced(st, sweepId, orderId, order, tradeId, swept) {
      BalancedKeeps(st, sweepId, orderId, order, tradeId, swept);
    } else if PrefundInv(st') {
      InvIsEquations(st');
      SweepIs(st, sweepId, orderId, order, tradeId, swept);
      WrittenHolds(st, sweepId, orderId, order, tradeId, swept);
      SumsBalance(st, sweepId, orderId, order, tradeId, swept);
    }
  }

  lemma WrittenHolds(st: Store, sweepId: string, orderId: string, order: Order, tradeId: string, swept: int)
    requires PrefundInv(st) && PrefundInv(InitiateOrderSweep(st, sweepId, orderId, order, tradeId, swept).0)
    requires !Balanced(st, sweepId, orderId, order, tradeId, swept)
    ensures orderId in st.orders && HoldsFunds(st.orders[orderId].prefundState)
  {
    hide SweptOf, InitiateOrderSweep, PrefundInv;
    var (st', ok) := InitiateOrderSweep(st, sweepId, orderId, order, tradeId, swept);
    SweepIs(st, sweepId, orderId, order, tradeId, swept);
    InvIsEquations(st');
    assert st'.sweeps[sweepId].orderId in st'.orders;
    SweptNow(st, st', sweepId, orderId);
    OrderIsFunded(st', orderId);
    FundedSum(st'.orders[orderId], SweptOf(st'.sweeps, orderId));
  }

  /** A sweep with the stored order under a fresh id keeps conservation: it moves the swept grains from the order's
      remainder to its sweeps, and a refused one changes nothing. */
  lemma SweepKeepsPrefund(st: Store, sweepId: string, orderId: string, tradeId: string, swept: int)
    requires PrefundInv(st) && orderId in st.orders && sweepId !in st.sweeps
    ensures var (st', ok) := InitiateOrderSweep(st, sweepId, orderId, st.orders[orderId], tradeId, swept);
      && PrefundInv(st') && (!ok ==> st' == st)
      && (ok ==>
            && swept > 0 && orderId in st'.orders
            && st'.orders[orderId].remainingGrains == st.orders[orderId].remainingGrains - swept
            && (forall id :: SweptOf(st'.sweeps, id) == SweptOf(st.sweeps, id) + if id == orderId then swept else 0)
            && (forall id :: id in st.orders && id != orderId ==> id in st'.orders && st'.orders[id] == st.orders[id]))
  {
    hide SweptOf, InitiateOrderSweep, PrefundInv;
    var (st', ok) := InitiateOrderSweep(st, sweepId, orderId, st.orders[orderId], tradeId, swept);
    SweepIs(st, sweepId, orderId, st.orders[orderId], tradeId, swept);
    BalancedKeeps(st, sweepId, orderId, st.orders[orderId], tradeId, swept);
    if ok {
      forall id
        ensures SweptOf(st'.sweeps, id) == SweptOf(st.sweeps, id) + if id == orderId then swept else 0
      {
        SweptNow(st, st', sweepId, id);
      }
    } else {
      CurrentOrderNeverFailsLate(st, sweepId, orderId, tradeId, swept);
    }
  }

  /** With the stored order, a sweep that is refused has written nothing. */
  lemma CurrentOrderNeverFailsLate(st: Store, sweepId: string, orderId: string, tradeId: string, swept: int)
    requires orderId in st.orders && !InitiateOrderSweep(st, sweepId, orderId, st.orders[orderId], tradeId, swept).1
    ensures InitiateOrderSweep(st, sweepId, orderId, st.orders[orderId], tradeId, swept).0 == st
  {
  }

  predicate SweepsBalanced(st: Store, e: Event) {
    e.SweepInitiated? ==> Balanced(st, e.sweepId, e.orderId, e.order, e.tradeId, e.swept)
  }

  /** Of all calls on fresh order ids, only an unbalanced sweep breaks conservation. */
  lemma StepKeepsPrefund(st: Store, terms: Terms, e: Event)
    requires PrefundInv(st) && Careful(st, e)
    ensures PrefundInv(Apply(st, terms, e).0) <==> SweepsBalanced(st, e)
  {
    hide PrefundInv, Balanced, CreateOrder, CreateQuote, CreateOrderQuote, AcceptQuote, ObserveAll, CutOffAll, InitiateOrderSweep,
      RequestPrefundRefund, ApplyPrefundRefunded, Kept;
    match e {
      case OrderCreated(_, _, _) => CreateKeepsPrefund(st, e.orderId, e.draft, e.admitted);
      case QuoteAccepted(_, _, _) => AcceptKeepsPrefund(st, e.accept, e.now, e.admitted);
      case FundingObserved(_, _, _, _) => ObserverKeepsPrefund(st, e.listed, e.observe, e.reserved, e.nowMs);
      case SweepInitiated(_, _, _, _, _) => SweepKeepsIff(st, e.sweepId, e.orderId, e.order, e.tradeId, e.swept);
      case CutoffReached(_, _) => CutoffKeepsPrefund(st, e.listed, e.nowSec);
      case RefundRequested(_, _, _) => RefundKeepsPrefund(st, e.orderId, e.nowSec, e.built, "");
      case RefundSeen(_, _) => RefundKeepsPrefund(st, e.orderId, 0, false, e.refundTxid);
      case _ =>
        QuotesKeepPrefund(st, terms, e);
        SameInv(st, Apply(st, terms, e).0);
    }
  }

  lemma SameInv(st: Store, st': Store)
    requires PrefundInv(st) && SameFunding(st, st')
    ensures PrefundInv(st')
  {
  }

  // ---- Main results ----

  ghost predicate FundedAfter(terms: Terms, events: seq<Event>, n: nat)
    requires n <= |events|
  {
    PrefundInv(Run(terms, events[..n]).0)
  }

  predicate BalancedAt(terms: Terms, events: seq<Event>, n: nat)
    requires n < |events|
  {
    SweepsBalanced(Run(terms, events[..n]).0, events[n])
  }

  lemma FundedNext(terms: Terms, events: seq<Event>, n: nat)
    requires CarefulRun(terms, events) && n < |events| && FundedAfter(terms, events, n)
    ensures FundedAfter(terms, events, n + 1) <==> BalancedAt(terms, events, n)
  {
    hide PrefundInv, Apply, Careful, SweepsBalanced;
    CarefulPrefix(terms, events, n);
    StepKeepsPrefund(Run(terms, events[..n]).0, terms, events[n]);
    assert events[..n + 1][..n] == events[..n];
  }

  lemma {:induction false} FundedTo(terms: Terms, events: seq<Event>, n: nat)
    requires CarefulRun(terms, events) && n <= |events|
    requires forall k :: 0 <= k < n ==> BalancedAt(terms, events, k)
    ensures FundedAfter(terms, events, n)
  {
    hide BalancedAt;
    if n == 0 {
      EmptyIsFunded();
    } else {
      FundedTo(terms, events, n - 1);
      FundedNext(terms, events, n - 1);
    }
  }

  /** All along a run on fresh order ids, every order's funded grains are what remains and what its sweeps took, and its
      state says which, exactly when every sweep call of the run is balanced. */
  lemma PrefundConservesIff(terms: Terms, events: seq<Event>)
    requires CarefulRun(terms, events)
    ensures (forall n :: 0 <= n <= |events| ==> FundedAfter(terms, events, n)) <==>
      (forall n :: 0 <= n < |events| ==> BalancedAt(terms, events, n))
  {
    hide FundedAfter, BalancedAt;
    if forall n :: 0 <= n <= |events| ==> FundedAfter(terms, events, n) {
      forall n | 0 <= n < |events|
        ensures BalancedAt(terms, events, n)
      {
        FundedNext(terms, events, n);
      }
    }
    if forall n :: 0 <= n < |events| ==> BalancedAt(terms, events, n) {
      forall n | 0 <= n <= |events|
        ensures FundedAfter(terms, events, n)
      {
        FundedTo(terms, events, n);
      }
    }
  }

  /** The sweep is initiated with the order as it is stored, under a fresh id. */
  predicate CurrentSweep(st: Store, e: Event) {
    e.SweepInitiated? ==> e.orderId in st.orders && e.order == st.orders[e.orderId] && e.sweepId !in st.sweeps
  }

  /** In particular where every sweep is initiated with the order as it is stored and under a fresh id. */
  lemma PrefundConserves(terms: Terms, events: seq<Event>)
    requires CarefulRun(terms, events)
    requires forall n :: 0 <= n < |events| ==> CurrentSweep(Run(terms, events[..n]).0, events[n])
    ensures PrefundInv(Run(terms, events).0)
  {
    hide PrefundInv, Run;
    forall n | 0 <= n < |events|
      ensures BalancedAt(terms, events, n)
    {
      assert CurrentSweep(Run(terms, events[..n]).0, events[n]);
    }
    FundedTo(terms, events, |events|);
    assert events[..|events|] == events;
  }

  lemma EmptyIsFunded()
    ensures PrefundInv(EMPTY)
  {
  }

  /** After any accepted sweep all the sums still hold exactly when it was balanced. */
  lemma SweepConservesIff(st: Store, sweepId: string, orderId: string, order: Order, tradeId: string, swept: int)
    requires PrefundInv(st) && InitiateOrderSweep(st, sweepId, orderId, order, tradeId, swept).1
    ensures Equations(InitiateOrderSweep(st, sweepId, orderId, order, tradeId, swept).0) <==>
      Balanced(st, sweepId, orderId, order, tradeId, swept)
  {
    hide InitiateOrderSweep, PrefundInv, Balanced, Equations;
    SweepIs(st, sweepId, orderId, order, tradeId, swept);
    if Balanced(st, sweepId, orderId, order, tradeId, swept) {
      BalancedKeeps(st, sweepId, orderId, order, tradeId, swept);
      InvIsEquations(InitiateOrderSweep(st, sweepId, orderId, order, tradeId, swept).0);
    } else if Equations(InitiateOrderSweep(st, sweepId, orderId, order, tradeId, swept).0) {
      SumsBalance(st, sweepId, orderId, order, tradeId, swept);
    }
  }

  /** By how much an accepted sweep puts each sum out: its own order's by the overwritten grains and by how far the
      remainder passed in is behind the stored one, another's by the grains overwritten. */
  lemma SweepLoses(st: Store, sweepId: string, orderId: string, order: Order, tradeId: string, swept: int, id: string)
    requires PrefundInv(st) && InitiateOrderSweep(st, sweepId, orderId, order, tradeId, swept).1
    requires id in st.orders && HoldsFunds(st.orders[id].prefundState)
    ensures var st' := InitiateOrderSweep(st, sweepId, orderId, order, tradeId, swept).0;
      && id in st'.orders && orderId in st.orders
      && st'.orders[id].fundedGrains - st'.orders[id].remainingGrains - SweptOf(st'.sweeps, id) ==
         Overwritten(st.sweeps, sweepId, id) + if id == orderId then st.orders[id].remainingGrains - order.remainingGrains else 0
  {
    hide SweptOf, InitiateOrderSweep, PrefundInv;
    SweepIs(st, sweepId, orderId, order, tradeId, swept);
    InvIsEquations(st);
    SweptNow(st, InitiateOrderSweep(st, sweepId, orderId, order, tradeId, swept).0, sweepId, id);
  }

  // ---- Funding and cutoff ----

  /** The observer funds an order only on a confirmed, unspent, allocated funding, and with the order's whole amount
      unless the reported amount is the empty text, which funds it with nothing. */
  lemma FundedCoversOrder(orders: map<string, Order>, orderId: string, probe: Result<Proof>, reserved: bool, nowMs: int)
    requires orderId in orders && orders[orderId].prefundState.PendingFunding? && CleanAmount(orders[orderId].amountPrl)
    requires GrainsOf(orders[orderId].amountPrl) > 0
    ensures orderId in ObserveFunding(orders, orderId, probe, reserved, nowMs)
    ensures var o := ObserveFunding(orders, orderId, probe, reserved, nowMs)[orderId];
      o.prefundState.Funded? ==> (
          && probe.Ok? && FundsArrived(probe.value) && reserved && o.fundedOutpoint == Some(probe.value.fundingOutpoint)
          && o.remainingGrains == o.fundedGrains
          && (o.fundedGrains >= GrainsOf(o.amountPrl) <==> !probe.value.observed.Blank?))
  {
    hide ParseDecimalToUnits, RepoParse;
  }

  /** Past its lock time a listed order can no longer be filled, and its maker can still ask for the refund. */
  lemma {:induction false} CutoffClosesOrder(
    orders: map<string, Order>, listed: seq<string>, nowSec: int, orderId: string, amountPrl: string, now: int)
    requires orderId in listed && orderId in orders && Sweepable(orders[orderId])
    requires orders[orderId].refundAfter.Some? && orders[orderId].refundAfter.value <= nowSec
    ensures var after := CutOffAll(orders, listed, nowSec);
      && orderId in after && after[orderId] == orders[orderId].(status := Cancelled)
      && !Fillable(after[orderId], amountPrl, now)
      && (orders[orderId].remainingGrains > 0 ==> RequestPrefundRefund(after, orderId, nowSec, true).Ok?)
  {
    hide ParseDecimalToUnits;
    var n := |listed| - 1;
    if orderId in listed[..n] {
      CutoffClosesOrder(orders, listed[..n], nowSec, orderId, amountPrl, now);
    } else {
      CutoffSkips(orders, listed[..n], nowSec, orderId);
      assert listed == listed[..n] + [listed[n]];
    }
  }

  lemma {:induction false} CutoffSkips(orders: map<string, Order>, listed: seq<string>, nowSec: int, orderId: string)
    requires orderId !in listed && orderId in orders
    ensures orderId in CutOffAll(orders, listed, nowSec) && CutOffAll(orders, listed, nowSec)[orderId] == orders[orderId]
  {
    if listed != [] { CutoffSkips(orders, listed[..|listed| - 1], nowSec, orderId); }
  }

  // ---- Filling does not wait for funding ----

  /** Whether an order can be filled depends on its status, expiry and amounts alone: any other order with the same ones,
      whatever its prefund fields, takes the same fills and keeps the same remainder. */
  lemma FillIgnoresPrefund(o: Order, other: Order, amountPrl: string, now: int)
    requires other.status == o.status && other.expiresAt == o.expiresAt
    requires other.remainingPrl == o.remainingPrl && other.minFillPrl == o.minFillPrl
    ensures Fillable(other, amountPrl, now) <==> Fillable(o, amountPrl, now)
    ensures var r, r' := ReserveOrderFill(map["o" := o], "o", amountPrl), ReserveOrderFill(map["o" := other], "o", amountPrl);
      && (r'.Ok? <==> r.Ok?)
      && (r.Ok? ==>
            && "o" in r.value && "o" in r'.value && SamePrefund(other, r'.value["o"])
            && r'.value["o"].remainingPrl == r.value["o"].remainingPrl && r'.value["o"].status == r.value["o"].status)
  {
    hide ParseDecimalToUnits, RepoParse, RepoFormat;
  }

  function PrefundedDraft(amountPrl: string, price: string): Order {
    Order("maker", SellPrl, "prl1maker", "0xmaker", amountPrl, amountPrl, price, None, Open, None,
          Some(AutoSweep), NoPrefund, None, 0, 0, Some(1), None)
  }

  function TakeAll(amountPrl: string): Take {
    Take("o", amountPrl, "taker", "prl1taker", "0xtaker", "ask")
  }

  /** The book holds the one order, with all of it left, still waiting for its funding. */
  ghost predicate Waiting(st: Store, units: nat) {
    && st.orders.Keys == {"o"} && st == EMPTY.(orders := st.orders)
    && var o := st.orders["o"];
       && o.side.SellPrl? && o.makerUserId == "maker" && o.prefundMode.Some? && o.prefundState.PendingFunding? && o.fundedGrains == 0
       && Fillable(o, RepoFormat(units, 8), 0) && ParseDecimalToUnits(o.priceUsdcPerPrl, 6).Ok?
       && CleanAmount(o.remainingPrl) && GrainsOf(o.remainingPrl) == units
  }

  lemma PrefundedCreated(units: nat, price: string)
    requires units > 0 && ParseDecimalToUnits(price, 6).Ok?
    ensures CreateOrder(EMPTY, "o", PrefundedDraft(RepoFormat(units, 8), price), true).Ok?
    ensures Waiting(CreateOrder(EMPTY, "o", PrefundedDraft(RepoFormat(units, 8), price), true).value, units)
  {
    hide RepoParse, RepoFormat, Trim, Split, Value, Digits, Pow10, PadEnd;
    CleanFormat(units);
    CleanTrim(RepoFormat(units, 8));
    TrimTwice(price);
  }

  /** The taker's quote is linked to the order for the whole amount. */
  ghost predicate Asked(st: Store, st': Store, q: QuoteId, units: nat) {
    && st' == st.(quotes := st'.quotes, quoteRequests := st'.quoteRequests, links := st'.links)
    && q in st'.quotes && st'.quotes[q].amounts.amountPrl == RepoFormat(units, 8) && st'.quotes[q].expiresAt > 0
    && q in st'.links && st'.links[q] == Link("o", RepoFormat(units, 8), "taker")
  }

  lemma QuotedWhole(units: nat, price: string, feeBps: nat)
    requires units > 0 && ParseDecimalToUnits(price, 6).Ok?
    ensures var amount := RepoFormat(units, 8);
      && PositiveAmount(amount)
      && Quotes.CalculateQuoteAmounts(Trim(amount), price, feeBps).Ok?
      && Quotes.CalculateQuoteAmounts(Trim(amount), price, feeBps).value.amountPrl == amount
  {
    hide RepoParse, RepoFormat, Trim, ParseDecimalToUnits;
    CleanFormat(units);
    CleanTrim(RepoFormat(units, 8));
  }

  lemma PrefundedAsked(st: Store, units: nat, terms: Terms) returns (q: QuoteId)
    requires units > 0 && terms.quoteTtl > 0 && Waiting(st, units)
    ensures var r := CreateOrderQuote(st, TakeAll(RepoFormat(units, 8)), terms, 0, true);
      r.Ok? && Asked(st, r.value, q, units)
  {
    hide RepoFormat, Trim, ParseDecimalToUnits, PositiveAmount, Fillable, CleanAmount, GrainsOf, Quotes.CalculateQuoteAmounts;
    var amount, o := RepoFormat(units, 8), st.orders["o"];
    QuotedWhole(units, o.priceUsdcPerPrl, terms.feeBps);
    assert "maker"[0] != "taker"[0];
    q := QuoteId("ask", SellPrl, amount);
    assert QuoteWithPrice(st, TakeRequest(o, TakeAll(amount)), o.priceUsdcPerPrl, terms, 0).Ok?;
  }

  lemma PrefundedAccepted(st: Store, st': Store, q: QuoteId, units: nat)
    requires units > 0 && Waiting(st, units) && Asked(st, st', q, units)
    ensures var r := AcceptQuote(st', Accept(q, "accept", ""), 0, true);
      && r.Ok? && r.value.1 == Some(Fill("o", TradeId(q, "accept"), units))
      && "o" in r.value.0.orders && r.value.0.orders["o"].status.Filled?
      && SamePrefund(st.orders["o"], r.value.0.orders["o"])
  {
    hide RepoParse, RepoFormat, Trim, ParseDecimalToUnits, Fillable, ReserveOrderFill, CleanAmount, GrainsOf;
    var amount := RepoFormat(units, 8);
    CleanFormat(units);
    CleanReads(amount);
    FillNeverThrows(st'.orders, "o", amount, 0);
    ReservedIs(st'.orders, "o", amount);
  }

  lemma RunThen(terms: Terms, events: seq<Event>, e: Event)
    ensures var (st, fills) := Run(terms, events);
      var (st', fill) := Apply(st, terms, e);
      Run(terms, events + [e]) == (st', if fill.Some? then fills + [fill.value] else fills)
    ensures CarefulRun(terms, events + [e]) <==> CarefulRun(terms, events) && Careful(Run(terms, events).0, e)
  {
    hide Apply, Careful;
    assert (events + [e])[..|events|] == events;
  }

  /** An order of any size that declares prefunding can be taken and filled whole before any of its funding is seen. */
  lemma UnfundedOrderIsFilled(terms: Terms, units: nat, price: string) returns (events: seq<Event>)
    requires units > 0 && terms.quoteTtl > 0 && ParseDecimalToUnits(price, 6).Ok?
    ensures CarefulRun(terms, events)
    ensures var (st, fills) := Run(terms, events);
      && |fills| == 1 && fills[0].orderId == "o" && fills[0].grains == units
      && "o" in st.orders && st.orders["o"].status.Filled?
      && st.orders["o"].prefundMode.Some? && st.orders["o"].prefundState.PendingFunding? && st.orders["o"].fundedGrains == 0
  {
    hide RepoFormat, CreateOrder, CreateOrderQuote, AcceptQuote, ParseDecimalToUnits, Fillable;
    var amount := RepoFormat(units, 8);
    var e1, e2 := OrderCreated("o", PrefundedDraft(amount, price), true), OrderQuoteAsked(TakeAll(amount), 0, true);
    PrefundedCreated(units, price);
    var st1 := CreateOrder(EMPTY, "o", PrefundedDraft(amount, price), true).value;
    var q := PrefundedAsked(st1, units, terms);
    var e3 := QuoteAccepted(Accept(q, "accept", ""), 0, true);
    PrefundedAccepted(st1, CreateOrderQuote(st1, TakeAll(amount), terms, 0, true).value, q, units);
    RunThen(terms, [], e1);
    RunThen(terms, [] + [e1], e2);
    RunThen(terms, [] + [e1] + [e2], e3);
    events := [] + [e1] + [e2] + [e3];
  }
}
