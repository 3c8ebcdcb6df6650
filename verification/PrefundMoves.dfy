/**
 What each call of a run does to one order's prefund escrow, said of the call and the order before it
 (services/otc-api/src/trade-service.ts and repository.ts).

 Main results: `StepMoves` (every way an order's prefund fields can change), `BecomesIff` (when it becomes refund pending,
 refunded, funded or expired), and over runs `RefundsWait` (no refund before its lock time) and `FundsAreProved`.
 */
module PrefundMoves {
  import opened Wrappers
  import opened Amounts
  import opened Orders
  import opened OrderRuns
  import opened PrefundRuns
  import Quotes

  // ---- The moves ----

  predicate HasFunds(o: Order) {
    o.prefundState == Funded || o.prefundState == PartiallySwept
  }

  predicate PastLockTime(o: Order, nowSec: int) {
    o.refundAfter.Some? && o.refundAfter.value <= nowSec
  }

  /** The maker asks for the refund at or after the lock time, with grains left, and it can be prepared. */
  predicate AsksRefund(e: Event, id: string, o: Order) {
    && e.RefundRequested? && e.orderId == id && e.built
    && HasFunds(o) && o.remainingGrains > 0 && PastLockTime(o, e.nowSec)
  }

  predicate SeesRefund(e: Event, id: string, o: Order) {
    e.RefundSeen? && e.orderId == id && o.prefundState == RefundPending
  }

  /** A funding that counts: confirmed, named and unspent. */
  predicate Arrived(p: Result<Proof>) {
    p.Ok? && p.value.confirmations >= 1 && p.value.fundingOutpoint != "" && !p.value.spent
  }

  /** The observer sees the order's funding arrive, reserved for it, and not reported as less than its amount. */
  predicate Funds(e: Event, id: string, o: Order) {
    && e.FundingObserved? && id in e.listed && id in e.reserved && o.prefundState == PendingFunding && Arrived(e.observe(id))
    && ParseDecimalToUnits(o.amountPrl, 8).Ok?
    && (e.observe(id).value.observed.Grains? ==> ParseDecimalToUnits(o.amountPrl, 8).value <= e.observe(id).value.observed.amount)
  }

  /** The grains a funding counts for: as reported, the order's amount if nothing is reported, none for the empty text. */
  function Counted(o: Order, p: Proof): nat {
    match p.observed
    case Grains(amount) => amount
    case Blank => 0
    case Unreported => GrainsOf(o.amountPrl)
  }

  /** The observer comes past the lock time and no funding has arrived. */
  predicate Lapses(e: Event, id: string, o: Order) {
    && e.FundingObserved? && id in e.listed && o.prefundState == PendingFunding && !Arrived(e.observe(id))
    && o.refundAfter.Some? && o.refundAfter.value * 1000 <= e.nowMs
  }

  /** A sweep of the order: its checks are on the order passed in, and only then on the one stored. */
  predicate Sweeps(st: Store, e: Event, id: string, o: Order) {
    && e.SweepInitiated? && e.orderId == id && HasFunds(o)
    && e.order.prefundMode.Some? && HasFunds(e.order) && e.order.fundedOutpoint.Some? && e.order.fundedOutpoint.value != ""
    && 0 < e.swept <= e.order.remainingGrains && e.tradeId !in st.sweepByTrade
  }

  predicate CutsOff(e: Event, id: string, o: Order) {
    e.CutoffReached? && id in e.listed && HasFunds(o) && o.status != Cancelled && PastLockTime(o, e.nowSec)
  }

  /** The order after the call: seven ways, and no other. */
  predicate Moves(st: Store, e: Event, id: string, o: Order, o': Order) {
    && (AsksRefund(e, id, o) ==> o' == o.(prefundState := RefundPending))
    && (SeesRefund(e, id, o) ==> o' == o.(prefundState := Refunded, refundTxid := Some(e.refundTxid), status := Cancelled))
    && (Funds(e, id, o) ==>
          var p := e.observe(id).value;
          o' == o.(prefundState := Funded, fundedOutpoint := Some(p.fundingOutpoint),
                   fundedGrains := Counted(o, p), remainingGrains := Counted(o, p)))
    && (Lapses(e, id, o) ==> o' == o.(prefundState := FundingExpired, status := Expired))
    && (Sweeps(st, e, id, o) ==>
          o' == o.(remainingGrains := e.order.remainingGrains - e.swept,
                   prefundState := if e.swept == e.order.remainingGrains then FullySwept else PartiallySwept))
    && (CutsOff(e, id, o) ==> o' == o.(status := Cancelled))
    && (!AsksRefund(e, id, o) && !SeesRefund(e, id, o) && !Funds(e, id, o) && !Lapses(e, id, o) && !Sweeps(st, e, id, o) && !CutsOff(e, id, o) ==>
          && o' == o.(status := o'.status, remainingPrl := o'.remainingPrl)
          && (o'.status == o.status || o'.status == Filled || o'.status == PartiallyFilled)
          && (e.QuoteAccepted? || o' == o))
  }

  // ---- Steps ----

  lemma RefundMoves(st: Store, e: Event, id: string)
    requires id in st.orders && (e.RefundRequested? || e.RefundSeen?)
    ensures var orders := if e.RefundRequested? then Kept(RequestPrefundRefund(st.orders, e.orderId, e.nowSec, e.built), st.orders)
                          else Kept(ApplyPrefundRefunded(st.orders, e.orderId, e.refundTxid), st.orders);
      id in orders && Moves(st, e, id, st.orders[id], orders[id])
  {
  }

  lemma {:induction false} ObservedOnce(
    orders: map<string, Order>, listed: seq<string>, observe: string -> Result<Proof>, reserved: set<string>, nowMs: int, id: string)
    requires id in orders
    ensures var orders' := ObserveAll(orders, listed, observe, reserved, nowMs);
      id in orders' && orders'[id] == if id in listed then ObserveFunding(orders, id, observe(id), id in reserved, nowMs)[id] else orders[id]
  {
    hide ParseDecimalToUnits;
    if listed != [] {
      var n := |listed| - 1;
      var mid := ObserveAll(orders, listed[..n], observe, reserved, nowMs);
      ObservedOnce(orders, listed[..n], observe, reserved, nowMs, id);
      assert id in listed <==> id in listed[..n] || id == listed[n];
    }
  }

  lemma ObservedIs(orders: map<string, Order>, e: Event, id: string, st: Store)
    requires id in orders && e.FundingObserved? && id in e.listed
    ensures var orders' := ObserveFunding(orders, id, e.observe(id), id in e.reserved, e.nowMs);
      id in orders' && Moves(st, e, id, orders[id], orders'[id])
  {
    hide ParseDecimalToUnits;
  }

  lemma FundingMoves(st: Store, e: Event, id: string)
    requires id in st.orders && e.FundingObserved?
    ensures var orders := ObserveAll(st.orders, e.listed, e.observe, e.reserved, e.nowMs);
      id in orders && Moves(st, e, id, st.orders[id], orders[id])
  {
    hide ObserveFunding, ObserveAll, ParseDecimalToUnits;
    ObservedOnce(st.orders, e.listed, e.observe, e.reserved, e.nowMs, id);
    if id in e.listed {
      ObservedIs(st.orders, e, id, st);
    }
  }

  lemma {:induction false} CutOnce(orders: map<string, Order>, listed: seq<string>, nowSec: int, id: string)
    requires id in orders
    ensures var orders' := CutOffAll(orders, listed, nowSec);
      id in orders' && orders'[id] ==
        if id in listed && HasFunds(orders[id]) && PastLockTime(orders[id], nowSec) then orders[id].(status := Cancelled) else orders[id]
  {
    if listed != [] {
      var n := |listed| - 1;
      CutOnce(orders, listed[..n], nowSec, id);
      assert id in listed <==> id in listed[..n] || id == listed[n];
    }
  }

  lemma SweepMoves(st: Store, e: Event, id: string)
    requires id in st.orders && e.SweepInitiated?
    ensures var orders := InitiateOrderSweep(st, e.sweepId, e.orderId, e.order, e.tradeId, e.swept).0.orders;
      id in orders && Moves(st, e, id, st.orders[id], orders[id])
  {
    hide InitiateOrderSweep;
    SweepIs(st, e.sweepId, e.orderId, e.order, e.tradeId, e.swept);
    assert Sweeps(st, e, id, st.orders[id]) <==> e.orderId == id && RowWritten(st, e.order, e.tradeId, e.swept) && Sweepable(st.orders[id]);
  }

  lemma AcceptMoves(st: Store, e: Event, id: string)
    requires id in st.orders && e.QuoteAccepted?
    ensures var orders := Kept(AcceptQuote(st, e.accept, e.now, e.admitted), (st, None)).0.orders;
      id in orders && Moves(st, e, id, st.orders[id], orders[id])
  {
    hide Fillable, RepoParse, ReserveOrderFill;
    if e.accept.quoteId in st.links {
      var link := st.links[e.accept.quoteId];
      if ReserveOrderFill(st.orders, link.orderId, link.amountPrl).Ok? {
        ReservedIs(st.orders, link.orderId, link.amountPrl);
        ReservedStatus(st.orders, link.orderId, link.amountPrl);
      }
    }
  }

  lemma ReservedStatus(orders: map<string, Order>, orderId: string, amountPrl: string)
    requires ReserveOrderFill(orders, orderId, amountPrl).Ok?
    ensures var o := ReserveOrderFill(orders, orderId, amountPrl).value;
      orderId in o && (o[orderId].status == Filled || o[orderId].status == PartiallyFilled)
  {
    hide RepoParse, RepoFormat;
  }

  /** Every call moves a stored order's prefund fields, status and remainder in one of these ways only. */
  lemma StepMoves(st: Store, terms: Terms, e: Event, id: string)
    requires id in st.orders && Careful(st, e)
    ensures id in Apply(st, terms, e).0.orders && Moves(st, e, id, st.orders[id], Apply(st, terms, e).0.orders[id])
  {
    hide Moves, CreateQuote, CreateOrderQuote, AcceptQuote, ObserveAll, CutOffAll, InitiateOrderSweep,
      RequestPrefundRefund, ApplyPrefundRefunded, Kept;
    match e {
      case OrderCreated(_, _, _) => CreateMoves(st, e, id);
      case QuoteAccepted(_, _, _) => AcceptMoves(st, e, id);
      case FundingObserved(_, _, _, _) => FundingMoves(st, e, id);
      case SweepInitiated(_, _, _, _, _) => SweepMoves(st, e, id);
      case CutoffReached(_, _) => CutoffMoves(st, e, id);
      case RefundRequested(_, _, _) => RefundMoves(st, e, id);
      case RefundSeen(_, _) => RefundMoves(st, e, id);
      case _ =>
        QuotesKeepPrefund(st, terms, e);
        QuoteMoves(st, e, id);
    }
  }

  lemma QuoteMoves(st: Store, e: Event, id: string)
    requires id in st.orders && (e.QuoteAsked? || e.OrderQuoteAsked?)
    ensures Moves(st, e, id, st.orders[id], st.orders[id])
  {
  }

  lemma CreateMoves(st: Store, e: Event, id: string)
    requires id in st.orders && e.OrderCreated? && Careful(st, e)
    ensures var orders := Kept(CreateOrder(st, e.orderId, e.draft, e.admitted), st).orders;
      id in orders && Moves(st, e, id, st.orders[id], orders[id])
  {
    hide PositiveAmount, NewOrder;
  }

  lemma CutoffMoves(st: Store, e: Event, id: string)
    requires id in st.orders && e.CutoffReached?
    ensures var orders := CutOffAll(st.orders, e.listed, e.nowSec);
      id in orders && Moves(st, e, id, st.orders[id], orders[id])
  {
    hide CutOffAll;
    CutOnce(st.orders, e.listed, e.nowSec, id);
  }

  /** When an order becomes refund pending, refunded, funded, lapsed or cancelled. */
  lemma BecomesIff(st: Store, terms: Terms, e: Event, id: string)
    requires id in st.orders && Careful(st, e)
    ensures id in Apply(st, terms, e).0.orders
    ensures var o, o' := st.orders[id], Apply(st, terms, e).0.orders[id];
      && (o'.prefundState == RefundPending && o.prefundState != RefundPending <==> AsksRefund(e, id, o))
      && (o'.prefundState == Refunded && o.prefundState != Refunded <==> SeesRefund(e, id, o))
      && (o'.prefundState == Funded && o.prefundState != Funded <==> Funds(e, id, o))
      && (o'.prefundState == FundingExpired && o.prefundState != FundingExpired <==> Lapses(e, id, o))
      && (o'.status == Cancelled && o.status != Cancelled <==> CutsOff(e, id, o) || (SeesRefund(e, id, o) && o.status != Cancelled))
      && (o'.status == Expired && o.status != Expired <==> Lapses(e, id, o) && o.status != Expired)
      && o'.refundAfter == o.refundAfter
  {
    hide Apply;
    StepMoves(st, terms, e, id);
  }

  // ---- Runs ----

  /** Before event `n` the order was there, with the lock time of `o`. */
  ghost predicate WasThere(terms: Terms, events: seq<Event>, n: nat, id: string, o: Order)
    requires n <= |events|
  {
    var st := Run(terms, events[..n]).0;
    id in st.orders && st.orders[id].refundAfter == o.refundAfter
  }

  /** Event `n` is the maker asking for the refund of what was left, at or after the order's lock time. */
  ghost predicate RefundAsked(terms: Terms, events: seq<Event>, n: nat, id: string, o: Order)
    requires n < |events|
  {
    WasThere(terms, events, n, id, o) && AsksRefund(events[n], id, Run(terms, events[..n]).0.orders[id])
  }

  /** Event `n` is the observer seeing the order's funding arrive, which counts as `o` says. */
  ghost predicate FundsProved(terms: Terms, events: seq<Event>, n: nat, id: string, o: Order)
    requires n < |events|
  {
    WasThere(terms, events, n, id, o)
    && var was := Run(terms, events[..n]).0.orders[id];
       && Funds(events[n], id, was)
       && o.fundedOutpoint == Some(events[n].observe(id).value.fundingOutpoint)
       && o.fundedGrains == Counted(was, events[n].observe(id).value)
  }

  /** A new order waits for its funding or has none. */
  lemma CreatedUnfunded(st: Store, terms: Terms, e: Event, id: string)
    requires id !in st.orders && id in Apply(st, terms, e).0.orders
    ensures e.OrderCreated? && !HoldsFunds(Apply(st, terms, e).0.orders[id].prefundState)
  {
    hide CreateQuote, CreateOrderQuote, AcceptQuote, ObserveAll, CutOffAll, InitiateOrderSweep,
      RequestPrefundRefund, ApplyPrefundRefunded, PositiveAmount, Trim, Kept, AllUntouched;
    match e {
      case OrderCreated(_, _, _) => CreatedOne(st, e, id);
      case QuoteAsked(_, _, _, _) => QuotesKeepPrefund(st, terms, e);
      case OrderQuoteAsked(_, _, _) => QuotesKeepPrefund(st, terms, e);
      case QuoteAccepted(_, _, _) => AcceptAddsNone(st, e);
      case _ =>
        PrefundTouchesNothing(st, terms, e);
        SameIds(st.orders, Apply(st, terms, e).0.orders);
    }
  }

  lemma SameIds(before: map<string, Order>, after: map<string, Order>)
    requires AllUntouched(before, after)
    ensures before.Keys == after.Keys
  {
  }

  lemma CreatedOne(st: Store, e: Event, id: string)
    requires e.OrderCreated? && id !in st.orders && id in Kept(CreateOrder(st, e.orderId, e.draft, e.admitted), st).orders
    ensures !HoldsFunds(Kept(CreateOrder(st, e.orderId, e.draft, e.admitted), st).orders[id].prefundState)
  {
    hide PositiveAmount, Trim;
  }

  lemma AcceptAddsNone(st: Store, e: Event)
    requires e.QuoteAccepted?
    ensures Kept(AcceptQuote(st, e.accept, e.now, e.admitted), (st, None)).0.orders.Keys == st.orders.Keys
  {
    hide Fillable, RepoParse, ReserveOrderFill;
    if e.accept.quoteId in st.links {
      var link := st.links[e.accept.quoteId];
      if ReserveOrderFill(st.orders, link.orderId, link.amountPrl).Ok? {
        ReservedIs(st.orders, link.orderId, link.amountPrl);
      }
    }
  }

  /** In every run, an order that is refund pending or refunded was asked for its refund at or after its lock time, by an
      event at which it held funds that had not all been swept. */
  lemma {:induction false} RefundsWait(terms: Terms, events: seq<Event>, id: string)
    requires CarefulRun(terms, events) && id in Run(terms, events).0.orders
    requires Run(terms, events).0.orders[id].prefundState == RefundPending || Run(terms, events).0.orders[id].prefundState == Refunded
    ensures exists n :: 0 <= n < |events| && RefundAsked(terms, events, n, id, Run(terms, events).0.orders[id])
  {
    hide Apply, AsksRefund, SeesRefund, Funds, Lapses, CutsOff, Careful;
    var last := |events| - 1;
    var st, e, o' := Run(terms, events[..last]).0, events[last], Run(terms, events).0.orders[id];
    if id in st.orders {
      var o := st.orders[id];
      BecomesIff(st, terms, e, id);
      if AsksRefund(e, id, o) {
        assert RefundAsked(terms, events, last, id, o');
      } else {
        if SeesRefund(e, id, o) { SeenPending(e, id, o); }
        RefundsWait(terms, events[..last], id);
        var n :| 0 <= n < last && RefundAsked(terms, events[..last], n, id, o);
        assert events[..last][..n] == events[..n];
        assert RefundAsked(terms, events, n, id, o');
      }
    } else {
      CreatedUnfunded(st, terms, e, id);
    }
  }

  lemma SeenPending(e: Event, id: string, o: Order)
    requires SeesRefund(e, id, o)
    ensures o.prefundState == RefundPending
  {
  }

  lemma KeepsFunding(st: Store, terms: Terms, e: Event, id: string)
    requires id in st.orders && Careful(st, e) && id in Apply(st, terms, e).0.orders
    ensures var o, o' := st.orders[id], Apply(st, terms, e).0.orders[id];
      HoldsFunds(o'.prefundState) && !Funds(e, id, o) ==>
        HoldsFunds(o.prefundState) && o'.fundedOutpoint == o.fundedOutpoint && o'.fundedGrains == o.fundedGrains
  {
    hide Apply;
    StepMoves(st, terms, e, id);
  }

  lemma FundsMoves(st: Store, terms: Terms, e: Event, id: string)
    requires id in st.orders && Careful(st, e) && Funds(e, id, st.orders[id])
    ensures id in Apply(st, terms, e).0.orders
    ensures var o' := Apply(st, terms, e).0.orders[id];
      && o'.fundedOutpoint == Some(e.observe(id).value.fundingOutpoint)
      && o'.fundedGrains == Counted(st.orders[id], e.observe(id).value)
  {
    hide Apply;
    StepMoves(st, terms, e, id);
  }

  /** In every run, what an order holds was proved: by a confirmed, unspent funding reserved for it, not reported as less
      than the order's amount, whose outpoint and grains the order has kept since. */
  lemma {:induction false} FundsAreProved(terms: Terms, events: seq<Event>, id: string)
    requires CarefulRun(terms, events) && id in Run(terms, events).0.orders
    requires HoldsFunds(Run(terms, events).0.orders[id].prefundState)
    ensures exists n :: 0 <= n < |events| && FundsProved(terms, events, n, id, Run(terms, events).0.orders[id])
  {
    hide Apply, AsksRefund, SeesRefund, Funds, Lapses, CutsOff, Careful, HoldsFunds, Counted;
    var last := |events| - 1;
    var st, e, o' := Run(terms, events[..last]).0, events[last], Run(terms, events).0.orders[id];
    if id in st.orders {
      var o := st.orders[id];
      BecomesIff(st, terms, e, id);
      KeepsFunding(st, terms, e, id);
      if Funds(e, id, o) {
        FundsMoves(st, terms, e, id);
        assert FundsProved(terms, events, last, id, o');
      } else {
        FundsAreProved(terms, events[..last], id);
        var n :| 0 <= n < last && FundsProved(terms, events[..last], n, id, o);
        assert events[..last][..n] == events[..n];
        assert FundsProved(terms, events, n, id, o');
      }
    } else {
      CreatedUnfunded(st, terms, e, id);
    }
  }
}
