/**
 Runs of the order book and its prefund escrows: every call of `Orders` in any order.

 `FillsConserve` and `PrefundRuns.PrefundConservesIff` are the two conservation laws over every run; `FillNeverThrows`
 shows that a checked fill is always reserved.
 */
module OrderRuns {
  import opened Wrappers
  import opened Amounts
  import opened Orders
  import Quotes

  datatype Event =
    | OrderCreated(orderId: string, draft: Order, admitted: bool)
    | QuoteAsked(request: QuoteRequest, deskPrice: string, now: int, admitted: bool)
    | OrderQuoteAsked(take: Take, now: int, admitted: bool)
    | QuoteAccepted(accept: Accept, now: int, admitted: bool)
    | FundingObserved(listed: seq<string>, observe: string -> Result<Proof>, reserved: set<string>, nowMs: int)
    | SweepInitiated(sweepId: string, orderId: string, order: Order, tradeId: string, swept: int)
    | CutoffReached(listed: seq<string>, nowSec: int)
    | RefundRequested(orderId: string, nowSec: int, built: bool)
    | RefundSeen(orderId: string, refundTxid: string)

  function Kept<T>(r: Result<T>, before: T): T {
    match r
    case Thrown => before
    case Ok(after) => after
  }

  /** One call. A throw before the first write changes nothing; a late one, of `acceptQuote` when the deposit watch cannot
      be registered or of a sweep whose progress is refused, leaves what was written. */
  function Apply(st: Store, terms: Terms, e: Event): (Store, Option<Fill>) {
    match e
    case OrderCreated(orderId, draft, admitted) => (Kept(CreateOrder(st, orderId, draft, admitted), st), None)
    case QuoteAsked(request, deskPrice, now, admitted) => (Kept(CreateQuote(st, request, deskPrice, terms, now, admitted), st), None)
    case OrderQuoteAsked(take, now, admitted) => (Kept(CreateOrderQuote(st, take, terms, now, admitted), st), None)
    case QuoteAccepted(accept, now, admitted) => Kept(AcceptQuote(st, accept, now, admitted), (st, None))
    case FundingObserved(listed, observe, reserved, nowMs) =>
      (st.(orders := ObserveAll(st.orders, listed, observe, reserved, nowMs)), None)
    case SweepInitiated(sweepId, orderId, order, tradeId, swept) =>
      (InitiateOrderSweep(st, sweepId, orderId, order, tradeId, swept).0, None)
    case CutoffReached(listed, nowSec) => (st.(orders := CutOffAll(st.orders, listed, nowSec)), None)
    case RefundRequested(orderId, nowSec, built) =>
      (st.(orders := Kept(RequestPrefundRefund(st.orders, orderId, nowSec, built), st.orders)), None)
    case RefundSeen(orderId, refundTxid) => (st.(orders := Kept(ApplyPrefundRefunded(st.orders, orderId, refundTxid), st.orders)), None)
  }

  /** The store after the events, and the fills they reserved, in order. */
  function Run(terms: Terms, events: seq<Event>): (Store, seq<Fill>) {
    if events == [] then (EMPTY, [])
    else
      var (before, fills) := Run(terms, events[..|events| - 1]);
      var (after, fill) := Apply(before, terms, events[|events| - 1]);
      (after, if fill.Some? then fills + [fill.value] else fills)
  }

  /** The ids of new orders are fresh. */
  predicate Careful(st: Store, e: Event) {
    e.OrderCreated? ==> e.orderId !in st.orders
  }

  predicate CarefulRun(terms: Terms, events: seq<Event>) {
    events != [] ==>
      CarefulRun(terms, events[..|events| - 1]) && Careful(Run(terms, events[..|events| - 1]).0, events[|events| - 1])
  }

  lemma {:induction false} CarefulPrefix(terms: Terms, events: seq<Event>, n: nat)
    requires CarefulRun(terms, events) && n <= |events|
    ensures CarefulRun(terms, events[..n])
    ensures n < |events| ==> Careful(Run(terms, events[..n]).0, events[n])
  {
    hide Run, Careful;
    var last := |events| - 1;
    if n < last {
      CarefulPrefix(terms, events[..last], n);
      assert events[..last][..n] == events[..n];
    } else if n == |events| {
      assert events[..n] == events;
    }
  }

  // ---- Amounts as stored ----

  function GrainsOf(amountPrl: string): nat {
    if ParseDecimalToUnits(amountPrl, 8).Ok? then ParseDecimalToUnits(amountPrl, 8).value else 0
  }

  /** Both parsers read the amount, as the same grains. */
  predicate CleanAmount(amountPrl: string) {
    ParseDecimalToUnits(amountPrl, 8).Ok? && RepoParse(amountPrl, 8) == ParseDecimalToUnits(amountPrl, 8)
  }

  lemma CleanTrim(s: string)
    requires ParseDecimalToUnits(s, 8).Ok?
    ensures CleanAmount(Trim(s)) && GrainsOf(Trim(s)) == GrainsOf(s)
  {
    hide Trim, Split, Value, Pow10, Digits, PadEnd;
    TrimTwice(s);
    assert ParseDecimalToUnits(Trim(s), 8) == ParseDecimalToUnits(s, 8);
    ParsersDiffer(Trim(s), 8);
  }

  lemma CleanFormat(units: nat)
    ensures CleanAmount(RepoFormat(units, 8)) && GrainsOf(RepoFormat(units, 8)) == units
  {
    hide ParseDecimalToUnits, RepoParse, RepoFormat;
    ParseFormat(units, 8);
    RepoParseFormat(units, 8);
  }

  /** A fill that passes `assertOrderFillable` never trips `reserveOrderFill`, though they parse with different parsers. */
  lemma FillNeverThrows(orders: map<string, Order>, orderId: string, amountPrl: string, now: int)
    requires orderId in orders && CleanAmount(amountPrl) && CleanAmount(orders[orderId].remainingPrl)
    requires Fillable(orders[orderId], amountPrl, now)
    ensures ReserveOrderFill(orders, orderId, amountPrl).Ok?
    ensures GrainsOf(amountPrl) <= GrainsOf(orders[orderId].remainingPrl)
    ensures var o := ReserveOrderFill(orders, orderId, amountPrl).value[orderId];
      && CleanAmount(o.remainingPrl)
      && GrainsOf(o.remainingPrl) + GrainsOf(amountPrl) == GrainsOf(orders[orderId].remainingPrl)
      && o.status == (if GrainsOf(o.remainingPrl) == 0 then Filled else PartiallyFilled)
  {
    hide ParseDecimalToUnits, RepoParse, RepoFormat;
    CleanFormat(GrainsOf(orders[orderId].remainingPrl) - GrainsOf(amountPrl));
  }

  // ---- Order fills ----

  function FilledOf(fills: seq<Fill>, orderId: string): nat {
    if fills == [] then 0
    else
      var last := fills[|fills| - 1];
      FilledOf(fills[..|fills| - 1], orderId) + if last.orderId == orderId then last.grains else 0
  }

  /** What is left and what was filled make up the order's amount, and a fill's status says whether anything is left. */
  predicate OrderOk(o: Order, filled: nat) {
    && CleanAmount(o.amountPrl) && CleanAmount(o.remainingPrl)
    && GrainsOf(o.remainingPrl) + filled == GrainsOf(o.amountPrl)
    && (o.status.Open? ==> filled == 0 && GrainsOf(o.remainingPrl) > 0)
    && (o.status.PartiallyFilled? ==> filled > 0 && GrainsOf(o.remainingPrl) > 0)
    && (o.status.Filled? ==> filled > 0 && GrainsOf(o.remainingPrl) == 0)
  }

  ghost predicate OrdersOk(orders: map<string, Order>, fills: seq<Fill>) {
    forall id :: id in orders ==> OrderOk(orders[id], FilledOf(fills, id))
  }

  predicate QuoteOk(quote: Quote) {
    CleanAmount(quote.amounts.amountPrl) && GrainsOf(quote.amounts.amountPrl) > 0
  }

  predicate LinkMatches(link: Link, quote: Quote) {
    link.amountPrl == quote.amounts.amountPrl
  }

  /** Quotes and links carry one positive amount, and a request names the quote it made. */
  ghost predicate QuotesOk(quotes: map<QuoteId, Quote>, requests: map<string, (QuoteId, QuoteRequest)>, links: map<QuoteId, Link>) {
    && QuotesRequested(quotes, requests)
    && RequestsQuoted(quotes, requests)
    && (forall q :: q in links ==> q in quotes && LinkMatches(links[q], quotes[q]))
  }

  ghost predicate QuotesRequested(quotes: map<QuoteId, Quote>, requests: map<string, (QuoteId, QuoteRequest)>) {
    forall q :: q in quotes ==> QuoteOk(quotes[q]) && q.clientRequestId in requests
  }

  ghost predicate RequestsQuoted(quotes: map<QuoteId, Quote>, requests: map<string, (QuoteId, QuoteRequest)>) {
    forall c :: c in requests ==> requests[c].0 in quotes
  }

  /** The trade that was filled, of its quote's whole amount. */
  predicate FillIs(f: Fill, ids: set<string>, trades: map<TradeId, Trade>, tradeByQuote: map<QuoteId, TradeId>) {
    && f.orderId in ids && f.tradeId in trades
    && trades[f.tradeId].quoteId == f.tradeId.quoteId
    && GrainsOf(trades[f.tradeId].amountPrl) == f.grains
    && f.tradeId.quoteId in tradeByQuote
  }

  /** Each quote is filled at most once. */
  ghost predicate FillsOk(ids: set<string>, trades: map<TradeId, Trade>, tradeByQuote: map<QuoteId, TradeId>, fills: seq<Fill>) {
    && (forall n :: 0 <= n < |fills| ==> FillIs(fills[n], ids, trades, tradeByQuote))
    && (forall n, m :: 0 <= n < m < |fills| ==> fills[n].tradeId.quoteId != fills[m].tradeId.quoteId)
  }

  ghost predicate FillInv(st: Store, fills: seq<Fill>) {
    && OrdersOk(st.orders, fills)
    && QuotesOk(st.quotes, st.quoteRequests, st.links)
    && FillsOk(st.orders.Keys, st.trades, st.tradeByQuote, fills)
  }

  lemma {:induction false} NothingFilled(fills: seq<Fill>, orderId: string)
    requires forall n :: 0 <= n < |fills| ==> fills[n].orderId != orderId
    ensures FilledOf(fills, orderId) == 0
  {
    if fills != [] { NothingFilled(fills[..|fills| - 1], orderId); }
  }

  lemma NewOrderOk(draft: Order)
    requires PositiveAmount(draft.amountPrl)
    ensures OrderOk(NewOrder(draft), 0)
  {
    hide ParseDecimalToUnits, RepoParse, Trim;
    CleanTrim(draft.amountPrl);
  }

  lemma CreateKeepsFills(st: Store, fills: seq<Fill>, orderId: string, draft: Order, admitted: bool)
    requires FillInv(st, fills) && orderId !in st.orders
    ensures FillInv(Kept(CreateOrder(st, orderId, draft, admitted), st), fills)
  {
    hide PositiveAmount, QuotesOk, OrderOk, NewOrder, FilledOf;
    if CreateOrder(st, orderId, draft, admitted).Ok? {
      NewOrderOk(draft);
      NothingFilled(fills, orderId);
    }
  }

  /** A new request id makes one new quote, at the price given and of the amount asked, and leaves the others; a used one
      gives the quote it made before and changes nothing, if the request is the same, and throws if it is not. */
  lemma QuoteKeeps(st: Store, request: QuoteRequest, price: string, terms: Terms, now: int)
    requires QuotesOk(st.quotes, st.quoteRequests, st.links) && PositiveAmount(request.amountPrl)
    ensures var r, c := QuoteWithPrice(st, request, price, terms, now), request.clientRequestId;
      && (c in st.quoteRequests ==>
            && (r.Ok? <==> st.quoteRequests[c].1 == request)
            && (r.Ok? ==> r.value == (st, st.quoteRequests[c].0)))
      && (c !in st.quoteRequests && r.Ok? ==> NewQuote(st, r.value.0, r.value.1, request, price))
      && (r.Ok? ==>
            && QuotesOk(r.value.0.quotes, r.value.0.quoteRequests, st.links) && r.value.1 in r.value.0.quotes
            && r.value.0 == st.(quotes := r.value.0.quotes, quoteRequests := r.value.0.quoteRequests))
  {
    hide CleanAmount, GrainsOf, PositiveAmount, Quotes.CalculateQuoteAmounts, QuotesOk;
    if request.clientRequestId !in st.quoteRequests {
      CleanQuote(request.amountPrl, price, terms.feeBps);
      var amounts := Quotes.CalculateQuoteAmounts(request.amountPrl, price, terms.feeBps);
      if amounts.Ok? {
        var q := QuoteId(request.clientRequestId, request.side, amounts.value.amountPrl);
        AddedQuote(st, q, Quote(request.side, amounts.value, now + terms.quoteTtl), request);
      }
    } else {
      RequestedQuote(st, request.clientRequestId);
    }
  }

  ghost predicate NewQuote(st: Store, st': Store, q: QuoteId, request: QuoteRequest, price: string) {
    && q !in st.quotes && q in st'.quotes && st'.quotes == st.quotes[q := st'.quotes[q]]
    && st'.quoteRequests == st.quoteRequests[request.clientRequestId := (q, request)]
    && st'.quotes[q].amounts.priceUsdcPerPrl == price && GrainsOf(st'.quotes[q].amounts.amountPrl) == GrainsOf(request.amountPrl)
  }

  lemma RequestedQuote(st: Store, clientRequestId: string)
    requires QuotesOk(st.quotes, st.quoteRequests, st.links) && clientRequestId in st.quoteRequests
    ensures st.quoteRequests[clientRequestId].0 in st.quotes
  {
  }

  lemma AddedToQuotes(st: Store, q: QuoteId, quote: Quote, request: QuoteRequest)
    requires QuotesRequested(st.quotes, st.quoteRequests) && q.clientRequestId !in st.quoteRequests && QuoteOk(quote)
    ensures q !in st.quotes
    ensures QuotesRequested(st.quotes[q := quote], st.quoteRequests[q.clientRequestId := (q, request)])
  {
    hide QuoteOk;
  }

  lemma AddedToRequests(st: Store, q: QuoteId, quote: Quote, request: QuoteRequest)
    requires RequestsQuoted(st.quotes, st.quoteRequests)
    ensures RequestsQuoted(st.quotes[q := quote], st.quoteRequests[q.clientRequestId := (q, request)])
  {
  }

  lemma AddedQuote(st: Store, q: QuoteId, quote: Quote, request: QuoteRequest)
    requires QuotesOk(st.quotes, st.quoteRequests, st.links) && q.clientRequestId !in st.quoteRequests && QuoteOk(quote)
    ensures q !in st.quotes
    ensures QuotesOk(st.quotes[q := quote], st.quoteRequests[q.clientRequestId := (q, request)], st.links)
  {
    hide QuoteOk, LinkMatches, QuotesRequested, RequestsQuoted;
    AddedToQuotes(st, q, quote, request);
    AddedToRequests(st, q, quote, request);
  }

  lemma CleanQuote(amountPrl: string, price: string, feeBps: nat)
    requires PositiveAmount(amountPrl)
    ensures Quotes.CalculateQuoteAmounts(amountPrl, price, feeBps).Ok? ==>
      var q := Quotes.CalculateQuoteAmounts(amountPrl, price, feeBps).value;
      CleanAmount(q.amountPrl) && GrainsOf(q.amountPrl) == GrainsOf(amountPrl) > 0 && q.priceUsdcPerPrl == price
  {
    hide ParseDecimalToUnits, RepoParse, RepoFormat;
    CleanFormat(GrainsOf(amountPrl));
  }

  lemma TrimmedPositive(amountPrl: string)
    requires PositiveAmount(amountPrl)
    ensures PositiveAmount(Trim(amountPrl))
  {
    hide ParseDecimalToUnits, RepoParse, Trim;
    CleanTrim(amountPrl);
  }

  lemma AskKeepsFills(st: Store, fills: seq<Fill>, request: QuoteRequest, price: string, terms: Terms, now: int, admitted: bool)
    requires FillInv(st, fills)
    ensures FillInv(Kept(CreateQuote(st, request, price, terms, now, admitted), st), fills)
  {
    hide QuoteWithPrice, PositiveAmount, OrdersOk, QuotesOk, FillsOk;
    if CreateQuote(st, request, price, terms, now, admitted).Ok? {
      QuoteKeeps(st, request, price, terms, now);
    }
  }

  lemma TakeKeepsFills(st: Store, fills: seq<Fill>, take: Take, terms: Terms, now: int, admitted: bool)
    requires FillInv(st, fills)
    ensures FillInv(Kept(CreateOrderQuote(st, take, terms, now, admitted), st), fills)
  {
    hide QuoteWithPrice, PositiveAmount, OrdersOk, QuotesOk, FillsOk, Fillable, Trim;
    if CreateOrderQuote(st, take, terms, now, admitted).Ok? {
      var order := st.orders[take.orderId];
      TrimmedPositive(take.amountPrl);
      QuoteKeeps(st, TakeRequest(order, take), order.priceUsdcPerPrl, terms, now);
      var (st', q) := QuoteWithPrice(st, TakeRequest(order, take), order.priceUsdcPerPrl, terms, now).value;
      LinkKeeps(st'.quotes, st'.quoteRequests, st'.links, q, Link(take.orderId, st'.quotes[q].amounts.amountPrl, take.takerUserId));
    }
  }

  lemma LinkKeeps(quotes: map<QuoteId, Quote>, requests: map<string, (QuoteId, QuoteRequest)>, links: map<QuoteId, Link>, q: QuoteId, link: Link)
    requires QuotesOk(quotes, requests, links) && q in quotes && link.amountPrl == quotes[q].amounts.amountPrl
    ensures QuotesOk(quotes, requests, links[q := link])
  {
    hide QuoteOk;
  }

  lemma AcceptKeepsFills(st: Store, fills: seq<Fill>, a: Accept, now: int, admitted: bool)
    requires FillInv(st, fills)
    ensures var (st', fill) := Kept(AcceptQuote(st, a, now, admitted), (st, None));
      FillInv(st', if fill.Some? then fills + [fill.value] else fills)
  {
    hide RepoParse, Fillable, ReserveOrderFill, CleanAmount, OrdersOk, QuotesOk, FillsOk, GrainsOf;
    var r := AcceptQuote(st, a, now, admitted);
    if r.Ok? && a.clientRequestId !in st.tradeRequests {
      if a.quoteId in st.links {
        ReservedFill(st, fills, a, now);
        NewTradeFilled(st, fills, a, st.links[a.quoteId].orderId);
      } else {
        NewTrade(st, fills, a);
      }
    }
  }

  /** A quote's first trade leaves the trades of other quotes alone. */
  lemma NewTrade(st: Store, fills: seq<Fill>, a: Accept)
    requires FillsOk(st.orders.Keys, st.trades, st.tradeByQuote, fills) && a.quoteId in st.quotes && a.quoteId !in st.tradeByQuote
    ensures var st' := SaveAcceptedTrade(st, a, st.orders);
      FillsOk(st.orders.Keys, st'.trades, st'.tradeByQuote, fills)
  {
    hide GrainsOf;
  }

  lemma NewTradeFilled(st: Store, fills: seq<Fill>, a: Accept, orderId: string)
    requires FillsOk(st.orders.Keys, st.trades, st.tradeByQuote, fills) && a.quoteId in st.quotes && a.quoteId !in st.tradeByQuote
    requires orderId in st.orders
    ensures var st' := SaveAcceptedTrade(st, a, st.orders);
      var fill := Fill(orderId, TradeId(a.quoteId, a.clientRequestId), GrainsOf(st.quotes[a.quoteId].amounts.amountPrl));
      FillsOk(st.orders.Keys, st'.trades, st'.tradeByQuote, fills + [fill])
  {
    hide GrainsOf;
    NewTrade(st, fills, a);
  }

  lemma FilledOrder(o: Order, filled: nat, o': Order, grains: nat)
    requires OrderOk(o, filled) && grains > 0
    requires o' == o.(remainingPrl := o'.remainingPrl, status := if GrainsOf(o'.remainingPrl) == 0 then Filled else PartiallyFilled)
    requires CleanAmount(o'.remainingPrl) && GrainsOf(o'.remainingPrl) + grains == GrainsOf(o.remainingPrl)
    ensures OrderOk(o', filled + grains)
  {
    hide CleanAmount, GrainsOf;
  }

  lemma OneMoreFill(fills: seq<Fill>, fill: Fill)
    ensures forall id :: FilledOf(fills + [fill], id) == FilledOf(fills, id) + if fill.orderId == id then fill.grains else 0
  {
    assert (fills + [fill])[..|fills|] == fills;
  }

  lemma LinkedAmount(st: Store, q: QuoteId)
    requires QuotesOk(st.quotes, st.quoteRequests, st.links) && q in st.links
    ensures q in st.quotes && st.links[q].amountPrl == st.quotes[q].amounts.amountPrl
    ensures CleanAmount(st.links[q].amountPrl) && GrainsOf(st.links[q].amountPrl) > 0
  {
    hide CleanAmount, GrainsOf;
  }

  lemma CleanReads(amountPrl: string)
    requires CleanAmount(amountPrl)
    ensures RepoParse(amountPrl, 8) == Ok(GrainsOf(amountPrl))
  {
  }

  lemma ReservedIs(orders: map<string, Order>, orderId: string, amountPrl: string)
    requires ReserveOrderFill(orders, orderId, amountPrl).Ok?
    ensures orderId in orders
    ensures var o := ReserveOrderFill(orders, orderId, amountPrl).value;
      && orderId in o && o == orders[orderId := o[orderId]]
      && o[orderId] == orders[orderId].(remainingPrl := o[orderId].remainingPrl, status := o[orderId].status)
  {
    hide RepoParse, RepoFormat;
  }

  lemma ReservedFill(st: Store, fills: seq<Fill>, a: Accept, now: int)
    requires FillInv(st, fills) && a.quoteId in st.links && st.links[a.quoteId].orderId in st.orders
    requires Fillable(st.orders[st.links[a.quoteId].orderId], st.links[a.quoteId].amountPrl, now)
    ensures var link := st.links[a.quoteId];
      var reserved := ReserveOrderFill(st.orders, link.orderId, link.amountPrl);
      var fill := Fill(link.orderId, TradeId(a.quoteId, a.clientRequestId), GrainsOf(link.amountPrl));
      && reserved.Ok? && RepoParse(link.amountPrl, 8) == Ok(fill.grains)
      && reserved.value.Keys == st.orders.Keys
      && OrdersOk(reserved.value, fills + [fill])
      && a.quoteId in st.quotes && link.amountPrl == st.quotes[a.quoteId].amounts.amountPrl
  {
    hide RepoParse, Fillable, CleanAmount, GrainsOf, QuotesOk, FillsOk, OrderOk, ReserveOrderFill, FilledOf;
    var link := st.links[a.quoteId];
    LinkedAmount(st, a.quoteId);
    CleanReads(link.amountPrl);
    var o := st.orders[link.orderId];
    RemainingIsClean(o, FilledOf(fills, link.orderId));
    FillNeverThrows(st.orders, link.orderId, link.amountPrl, now);
    ReservedIs(st.orders, link.orderId, link.amountPrl);
    var orders' := ReserveOrderFill(st.orders, link.orderId, link.amountPrl).value;
    FilledOrder(o, FilledOf(fills, link.orderId), orders'[link.orderId], GrainsOf(link.amountPrl));
    OneMoreFill(fills, Fill(link.orderId, TradeId(a.quoteId, a.clientRequestId), GrainsOf(link.amountPrl)));
  }

  lemma RemainingIsClean(o: Order, filled: nat)
    requires OrderOk(o, filled)
    ensures CleanAmount(o.remainingPrl)
  {
  }

  /** The prefund calls leave an order's amounts and price alone, and its status unless they close it. */
  predicate Untouched(o: Order, o': Order) {
    o'.amountPrl == o.amountPrl && o'.remainingPrl == o.remainingPrl && o'.priceUsdcPerPrl == o.priceUsdcPerPrl
    && (o'.status == o.status || o'.status.Cancelled? || o'.status.Expired?)
  }

  ghost predicate AllUntouched(before: map<string, Order>, after: map<string, Order>) {
    before.Keys == after.Keys && forall id :: id in before ==> Untouched(before[id], after[id])
  }

  lemma UntouchedTwice(a: map<string, Order>, b: map<string, Order>, c: map<string, Order>)
    requires AllUntouched(a, b) && AllUntouched(b, c)
    ensures AllUntouched(a, c)
  {
  }

  lemma ObserveTouchesNothing(orders: map<string, Order>, orderId: string, probe: Result<Proof>, reserved: bool, nowMs: int)
    ensures AllUntouched(orders, ObserveFunding(orders, orderId, probe, reserved, nowMs))
  {
    hide ParseDecimalToUnits;
  }

  lemma {:induction false} ObserveAllTouchesNothing(
    orders: map<string, Order>, listed: seq<string>, observe: string -> Result<Proof>, reserved: set<string>, nowMs: int)
    ensures AllUntouched(orders, ObserveAll(orders, listed, observe, reserved, nowMs))
  {
    if listed != [] {
      hide AllUntouched, ObserveFunding;
      var n := |listed| - 1;
      ObserveAllTouchesNothing(orders, listed[..n], observe, reserved, nowMs);
      var mid := ObserveAll(orders, listed[..n], observe, reserved, nowMs);
      ObserveTouchesNothing(mid, listed[n], observe(listed[n]), listed[n] in reserved, nowMs);
      UntouchedTwice(orders, mid, ObserveAll(orders, listed, observe, reserved, nowMs));
    }
  }

  lemma {:induction false} CutoffTouchesNothing(orders: map<string, Order>, listed: seq<string>, nowSec: int)
    ensures AllUntouched(orders, CutOffAll(orders, listed, nowSec))
  {
    if listed != [] { CutoffTouchesNothing(orders, listed[..|listed| - 1], nowSec); }
  }

  lemma RefundTouchesNothing(orders: map<string, Order>, orderId: string, nowSec: int, built: bool, refundTxid: string)
    ensures AllUntouched(orders, Kept(RequestPrefundRefund(orders, orderId, nowSec, built), orders))
    ensures AllUntouched(orders, Kept(ApplyPrefundRefunded(orders, orderId, refundTxid), orders))
  {
  }

  lemma SweepTouchesNothing(st: Store, sweepId: string, orderId: string, order: Order, tradeId: string, swept: int)
    ensures var st' := InitiateOrderSweep(st, sweepId, orderId, order, tradeId, swept).0;
      && AllUntouched(st.orders, st'.orders)
      && st' == st.(orders := st'.orders, sweeps := st'.sweeps, sweepByTrade := st'.sweepByTrade)
  {
    hide AllUntouched, ApplySweepProgress;
    ProgressTouchesNothing(st.orders, orderId, order.remainingGrains - swept);
  }

  lemma ProgressTouchesNothing(orders: map<string, Order>, orderId: string, remaining: int)
    ensures AllUntouched(orders, orders)
    ensures remaining >= 0 ==> AllUntouched(orders,
                                            Kept(ApplySweepProgress(orders, orderId, remaining, if remaining == 0 then FullySwept else PartiallySwept), orders))
  {
  }

  lemma PrefundTouchesNothing(st: Store, terms: Terms, e: Event)
    requires e.FundingObserved? || e.SweepInitiated? || e.CutoffReached? || e.RefundRequested? || e.RefundSeen?
    ensures var st' := Apply(st, terms, e).0;
      && AllUntouched(st.orders, st'.orders) && Apply(st, terms, e).1.None?
      && st' == st.(orders := st'.orders, sweeps := st'.sweeps, sweepByTrade := st'.sweepByTrade)
  {
    hide ObserveAll, CutOffAll, AllUntouched, InitiateOrderSweep, RequestPrefundRefund, ApplyPrefundRefunded, Kept;
    match e {
      case FundingObserved(_, _, _, _) => ObserveAllTouchesNothing(st.orders, e.listed, e.observe, e.reserved, e.nowMs);
      case CutoffReached(_, _) => CutoffTouchesNothing(st.orders, e.listed, e.nowSec);
      case SweepInitiated(_, _, _, _, _) => SweepTouchesNothing(st, e.sweepId, e.orderId, e.order, e.tradeId, e.swept);
      case RefundRequested(_, _, _) => RefundTouchesNothing(st.orders, e.orderId, e.nowSec, e.built, "");
      case RefundSeen(_, _) => RefundTouchesNothing(st.orders, e.orderId, 0, false, e.refundTxid);
    }
  }

  lemma UntouchedKeepsFills(st: Store, st': Store, fills: seq<Fill>)
    requires FillInv(st, fills) && AllUntouched(st.orders, st'.orders)
    requires st' == st.(orders := st'.orders, sweeps := st'.sweeps, sweepByTrade := st'.sweepByTrade)
    ensures FillInv(st', fills)
  {
    hide CleanAmount, GrainsOf, FilledOf, QuotesOk, FillsOk;
  }

  lemma StepKeepsFills(st: Store, fills: seq<Fill>, terms: Terms, e: Event)
    requires FillInv(st, fills) && Careful(st, e)
    ensures var (st', fill) := Apply(st, terms, e); FillInv(st', if fill.Some? then fills + [fill.value] else fills)
  {
    hide FillInv, CreateOrder, CreateQuote, CreateOrderQuote, AcceptQuote, AllUntouched, Kept;
    match e {
      case OrderCreated(_, _, _) => CreateKeepsFills(st, fills, e.orderId, e.draft, e.admitted);
      case QuoteAsked(_, _, _, _) => AskKeepsFills(st, fills, e.request, e.deskPrice, terms, e.now, e.admitted);
      case OrderQuoteAsked(_, _, _) => TakeKeepsFills(st, fills, e.take, terms, e.now, e.admitted);
      case QuoteAccepted(_, _, _) => AcceptKeepsFills(st, fills, e.accept, e.now, e.admitted);
      case _ =>
        PrefundTouchesNothing(st, terms, e);
        UntouchedKeepsFills(st, Apply(st, terms, e).0, fills);
    }
  }

  /** Over every run, what remains of an order and the trades filled from it add up to its amount, and no quote
      is filled twice; the status is `filled` exactly when nothing is left, until something closes the order. */
  lemma {:induction false} FillsConserve(terms: Terms, events: seq<Event>)
    requires CarefulRun(terms, events)
    ensures FillInv(Run(terms, events).0, Run(terms, events).1)
  {
    hide FillInv, Apply;
    if events != [] {
      var n := |events| - 1;
      FillsConserve(terms, events[..n]);
      StepKeepsFills(Run(terms, events[..n]).0, Run(terms, events[..n]).1, terms, events[n]);
    } else {
      EmptyIsOk();
    }
  }

  lemma EmptyIsOk()
    ensures FillInv(EMPTY, [])
  {
  }
}
