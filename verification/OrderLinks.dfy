/**
 Which price a taker's quote carries: `createOrderQuote` in services/otc-api/src/trade-service.ts under request ids
 that are used again.

 `RepeatedAskIff` is the one call; `LinkedPricesIff` says over every run when each linked quote has its order's price.
 */
module OrderLinks {
  import opened Wrappers
  import opened Amounts
  import opened Orders
  import opened OrderRuns
  import Quotes

  predicate Requested(st: Store, clientRequestId: string) {
    clientRequestId in st.quoteRequests && st.quoteRequests[clientRequestId].0 in st.quotes
  }

  /** The quote the request id made. */
  function QuoteOf(st: Store, clientRequestId: string): Quote
    requires Requested(st, clientRequestId)
  {
    st.quotes[st.quoteRequests[clientRequestId].0]
  }

  function PriceOf(quote: Quote): string {
    quote.amounts.priceUsdcPerPrl
  }

  /** `createOrderQuote` passes its own checks. */
  predicate MayTake(st: Store, take: Take, now: int, admitted: bool) {
    && admitted && PositiveAmount(take.amountPrl) && take.orderId in st.orders
    && Fillable(st.orders[take.orderId], take.amountPrl, now) && st.orders[take.orderId].makerUserId != take.takerUserId
  }

  /** Two asks make the same request: the buyer's addresses are the maker's on a buying order, the taker's on a selling one. */
  predicate SameAsk(o1: Order, t1: Take, o2: Order, t2: Take) {
    && o1.side == o2.side && Trim(t1.amountPrl) == Trim(t2.amountPrl) && t1.clientRequestId == t2.clientRequestId
    && if o1.side.BuyPrl? then o1.makerPearlAddress == o2.makerPearlAddress && o1.makerUsdcAddress == o2.makerUsdcAddress
       else t1.pearlAddress == t2.pearlAddress && t1.usdcAddress == t2.usdcAddress
  }

  /** An ask under a new request id is a new quote at the order's price, linked to the order. */
  lemma FirstAsk(st: Store, take: Take, terms: Terms, now: int, admitted: bool)
    requires QuotesOk(st.quotes, st.quoteRequests, st.links)
    requires take.clientRequestId !in st.quoteRequests && CreateOrderQuote(st, take, terms, now, admitted).Ok?
    ensures var st' := CreateOrderQuote(st, take, terms, now, admitted).value;
      && MayTake(st, take, now, admitted) && st'.orders == st.orders && Requested(st', take.clientRequestId)
      && QuotesOk(st'.quotes, st'.quoteRequests, st'.links)
      && var q := st'.quoteRequests[take.clientRequestId].0;
         && NewQuote(st, st', q, TakeRequest(st.orders[take.orderId], take), st.orders[take.orderId].priceUsdcPerPrl)
         && q in st'.links && st'.links == st.links[q := st'.links[q]] && st'.links[q].orderId == take.orderId
  {
    hide QuoteWithPrice, PositiveAmount, QuotesOk, Fillable, Trim, GrainsOf;
    var order := st.orders[take.orderId];
    TrimmedPositive(take.amountPrl);
    QuoteKeeps(st, TakeRequest(order, take), order.priceUsdcPerPrl, terms, now);
    var (st1, q) := QuoteWithPrice(st, TakeRequest(order, take), order.priceUsdcPerPrl, terms, now).value;
    LinkKeeps(st1.quotes, st1.quoteRequests, st1.links, q, Link(take.orderId, st1.quotes[q].amounts.amountPrl, take.takerUserId));
  }

  /** An ask under a used request id succeeds exactly on a request equal to the stored one, and then only moves the link. */
  lemma UsedAsk(st: Store, take: Take, terms: Terms, now: int, admitted: bool)
    requires QuotesOk(st.quotes, st.quoteRequests, st.links) && take.clientRequestId in st.quoteRequests
    ensures var r := CreateOrderQuote(st, take, terms, now, admitted);
      && (r.Ok? <==>
          MayTake(st, take, now, admitted) && st.quoteRequests[take.clientRequestId].1 == TakeRequest(st.orders[take.orderId], take))
      && Requested(st, take.clientRequestId)
      && (r.Ok? ==>
            var q := st.quoteRequests[take.clientRequestId].0;
            r.value == st.(links := st.links[q := Link(take.orderId, st.quotes[q].amounts.amountPrl, take.takerUserId)]))
  {
    hide QuoteWithPrice, PositiveAmount, QuotesOk, Fillable, Trim, GrainsOf;
    if MayTake(st, take, now, admitted) {
      var order := st.orders[take.orderId];
      TrimmedPositive(take.amountPrl);
      QuoteKeeps(st, TakeRequest(order, take), order.priceUsdcPerPrl, terms, now);
    }
    RequestedQuote(st, take.clientRequestId);
  }

  /** Once a request id was used to take an order, a second ask under it moves the quote exactly when the second order can
      be taken and both make the same request; the quote keeps the first order's price. Any other second ask throws. */
  lemma RepeatedAskIff(st: Store, first: Take, again: Take, terms: Terms, askedAt: int, now: int, admitted: bool)
    requires QuotesOk(st.quotes, st.quoteRequests, st.links)
    requires first.clientRequestId !in st.quoteRequests && again.clientRequestId == first.clientRequestId
    requires CreateOrderQuote(st, first, terms, askedAt, true).Ok?
    ensures var st1 := CreateOrderQuote(st, first, terms, askedAt, true).value;
      var r := CreateOrderQuote(st1, again, terms, now, admitted);
      && first.orderId in st.orders && Requested(st1, first.clientRequestId)
      && (r.Ok? <==>
          && MayTake(st, again, now, admitted)
          && SameAsk(st.orders[first.orderId], first, st.orders[again.orderId], again))
      && (r.Ok? ==>
            var q := st1.quoteRequests[first.clientRequestId].0;
            && q in r.value.links && r.value.links[q].orderId == again.orderId
            && r.value.quotes == st1.quotes && r.value.orders == st.orders
            && PriceOf(QuoteOf(st1, first.clientRequestId)) == st.orders[first.orderId].priceUsdcPerPrl)
  {
    hide CreateOrderQuote, QuotesOk, PositiveAmount, Fillable, Trim, GrainsOf;
    FirstAsk(st, first, terms, askedAt, true);
    UsedAsk(CreateOrderQuote(st, first, terms, askedAt, true).value, again, terms, now, admitted);
  }

  // ---- Runs ----

  /** Every linked quote has its order's price. */
  ghost predicate LinksPriced(st: Store) {
    forall q :: q in st.links ==>
      q in st.quotes && st.links[q].orderId in st.orders
      && PriceOf(st.quotes[q]) == st.orders[st.links[q].orderId].priceUsdcPerPrl
  }

  /** Orders keep their prices, and quotes and requests stay as they are. */
  ghost predicate Grows(st: Store, st': Store) {
    && (forall id :: id in st.orders ==> id in st'.orders && st'.orders[id].priceUsdcPerPrl == st.orders[id].priceUsdcPerPrl)
    && (forall q :: q in st.quotes ==> q in st'.quotes && st'.quotes[q] == st.quotes[q])
    && (forall c :: c in st.quoteRequests ==> c in st'.quoteRequests && st'.quoteRequests[c] == st.quoteRequests[c])
  }

  /** A taken order has a new request id, or one whose quote happens to have its price. */
  predicate PricedAsk(st: Store, e: Event) {
    e.OrderQuoteAsked? && e.take.orderId in st.orders && Requested(st, e.take.clientRequestId) ==>
      PriceOf(QuoteOf(st, e.take.clientRequestId)) == st.orders[e.take.orderId].priceUsdcPerPrl
  }

  /** The call links a quote to an order. */
  predicate Takes(st: Store, terms: Terms, e: Event) {
    e.OrderQuoteAsked? && CreateOrderQuote(st, e.take, terms, e.now, e.admitted).Ok?
  }

  lemma AskGrows(st: Store, terms: Terms, e: Event)
    requires QuotesOk(st.quotes, st.quoteRequests, st.links) && e.QuoteAsked?
    ensures var st' := Apply(st, terms, e).0; Grows(st, st') && st'.links == st.links && st'.orders == st.orders
  {
    hide QuoteWithPrice, PositiveAmount, QuotesOk, GrainsOf;
    if CreateQuote(st, e.request, e.deskPrice, terms, e.now, e.admitted).Ok? {
      QuoteKeeps(st, e.request, e.deskPrice, terms, e.now);
    }
  }

  lemma FirstAskGrows(st: Store, terms: Terms, e: Event)
    requires QuotesOk(st.quotes, st.quoteRequests, st.links) && Takes(st, terms, e) && e.take.clientRequestId !in st.quoteRequests
    ensures Grows(st, CreateOrderQuote(st, e.take, terms, e.now, e.admitted).value)
  {
    hide CreateOrderQuote, QuotesOk, MayTake, TakeRequest, GrainsOf;
    FirstAsk(st, e.take, terms, e.now, e.admitted);
  }

  lemma UsedAskGrows(st: Store, terms: Terms, e: Event)
    requires QuotesOk(st.quotes, st.quoteRequests, st.links) && Takes(st, terms, e) && e.take.clientRequestId in st.quoteRequests
    ensures Grows(st, CreateOrderQuote(st, e.take, terms, e.now, e.admitted).value)
  {
    hide CreateOrderQuote, QuotesOk, MayTake, TakeRequest, GrainsOf;
    UsedAsk(st, e.take, terms, e.now, e.admitted);
  }

  lemma TakeGrows(st: Store, terms: Terms, e: Event)
    requires QuotesOk(st.quotes, st.quoteRequests, st.links) && e.OrderQuoteAsked?
    ensures Grows(st, Apply(st, terms, e).0)
    ensures !Takes(st, terms, e) ==> Apply(st, terms, e).0 == st
  {
    hide CreateOrderQuote, QuotesOk, Grows;
    if Takes(st, terms, e) {
      if e.take.clientRequestId in st.quoteRequests {
        UsedAskGrows(st, terms, e);
      } else {
        FirstAskGrows(st, terms, e);
      }
    } else {
      SamePrice(st, st, "");
    }
  }

  lemma AcceptGrows(st: Store, terms: Terms, e: Event)
    requires e.QuoteAccepted?
    ensures var st' := Apply(st, terms, e).0; Grows(st, st') && st'.links == st.links
  {
    hide Fillable, RepoParse, ReserveOrderFill, Grows;
    var st' := Apply(st, terms, e).0;
    if e.accept.quoteId in st.links {
      var link := st.links[e.accept.quoteId];
      if ReserveOrderFill(st.orders, link.orderId, link.amountPrl).Ok? {
        ReservedIs(st.orders, link.orderId, link.amountPrl);
        SamePrice(st, st', link.orderId);
      }
    }
    SamePrice(st, st', "");
  }

  lemma SamePrice(st: Store, st': Store, orderId: string)
    requires st'.quotes == st.quotes && st'.quoteRequests == st.quoteRequests
    ensures st'.orders == st.orders ==> Grows(st, st')
    ensures (
        && orderId in st.orders && orderId in st'.orders && st'.orders == st.orders[orderId := st'.orders[orderId]]
        && st'.orders[orderId].priceUsdcPerPrl == st.orders[orderId].priceUsdcPerPrl) ==> Grows(st, st')
  {
  }

  lemma CreateGrows(st: Store, terms: Terms, e: Event)
    requires e.OrderCreated? && Careful(st, e)
    ensures var st' := Apply(st, terms, e).0; Grows(st, st') && st'.links == st.links
  {
    hide PositiveAmount, Trim;
  }

  lemma PrefundGrows(st: Store, terms: Terms, e: Event)
    requires e.FundingObserved? || e.SweepInitiated? || e.CutoffReached? || e.RefundRequested? || e.RefundSeen?
    ensures var st' := Apply(st, terms, e).0; Grows(st, st') && st'.links == st.links
  {
    hide Apply;
    PrefundTouchesNothing(st, terms, e);
  }

  /** Nothing but an ask on an order changes the links, and every call lets the tables grow. */
  lemma StepGrows(st: Store, terms: Terms, e: Event)
    requires QuotesOk(st.quotes, st.quoteRequests, st.links) && Careful(st, e)
    ensures var st' := Apply(st, terms, e).0; Grows(st, st') && (!Takes(st, terms, e) ==> st'.links == st.links)
  {
    hide Apply, Grows, Takes, QuotesOk;
    match e {
      case OrderCreated(_, _, _) => CreateGrows(st, terms, e);
      case QuoteAsked(_, _, _, _) => AskGrows(st, terms, e);
      case OrderQuoteAsked(_, _, _) => TakeGrows(st, terms, e);
      case QuoteAccepted(_, _, _) => AcceptGrows(st, terms, e);
      case _ => PrefundGrows(st, terms, e);
    }
  }

  lemma PricesKeptBy(st: Store, st': Store)
    requires LinksPriced(st) && Grows(st, st') && st'.links == st.links
    ensures LinksPriced(st')
  {
  }

  lemma OneLinkMore(st: Store, st': Store, q: QuoteId)
    requires LinksPriced(st) && Grows(st, st') && q in st'.links && st'.links == st.links[q := st'.links[q]]
    requires q in st'.quotes && st'.links[q].orderId in st'.orders
    ensures LinksPriced(st') <==> PriceOf(st'.quotes[q]) == st'.orders[st'.links[q].orderId].priceUsdcPerPrl
  {
    hide PriceOf;
  }

  /** One call keeps every linked quote at its order's price exactly when it takes no order under a used request id whose
      quote has another price. */
  lemma StepPricedIff(st: Store, terms: Terms, e: Event)
    requires QuotesOk(st.quotes, st.quoteRequests, st.links) && Careful(st, e) && LinksPriced(st)
    ensures LinksPriced(Apply(st, terms, e).0) <==> (Takes(st, terms, e) ==> PricedAsk(st, e))
  {
    hide CreateOrderQuote, Grows, LinksPriced, QuotesOk, PositiveAmount, Fillable, TakeRequest, GrainsOf;
    var st' := Apply(st, terms, e).0;
    StepGrows(st, terms, e);
    if !Takes(st, terms, e) {
      PricesKeptBy(st, st');
    } else {
      if e.take.clientRequestId in st.quoteRequests {
        UsedAsk(st, e.take, terms, e.now, e.admitted);
      } else {
        FirstAsk(st, e.take, terms, e.now, e.admitted);
      }
      OneLinkMore(st, st', st'.quoteRequests[e.take.clientRequestId].0);
    }
  }

  lemma RunQuotesOk(terms: Terms, events: seq<Event>)
    requires CarefulRun(terms, events)
    ensures var st := Run(terms, events).0; QuotesOk(st.quotes, st.quoteRequests, st.links)
  {
    hide Run, OrdersOk, QuotesOk, FillsOk;
    FillsConserve(terms, events);
  }

  ghost predicate PricedAfter(terms: Terms, events: seq<Event>, n: nat)
    requires n <= |events|
  {
    LinksPriced(Run(terms, events[..n]).0)
  }

  predicate TakesAtPrice(terms: Terms, events: seq<Event>, n: nat)
    requires n < |events|
  {
    var st := Run(terms, events[..n]).0;
    Takes(st, terms, events[n]) ==> PricedAsk(st, events[n])
  }

  lemma PricedNext(terms: Terms, events: seq<Event>, n: nat)
    requires CarefulRun(terms, events) && n < |events| && PricedAfter(terms, events, n)
    ensures PricedAfter(terms, events, n + 1) <==> TakesAtPrice(terms, events, n)
  {
    hide Apply, Takes, PricedAsk, QuotesOk, Careful, LinksPriced;
    CarefulPrefix(terms, events, n);
    RunQuotesOk(terms, events[..n]);
    StepPricedIff(Run(terms, events[..n]).0, terms, events[n]);
    assert events[..n + 1][..n] == events[..n];
  }

  lemma {:induction false} PricedTo(terms: Terms, events: seq<Event>, n: nat)
    requires CarefulRun(terms, events) && n <= |events|
    requires forall k :: 0 <= k < n ==> TakesAtPrice(terms, events, k)
    ensures PricedAfter(terms, events, n)
  {
    hide TakesAtPrice;
    if n == 0 {
      NothingLinked();
    } else {
      PricedTo(terms, events, n - 1);
      PricedNext(terms, events, n - 1);
    }
  }

  /** All along a run every linked quote has its order's price, exactly when no call takes an order under a used request
      id whose quote has another price. */
  lemma LinkedPricesIff(terms: Terms, events: seq<Event>)
    requires CarefulRun(terms, events)
    ensures (forall n :: 0 <= n <= |events| ==> PricedAfter(terms, events, n)) <==>
      (forall n :: 0 <= n < |events| ==> TakesAtPrice(terms, events, n))
  {
    hide PricedAfter, TakesAtPrice;
    if forall n :: 0 <= n <= |events| ==> PricedAfter(terms, events, n) {
      forall n | 0 <= n < |events|
        ensures TakesAtPrice(terms, events, n)
      {
        PricedNext(terms, events, n);
      }
    }
    if forall n :: 0 <= n < |events| ==> TakesAtPrice(terms, events, n) {
      forall n | 0 <= n <= |events|
        ensures PricedAfter(terms, events, n)
      {
        PricedTo(terms, events, n);
      }
    }
  }

  lemma NothingLinked()
    ensures LinksPriced(EMPTY)
  {
  }

  // ---- In terms of the calls alone ----

  function RequestId(e: Event): Option<string> {
    match e
    case QuoteAsked(request, _, _, _) => Some(request.clientRequestId)
    case OrderQuoteAsked(take, _, _) => Some(take.clientRequestId)
    case _ => None
  }

  /** No request id is asked for two orders, nor at the desk price before it is asked for an order. */
  predicate OneOrderPerRequest(events: seq<Event>) {
    forall i, j | 0 <= i < j < |events| && events[j].OrderQuoteAsked? ::
      RequestId(events[i]) == RequestId(events[j]) ==>
        events[i].OrderQuoteAsked? && events[i].take.orderId == events[j].take.orderId
  }

  /** The call made the request's quote: at its order's price, if it was for an order. */
  predicate MadeBy(st: Store, c: string, e: Event) {
    && RequestId(e) == Some(c) && Requested(st, c)
    && (e.OrderQuoteAsked? ==>
          e.take.orderId in st.orders && PriceOf(QuoteOf(st, c)) == st.orders[e.take.orderId].priceUsdcPerPrl)
  }

  ghost predicate AllMade(st: Store, events: seq<Event>) {
    forall c :: c in st.quoteRequests ==> exists i :: 0 <= i < |events| && MadeBy(st, c, events[i])
  }

  lemma StillMade(st: Store, st': Store, c: string, e: Event)
    requires Grows(st, st') && c in st.quoteRequests && MadeBy(st, c, e)
    ensures MadeBy(st', c, e)
  {
  }

  lemma MadeByAsk(st: Store, terms: Terms, e: Event, c: string)
    requires QuotesOk(st.quotes, st.quoteRequests, st.links) && e.QuoteAsked?
    requires c !in st.quoteRequests && c in Apply(st, terms, e).0.quoteRequests
    ensures MadeBy(Apply(st, terms, e).0, c, e)
  {
    hide QuotesOk, GrainsOf, PositiveAmount, QuoteWithPrice;
    if CreateQuote(st, e.request, e.deskPrice, terms, e.now, e.admitted).Ok? {
      QuoteKeeps(st, e.request, e.deskPrice, terms, e.now);
    }
  }

  lemma MadeByTake(st: Store, terms: Terms, e: Event, c: string)
    requires QuotesOk(st.quotes, st.quoteRequests, st.links) && e.OrderQuoteAsked?
    requires c !in st.quoteRequests && c in Apply(st, terms, e).0.quoteRequests
    ensures MadeBy(Apply(st, terms, e).0, c, e)
  {
    hide QuotesOk, GrainsOf, PositiveAmount, Fillable, TakeRequest, CreateOrderQuote;
    if e.take.clientRequestId in st.quoteRequests {
      UsedAsk(st, e.take, terms, e.now, e.admitted);
    } else if Takes(st, terms, e) {
      FirstAsk(st, e.take, terms, e.now, e.admitted);
    }
  }

  lemma OthersRequestNothing(st: Store, terms: Terms, e: Event)
    requires !e.QuoteAsked? && !e.OrderQuoteAsked?
    ensures Apply(st, terms, e).0.quoteRequests == st.quoteRequests
  {
    hide Fillable, ReserveOrderFill, RepoParse, PositiveAmount, NewOrder;
    if !e.QuoteAccepted? && !e.OrderCreated? {
      PrefundTouchesNothing(st, terms, e);
    }
  }

  /** A request the call adds is its own. */
  lemma NewlyMade(st: Store, terms: Terms, e: Event, c: string)
    requires QuotesOk(st.quotes, st.quoteRequests, st.links)
    requires c !in st.quoteRequests && c in Apply(st, terms, e).0.quoteRequests
    ensures MadeBy(Apply(st, terms, e).0, c, e)
  {
    hide Apply, MadeBy, QuotesOk;
    match e {
      case QuoteAsked(_, _, _, _) => MadeByAsk(st, terms, e, c);
      case OrderQuoteAsked(_, _, _) => MadeByTake(st, terms, e, c);
      case _ => OthersRequestNothing(st, terms, e);
    }
  }

  lemma {:induction false} RunMade(terms: Terms, events: seq<Event>)
    requires CarefulRun(terms, events)
    ensures AllMade(Run(terms, events).0, events)
  {
    hide Apply, MadeBy, Grows, QuotesOk, Careful;
    if events != [] {
      var last := |events| - 1;
      var st := Run(terms, events[..last]).0;
      RunMade(terms, events[..last]);
      RunQuotesOk(terms, events[..last]);
      StepGrows(st, terms, events[last]);
      var st' := Run(terms, events).0;
      forall c | c in st'.quoteRequests
        ensures exists i :: 0 <= i < |events| && MadeBy(st', c, events[i])
      {
        if c in st.quoteRequests {
          var i :| 0 <= i < last && MadeBy(st, c, events[..last][i]);
          StillMade(st, st', c, events[i]);
        } else {
          NewlyMade(st, terms, events[last], c);
        }
      }
    }
  }

  /** In every run in which no request id is asked for two orders, nor first at the desk price, every quote linked to an
      order has the order's price. */
  lemma {:induction false} LinkedPrices(terms: Terms, events: seq<Event>)
    requires CarefulRun(terms, events) && OneOrderPerRequest(events)
    ensures LinksPriced(Run(terms, events).0)
  {
    hide Apply, MadeBy, QuotesOk, Careful, LinksPriced, Takes, PricedAsk;
    if events == [] {
      NothingLinked();
    } else {
      var last := |events| - 1;
      var st := Run(terms, events[..last]).0;
      LinkedPrices(terms, events[..last]);
      RunMade(terms, events[..last]);
      RunQuotesOk(terms, events[..last]);
      if events[last].OrderQuoteAsked? && events[last].take.clientRequestId in st.quoteRequests {
        var i :| 0 <= i < last && MadeBy(st, events[last].take.clientRequestId, events[..last][i]);
        MadeAtItsPrice(st, events[i], events[last]);
      }
      NewIsPriced(st, events[last]);
      StepPricedIff(st, terms, events[last]);
    }
  }

  lemma MadeAtItsPrice(st: Store, maker: Event, e: Event)
    requires e.OrderQuoteAsked? && MadeBy(st, e.take.clientRequestId, maker)
    requires RequestId(maker) == RequestId(e) ==> maker.OrderQuoteAsked? && maker.take.orderId == e.take.orderId
    ensures PricedAsk(st, e)
  {
  }

  lemma NewIsPriced(st: Store, e: Event)
    ensures !e.OrderQuoteAsked? || e.take.clientRequestId !in st.quoteRequests ==> PricedAsk(st, e)
  {
  }
}
