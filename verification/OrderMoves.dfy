/**
 When a call of the order book takes effect and what it then writes, said of the call and the book before it
 (services/otc-api/src/trade-service.ts and repository.ts).

 Main results: `AcceptedIff` (when a quote gets its trade), `TakenIff` and `AskedIff` (when a quote is made, what it
 charges and when it expires) and `CreatedIff`.
 */
module OrderMoves {
  import opened Wrappers
  import opened Amounts
  import opened Orders
  import opened OrderRuns
  import Quotes

  // ---- The conditions ----

  /** So many grains, more than none. */
  predicate SomeGrains(amountPrl: string) {
    ParseDecimalToUnits(amountPrl, 8).Ok? && GrainsOf(amountPrl) >= 1
  }

  /** The order is open, has not expired, and the amount is between its minimum and what is left. */
  predicate CanTake(o: Order, amountPrl: string, now: int) {
    && (o.status == Open || o.status == PartiallyFilled)
    && (o.expiresAt.Some? ==> now < o.expiresAt.value)
    && ParseDecimalToUnits(amountPrl, 8).Ok? && ParseDecimalToUnits(o.remainingPrl, 8).Ok?
    && GrainsOf(amountPrl) <= GrainsOf(o.remainingPrl)
    && (o.minFillPrl.Some? ==> ParseDecimalToUnits(o.minFillPrl.value, 8).Ok? && GrainsOf(o.minFillPrl.value) <= GrainsOf(amountPrl))
  }

  lemma FillableIs(o: Order, amountPrl: string, now: int)
    ensures Fillable(o, amountPrl, now) <==> CanTake(o, amountPrl, now)
  {
    hide ParseDecimalToUnits;
  }

  /** The quote is there, has not expired and has no trade; the call is new and admitted; and the order it is linked to, if
      any, can still be filled by its amount. */
  predicate MayAccept(st: Store, a: Accept, now: int, admitted: bool) {
    && admitted && a.clientRequestId !in st.tradeRequests
    && a.quoteId in st.quotes && now < st.quotes[a.quoteId].expiresAt && a.quoteId !in st.tradeByQuote
    && (a.quoteId in st.links ==>
          var link := st.links[a.quoteId];
          link.orderId in st.orders && CanTake(st.orders[link.orderId], link.amountPrl, now))
  }

  /** The order with the grains taken off its remainder, and a status that says whether any are left. */
  predicate FilledBy(o: Order, o': Order, grains: nat) {
    && o' == o.(remainingPrl := o'.remainingPrl, status := o'.status)
    && GrainsOf(o'.remainingPrl) + grains == GrainsOf(o.remainingPrl)
    && (o'.status == Filled <==> GrainsOf(o'.remainingPrl) == 0) && (o'.status == PartiallyFilled <==> GrainsOf(o'.remainingPrl) > 0)
  }

  /** The quote has its trade under the call's id, of the quote's amount. */
  predicate Traded(st: Store, st': Store, a: Accept)
    requires a.quoteId in st.quotes
  {
    var tradeId := TradeId(a.quoteId, a.clientRequestId);
    && st' == st.(orders := st'.orders, trades := st'.trades, tradeByQuote := st'.tradeByQuote, tradeRequests := st'.tradeRequests)
    && st'.trades == st.trades[tradeId := Trade(a.quoteId, st.quotes[a.quoteId].amounts.amountPrl)]
    && st'.tradeByQuote == st.tradeByQuote[a.quoteId := tradeId]
    && st'.tradeRequests == st.tradeRequests[a.clientRequestId := (tradeId, a.details)]
  }

  /** The order the quote is linked to, if any, is filled by the quote's amount, and the fill reported. */
  predicate Reserved(st: Store, st': Store, a: Accept, fill: Option<Fill>) {
    if a.quoteId !in st.links then st'.orders == st.orders && fill == None
    else
      var link := st.links[a.quoteId];
      && fill == Some(Fill(link.orderId, TradeId(a.quoteId, a.clientRequestId), GrainsOf(link.amountPrl)))
      && link.orderId in st.orders && link.orderId in st'.orders && st'.orders == st.orders[link.orderId := st'.orders[link.orderId]]
      && FilledBy(st.orders[link.orderId], st'.orders[link.orderId], GrainsOf(link.amountPrl))
  }

  // ---- Accepting ----

  lemma ReserveFills(st: Store, fills: seq<Fill>, a: Accept, now: int)
    requires FillInv(st, fills) && a.quoteId in st.links && st.links[a.quoteId].orderId in st.orders
    requires Fillable(st.orders[st.links[a.quoteId].orderId], st.links[a.quoteId].amountPrl, now)
    ensures var link := st.links[a.quoteId];
      var reserved := ReserveOrderFill(st.orders, link.orderId, link.amountPrl);
      && reserved.Ok? && link.orderId in reserved.value && RepoParse(link.amountPrl, 8) == Ok(GrainsOf(link.amountPrl))
      && reserved.value == st.orders[link.orderId := reserved.value[link.orderId]]
      && FilledBy(st.orders[link.orderId], reserved.value[link.orderId], GrainsOf(link.amountPrl))
  {
    hide RepoParse, Fillable, CleanAmount, GrainsOf, QuotesOk, FillsOk, OrderOk, ReserveOrderFill, FilledOf;
    var link := st.links[a.quoteId];
    LinkedAmount(st, a.quoteId);
    CleanReads(link.amountPrl);
    RemainingIsClean(st.orders[link.orderId], FilledOf(fills, link.orderId));
    FillNeverThrows(st.orders, link.orderId, link.amountPrl, now);
    ReservedIs(st.orders, link.orderId, link.amountPrl);
  }

  lemma AcceptsWhen(st: Store, fills: seq<Fill>, a: Accept, now: int)
    requires FillInv(st, fills) && MayAccept(st, a, now, true)
    ensures var r := AcceptQuote(st, a, now, true);
      r.Ok? && Traded(st, r.value.0, a) && Reserved(st, r.value.0, a, r.value.1)
  {
    hide RepoParse, Fillable, CanTake, FillInv, ReserveOrderFill, GrainsOf, FilledBy;
    if a.quoteId in st.links {
      FillableIs(st.orders[st.links[a.quoteId].orderId], st.links[a.quoteId].amountPrl, now);
      ReserveFills(st, fills, a, now);
    }
  }

  lemma RefusesWhen(st: Store, a: Accept, now: int, admitted: bool)
    requires !MayAccept(st, a, now, admitted)
    ensures var r := AcceptQuote(st, a, now, admitted); r.Ok? ==> r.value == (st, None)
  {
    hide RepoParse, Fillable, CanTake, ReserveOrderFill;
    if a.quoteId in st.links && st.links[a.quoteId].orderId in st.orders {
      FillableIs(st.orders[st.links[a.quoteId].orderId], st.links[a.quoteId].amountPrl, now);
    }
  }

  /** A quote gets a trade exactly when it may, which is before it expires and once; the trade takes its grains off the
      order linked to the quote.  Any other call changes nothing. */
  lemma AcceptedIff(st: Store, fills: seq<Fill>, terms: Terms, e: Event)
    requires FillInv(st, fills) && e.QuoteAccepted?
    ensures var a, (st', fill) := e.accept, Apply(st, terms, e);
      && (MayAccept(st, a, e.now, e.admitted) <==> a.quoteId !in st.tradeByQuote && a.quoteId in st'.tradeByQuote)
      && (!MayAccept(st, a, e.now, e.admitted) ==> st' == st && fill == None)
      && (MayAccept(st, a, e.now, e.admitted) ==> Traded(st, st', a) && Reserved(st, st', a, fill))
  {
    hide AcceptQuote, FillInv, CanTake, Reserved;
    if MayAccept(st, e.accept, e.now, e.admitted) {
      AcceptsWhen(st, fills, e.accept, e.now);
    } else {
      RefusesWhen(st, e.accept, e.now, e.admitted);
    }
  }

  /** A call is answered without an error exactly when it may be accepted now, or repeats one that was: the same quote and
      details under the same id. */
  lemma AnsweredIff(st: Store, fills: seq<Fill>, a: Accept, now: int, admitted: bool)
    requires FillInv(st, fills)
    ensures AcceptQuote(st, a, now, admitted).Ok? <==>
      || MayAccept(st, a, now, admitted)
      || (a.clientRequestId in st.tradeRequests
          && st.tradeRequests[a.clientRequestId].0.quoteId == a.quoteId && st.tradeRequests[a.clientRequestId].1 == a.details)
  {
    hide FillInv, CanTake, Reserved, ReserveOrderFill, RepoParse, Fillable;
    if MayAccept(st, a, now, admitted) {
      AcceptsWhen(st, fills, a, now);
    } else if a.quoteId in st.links && st.links[a.quoteId].orderId in st.orders {
      FillableIs(st.orders[st.links[a.quoteId].orderId], st.links[a.quoteId].amountPrl, now);
    }
  }

  // ---- Quotes ----

  /** One new quote for the request, that charges its amount at the price and expires after the time a quote is good for. */
  ghost predicate Quoted(st: Store, st': Store, q: QuoteId, request: QuoteRequest, grains: nat, price: string, terms: Terms, now: int) {
    && q !in st.quotes && q in st'.quotes && st'.quotes == st.quotes[q := st'.quotes[q]]
    && st'.quoteRequests == st.quoteRequests[request.clientRequestId := (q, request)]
    && q == QuoteId(request.clientRequestId, request.side, st'.quotes[q].amounts.amountPrl)
    && st'.quotes[q].side == request.side && st'.quotes[q].expiresAt == now + terms.quoteTtl
    && Quotes.Charges(st'.quotes[q].amounts, grains, price, terms.feeBps)
  }

  lemma NewRequestQuoted(st: Store, request: QuoteRequest, price: string, terms: Terms, now: int)
    requires QuotesOk(st.quotes, st.quoteRequests, st.links) && PositiveAmount(request.amountPrl)
    requires request.clientRequestId !in st.quoteRequests
    ensures var r := QuoteWithPrice(st, request, price, terms, now);
      && (r.Ok? <==> ParseDecimalToUnits(price, 6).Ok?)
      && (r.Ok? ==>
            && r.value.0 == st.(quotes := r.value.0.quotes, quoteRequests := r.value.0.quoteRequests)
            && request.clientRequestId in r.value.0.quoteRequests && r.value.0.quoteRequests[request.clientRequestId] == (r.value.1, request)
            && r.value.1 in r.value.0.quotes
            && Quoted(st, r.value.0, r.value.1, request, GrainsOf(request.amountPrl), price, terms, now))
  {
    hide Quotes.CalculateQuoteAmounts, Quotes.Charges, QuotesOk, ParseDecimalToUnits;
    Quotes.QuoteReadsBack(request.amountPrl, price, terms.feeBps);
    QuoteKeeps(st, request, price, terms, now);
  }

  /** A request under a new id is quoted at the desk's price exactly when it is admitted and amount and price can be read. */
  lemma AskedIff(st: Store, terms: Terms, e: Event)
    requires QuotesOk(st.quotes, st.quoteRequests, st.links) && e.QuoteAsked? && e.request.clientRequestId !in st.quoteRequests
    ensures var st', c := Apply(st, terms, e).0, e.request.clientRequestId;
      && (c in st'.quoteRequests <==> e.admitted && SomeGrains(e.request.amountPrl) && ParseDecimalToUnits(e.deskPrice, 6).Ok?)
      && (c !in st'.quoteRequests ==> st' == st)
      && (c in st'.quoteRequests ==>
            && st' == st.(quotes := st'.quotes, quoteRequests := st'.quoteRequests)
            && Quoted(st, st', st'.quoteRequests[c].0, e.request, GrainsOf(e.request.amountPrl), e.deskPrice, terms, e.now))
  {
    hide QuoteWithPrice, Quoted, QuotesOk, ParseDecimalToUnits;
    if PositiveAmount(e.request.amountPrl) {
      NewRequestQuoted(st, e.request, e.deskPrice, terms, e.now);
    }
  }

  /** The taker may take the order: it can be filled by the amount, and is not the taker's own. */
  predicate MayAsk(st: Store, take: Take, now: int, admitted: bool) {
    && admitted && SomeGrains(take.amountPrl) && take.orderId in st.orders
    && CanTake(st.orders[take.orderId], take.amountPrl, now)
    && st.orders[take.orderId].makerUserId != take.takerUserId
  }

  /** The request made of a take: the buyer of PRL is the maker of a buy order and the taker of a sell order. */
  predicate RequestOf(request: QuoteRequest, o: Order, take: Take) {
    && request.side == o.side && request.clientRequestId == take.clientRequestId && request.amountPrl == Trim(take.amountPrl)
    && (o.side == BuyPrl ==> request.buyerPearlAddress == o.makerPearlAddress && request.usdcRefundAddress == o.makerUsdcAddress)
    && (o.side == SellPrl ==> request.buyerPearlAddress == take.pearlAddress && request.usdcRefundAddress == take.usdcAddress)
  }

  lemma TrimmedGrains(amountPrl: string)
    requires PositiveAmount(amountPrl)
    ensures PositiveAmount(Trim(amountPrl)) && GrainsOf(Trim(amountPrl)) == GrainsOf(amountPrl)
  {
    hide ParseDecimalToUnits, RepoParse, Trim;
    CleanTrim(amountPrl);
  }

  /** A take under a new id is quoted at the order's price, and linked to the order and its taker, exactly when the taker
      may take the order and its price can be read. */
  lemma TakenIff(st: Store, terms: Terms, e: Event)
    requires QuotesOk(st.quotes, st.quoteRequests, st.links) && e.OrderQuoteAsked? && e.take.clientRequestId !in st.quoteRequests
    ensures var st', take := Apply(st, terms, e).0, e.take;
      && (take.clientRequestId in st'.quoteRequests <==>
            MayAsk(st, take, e.now, e.admitted) && ParseDecimalToUnits(st.orders[take.orderId].priceUsdcPerPrl, 6).Ok?)
      && (take.clientRequestId !in st'.quoteRequests ==> st' == st)
      && (take.clientRequestId in st'.quoteRequests ==>
            var (q, request) := st'.quoteRequests[take.clientRequestId];
            && st' == st.(quotes := st'.quotes, quoteRequests := st'.quoteRequests, links := st'.links)
            && RequestOf(request, st.orders[take.orderId], take)
            && Quoted(st, st', q, request, GrainsOf(take.amountPrl), st.orders[take.orderId].priceUsdcPerPrl, terms, e.now)
            && st'.links == st.links[q := Link(take.orderId, st'.quotes[q].amounts.amountPrl, take.takerUserId)])
  {
    hide QuoteWithPrice, QuotesOk, ParseDecimalToUnits, Fillable, Trim, CanTake;
    var take := e.take;
    if take.orderId in st.orders {
      var order := st.orders[take.orderId];
      FillableIs(order, take.amountPrl, e.now);
      if PositiveAmount(take.amountPrl) {
        TrimmedGrains(take.amountPrl);
        NewRequestQuoted(st, TakeRequest(order, take), order.priceUsdcPerPrl, terms, e.now);
      }
    }
  }

  // ---- Orders ----

  predicate HasMinimum(draft: Order) {
    draft.minFillPrl.Some? && draft.minFillPrl.value != ""
  }

  /** An order as it is first stored: open, whole and unfunded, with its texts trimmed. */
  predicate NewlyOpen(o: Order, draft: Order) {
    && o.makerUserId == draft.makerUserId && o.side == draft.side && o.makerPearlAddress == Trim(draft.makerPearlAddress)
    && o.makerUsdcAddress == draft.makerUsdcAddress && o.expiresAt == draft.expiresAt
    && o.status == Open && o.amountPrl == o.remainingPrl == Trim(draft.amountPrl) && GrainsOf(o.remainingPrl) == GrainsOf(draft.amountPrl)
    && o.priceUsdcPerPrl == Trim(draft.priceUsdcPerPrl)
    && (o.minFillPrl.Some? <==> HasMinimum(draft)) && (o.minFillPrl.Some? ==> o.minFillPrl.value == Trim(draft.minFillPrl.value))
    && o.prefundMode == draft.prefundMode
    && (o.prefundMode.Some? ==> o.prefundState == PendingFunding && o.refundAfter == draft.refundAfter)
    && (o.prefundMode.None? ==> o.prefundState == NoPrefund && o.refundAfter == None)
    && o.fundedOutpoint == None && o.fundedGrains == 0 && o.remainingGrains == 0 && o.refundTxid == None
  }

  /** An order is created exactly when it is admitted, its amounts are positive and only a seller prefunds. */
  lemma CreatedIff(st: Store, terms: Terms, e: Event)
    requires e.OrderCreated? && e.orderId !in st.orders
    ensures var st', draft := Apply(st, terms, e).0, e.draft;
      && (e.orderId in st'.orders <==>
            && e.admitted && SomeGrains(draft.amountPrl) && (HasMinimum(draft) ==> SomeGrains(draft.minFillPrl.value))
            && (draft.prefundMode.Some? ==> draft.side == SellPrl))
      && (e.orderId !in st'.orders ==> st' == st)
      && (e.orderId in st'.orders ==>
            && st' == st.(orders := st.orders[e.orderId := st'.orders[e.orderId]])
            && NewlyOpen(st'.orders[e.orderId], draft))
  {
    hide ParseDecimalToUnits, Trim;
    if PositiveAmount(e.draft.amountPrl) {
      TrimmedGrains(e.draft.amountPrl);
    }
  }
}
