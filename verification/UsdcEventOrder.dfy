/**
 What the cached state of a trade says of its events: packages/usdc-escrow-client/src/events.ts, in terms of blocks, log
 indexes and kinds of event.

 `NormalizedIsLatest` and `CachedIsLatest`: each field of a state was reported by an event of the trade that no other event
 reporting it follows on the chain.
 */
module UsdcEventOrder {
  import opened Wrappers
  import opened Sorting
  import opened UsdcEvents
  import opened UsdcEventStore

  /** Creation comes first, then the deposit, then whatever ends the trade. */
  function Phase(e: TradeEvent): nat {
    if e.detail.CreatedDetail? then 0 else if e.detail.DepositedDetail? then 1 else 2
  }

  /** `f` comes after `e`: in a later block, later in the block, or at the same place in a later phase. */
  predicate Follows(e: TradeEvent, f: TradeEvent) {
    || f.blockNumber > e.blockNumber
    || (f.blockNumber == e.blockNumber && f.logIndex > e.logIndex)
    || (f.blockNumber == e.blockNumber && f.logIndex == e.logIndex && Phase(f) > Phase(e))
  }

  predicate Of(events: seq<TradeEvent>, k: string, e: TradeEvent) {
    e in events && e.tradeKey == k
  }

  /** The trade's event that reported the field last said this; without such an event the field is absent. */
  ghost predicate LastSaid<T>(events: seq<TradeEvent>, k: string, field: TradeEvent -> Option<T>, v: Option<T>) {
    if v.None? then forall e :: Of(events, k, e) ==> field(e).None?
    else exists e :: Of(events, k, e) && field(e) == v && forall f :: Of(events, k, f) && field(f).Some? ==> !Follows(e, f)
  }

  predicate StatusSays(status: EventName, detail: Detail) {
    match detail
    case CreatedDetail(_, _, _, _, _) => status == TradeCreated
    case DepositedDetail(_, _) => status == Deposited
    case ReleasedDetail(_, _, _) => status == Released
    case RefundedDetail(_, _) => status == Refunded
    case CancelledDetail => status == Cancelled
  }

  /** The state carries the last event's own fields. */
  predicate EndsAt(s: TradeState, last: TradeEvent) {
    && s.network == last.network && s.chainId == last.chainId && s.contractAddress == last.contractAddress
    && s.tradeKey == last.tradeKey && s.txHash == last.txHash && s.blockNumber == last.blockNumber
    && s.confirmations == last.confirmations && s.observedAt == last.observedAt
    && StatusSays(s.status, last.detail)
    && s.sourceEventId == EventId(last.chainId, last.tradeKey, s.status, last.txHash, last.logIndex)
  }

  function TxOfKind(status: EventName): TradeEvent -> Option<string> {
    (e: TradeEvent) => if StatusSays(status, e.detail) then Some(e.txHash) else None
  }

  /** No event of the trade follows the one the state ends at, and each other field was last said by some event of it. */
  ghost predicate IsLatest(events: seq<TradeEvent>, k: string, s: TradeState) {
    && (exists last :: Of(events, k, last) && EndsAt(s, last) && forall f :: Of(events, k, f) ==> !Follows(last, f))
    && LastSaid(events, k, BlockHash, s.blockHash)
    && LastSaid(events, k, Buyer, s.buyer) && LastSaid(events, k, Seller, s.seller) && LastSaid(events, k, Payer, s.payer)
    && LastSaid(events, k, Amount, s.amountMicros) && LastSaid(events, k, Fee, s.feeMicros)
    && LastSaid(events, k, Expiry, s.expiryUnixSeconds)
    && LastSaid(events, k, SellerAmount, s.sellerAmountMicros) && LastSaid(events, k, FeeAmount, s.feeAmountMicros)
    && LastSaid(events, k, TxOfKind(Deposited), s.depositTxHash) && LastSaid(events, k, TxOfKind(Released), s.releaseTxHash)
    && LastSaid(events, k, TxOfKind(Refunded), s.refundTxHash) && LastSaid(events, k, TxOfKind(Cancelled), s.cancelledTxHash)
  }

  lemma FollowsIsLess(e: TradeEvent, f: TradeEvent)
    ensures Follows(e, f) <==> Less(EventKey(e), EventKey(f))
  {
  }

  lemma {:induction false} LatestAt<T>(sorted: seq<TradeEvent>, field: TradeEvent -> Option<T>)
    ensures Latest(sorted, field).None? ==> forall i :: 0 <= i < |sorted| ==> field(sorted[i]).None?
    ensures Latest(sorted, field).Some? ==>
      exists i :: 0 <= i < |sorted| && field(sorted[i]) == Latest(sorted, field) && forall j :: i < j < |sorted| ==> field(sorted[j]).None?
  {
    if sorted != [] && field(sorted[|sorted| - 1]).None? {
      var n := |sorted| - 1;
      LatestAt(sorted[..n], field);
      if Latest(sorted, field).Some? {
        var i :| 0 <= i < n && field(sorted[..n][i]) == Latest(sorted, field) && forall j :: i < j < n ==> field(sorted[..n][j]).None?;
        assert field(sorted[i]) == Latest(sorted, field);
        assert forall j :: i < j < n ==> sorted[..n][j] == sorted[j];
      }
    }
  }

  /** In sorted order the last that reports a field is followed by none that does. */
  lemma LatestIsLastSaid<T>(events: seq<TradeEvent>, k: string, sorted: seq<TradeEvent>, field: TradeEvent -> Option<T>)
    requires Sorted(sorted, EventKey) && forall e :: e in sorted <==> Of(events, k, e)
    ensures LastSaid(events, k, field, Latest(sorted, field))
  {
    hide EventKey, Less, Latest, Of, Follows;
    LatestAt(sorted, field);
    if Latest(sorted, field).Some? {
      var i :| 0 <= i < |sorted| && field(sorted[i]) == Latest(sorted, field) && forall j :: i < j < |sorted| ==> field(sorted[j]).None?;
      forall f | Of(events, k, f) && field(f).Some?
        ensures !Follows(sorted[i], f)
      {
        var j :| 0 <= j < |sorted| && sorted[j] == f;
        NoneFollows(sorted, j, i);
      }
      assert sorted[i] in sorted;
    }
  }

  lemma NoneFollows(sorted: seq<TradeEvent>, j: nat, i: nat)
    requires Sorted(sorted, EventKey) && j <= i < |sorted|
    ensures !Follows(sorted[i], sorted[j])
  {
    FollowsIsLess(sorted[i], sorted[j]);
  }

  lemma SameKind(name: EventName, sorted: seq<TradeEvent>)
    ensures Latest(sorted, TxOf(name)) == Latest(sorted, TxOfKind(name))
  {
    if sorted != [] { SameKind(name, sorted[..|sorted| - 1]); }
  }

  lemma ReportedIsLatest(events: seq<TradeEvent>, k: string, sorted: seq<TradeEvent>)
    requires sorted != [] && Sorted(sorted, EventKey) && forall e :: e in sorted <==> Of(events, k, e)
    ensures IsLatest(events, k, Reported(sorted))
  {
    hide Sorted, LastSaid, Latest, Of, Follows;
    LatestIsLastSaid(events, k, sorted, BlockHash);
    LatestIsLastSaid(events, k, sorted, Buyer);
    LatestIsLastSaid(events, k, sorted, Seller);
    LatestIsLastSaid(events, k, sorted, Payer);
    LatestIsLastSaid(events, k, sorted, Amount);
    LatestIsLastSaid(events, k, sorted, Fee);
    LatestIsLastSaid(events, k, sorted, Expiry);
    LatestIsLastSaid(events, k, sorted, SellerAmount);
    LatestIsLastSaid(events, k, sorted, FeeAmount);
    forall name
      ensures LastSaid(events, k, TxOfKind(name), Latest(sorted, TxOf(name)))
    {
      SameKind(name, sorted);
      LatestIsLastSaid(events, k, sorted, TxOfKind(name));
    }
    LastEnds(events, k, sorted);
  }

  lemma LastEnds(events: seq<TradeEvent>, k: string, sorted: seq<TradeEvent>)
    requires sorted != [] && Sorted(sorted, EventKey) && forall e :: e in sorted <==> Of(events, k, e)
    ensures exists last :: Of(events, k, last) && EndsAt(Reported(sorted), last) && forall f :: Of(events, k, f) ==> !Follows(last, f)
  {
    hide Sorted, Latest, Of, Follows;
    var n := |sorted| - 1;
    forall f | Of(events, k, f)
      ensures !Follows(sorted[n], f)
    {
      var j :| 0 <= j < |sorted| && sorted[j] == f;
      NoneFollows(sorted, j, n);
    }
    assert sorted[n] in sorted && EndsAt(Reported(sorted), sorted[n]);
  }

  /** Normalised states: one for each trade that has an event, and each the latest of it. */
  lemma NormalizedIsLatest(events: seq<TradeEvent>, k: string)
    requires Normalize(events).Ok?
    ensures k in Normalize(events).value <==> exists e :: Of(events, k, e)
    ensures k in Normalize(events).value ==> IsLatest(events, k, Normalize(events).value[k])
  {
    hide Normalize, IsLatest, FoldTrade, Sort;
    NormalizeSplits(events);
    TradeIsSorted(events, k);
    var sorted := Sort(ForTrade(events, k), EventKey);
    if sorted != [] {
      FieldsAreLatest(sorted);
      ReportedIsLatest(events, k, sorted);
      assert sorted[0] in sorted;
    } else {
      NothingFolds();
    }
  }

  lemma NothingFolds()
    ensures FoldTrade([]) == Ok(None)
  {
  }

  lemma TradeIsSorted(events: seq<TradeEvent>, k: string)
    ensures Sorted(Sort(ForTrade(events, k), EventKey), EventKey)
    ensures forall e :: e in Sort(ForTrade(events, k), EventKey) <==> Of(events, k, e)
    ensures TradeFold(events, k) == FoldTrade(Sort(ForTrade(events, k), EventKey))
  {
    hide Sorted, Less, EventKey;
    SortSorts(ForTrade(events, k), EventKey);
    ForTradeOf(events, k);
    forall e
      ensures e in Sort(ForTrade(events, k), EventKey) <==> e in ForTrade(events, k)
    {
      InMultiset(Sort(ForTrade(events, k), EventKey), e);
      InMultiset(ForTrade(events, k), e);
    }
  }

  // ---- The event store ----

  /** The two reports are of one event: same chain, trade, kind, transaction and log. */
  predicate SameEvent(e: TradeEvent, f: TradeEvent) {
    && e.chainId == f.chainId && e.tradeKey == f.tradeKey && e.txHash == f.txHash && e.logIndex == f.logIndex
    && match e.detail
       case CreatedDetail(_, _, _, _, _) => f.detail.CreatedDetail?
       case DepositedDetail(_, _) => f.detail.DepositedDetail?
       case ReleasedDetail(_, _, _) => f.detail.ReleasedDetail?
       case RefundedDetail(_, _) => f.detail.RefundedDetail?
       case CancelledDetail => f.detail.CancelledDetail?
  }

  lemma SameIdIs(e: TradeEvent, f: TradeEvent)
    ensures IdOf(e) == IdOf(f) <==> SameEvent(e, f)
  {
  }

  /** Over every run in which no trade has two homes: each reported event is stored in one report of it, and each trade with
      an event has the latest of its stored events cached. */
  lemma CachedIsLatest(batches: seq<seq<TradeEvent>>, k: string)
    requires OneHome(Concat(batches))
    ensures var st := Run(batches);
      && (forall e :: e in st.events ==> e in Concat(batches))
      && (forall e :: e in Concat(batches) ==> exists f :: f in st.events && SameEvent(e, f))
      && (forall i, j :: 0 <= i < j < |st.events| ==> !SameEvent(st.events[i], st.events[j]))
      && (k in st.states <==> exists e :: Of(st.events, k, e))
      && (k in st.states ==> IsLatest(st.events, k, st.states[k]))
  {
    hide Run, OneHome, Normalize, IsLatest, IdOf, SameEvent, InsertAll;
    CacheIsFold(batches);
    var st := Run(batches);
    NormalizedIsLatest(st.events, k);
    InsertAllIs([], Concat(batches));
    forall e | e in Concat(batches)
      ensures exists f :: f in st.events && SameEvent(e, f)
    {
      var i :| 0 <= i < |st.events| && IdOf(st.events[i]) == IdOf(e);
      SameIdIs(e, st.events[i]);
      assert st.events[i] in st.events;
    }
    forall i, j | 0 <= i < j < |st.events|
      ensures !SameEvent(st.events[i], st.events[j])
    {
      SameIdIs(st.events[i], st.events[j]);
    }
  }

  lemma {:induction false} StatesAre(states: map<string, TradeState>, keys: seq<string>)
    ensures forall s :: s in StatesOf(states, keys) <==> exists k :: k in keys && k in states && states[k] == s
  {
    if keys != [] {
      var n := |keys| - 1;
      StatesAre(states, keys[..n]);
      assert keys == keys[..n] + [keys[n]];
      assert keys[n] in keys;
    }
  }

  /** A batch that does not throw returns the states of the trades it brought a new event of. */
  lemma IngestReturns(st: Store, batch: seq<TradeEvent>)
    requires Ingest(st, batch).1.Ok?
    ensures st.events <= Ingest(st, batch).0.events
    ensures var (st', r) := Ingest(st, batch);
      forall s :: s in r.value <==> exists e :: e in st'.events[|st.events|..] && e.tradeKey in st'.states && st'.states[e.tradeKey] == s
  {
    hide InsertAll, RefreshAll, StatesOf, TradeKeys;
    UsdcEventStore.InsertKeeps(st.events, batch);
    var st' := Ingest(st, batch).0;
    var added := st'.events[|st.events|..];
    StatesAre(st'.states, TradeKeys(added));
    forall k
      ensures k in TradeKeys(added) <==> exists e :: e in added && e.tradeKey == k
    {
      TradeKeysAre(added, k);
    }
  }
}
