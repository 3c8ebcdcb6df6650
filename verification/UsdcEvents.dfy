/**
 Escrow events of a USDC trade and the state they fold to: packages/usdc-escrow-client/src/events.ts.

 `StatesSplit` reduces the map over all trades to one fold per trade, and `FoldsIff` says when that
 fold throws.
 */
module UsdcEvents {
  import opened Wrappers
  import opened Sorting

  datatype EventName = TradeCreated | Deposited | Released | Refunded | Cancelled

  datatype Detail =
    | CreatedDetail(buyer: string, seller: string, amountMicros: string, feeMicros: string, expiryUnixSeconds: int)
    | DepositedDetail(payer: string, amountMicros: string)
    | ReleasedDetail(seller: string, sellerAmountMicros: string, feeAmountMicros: string)
    | RefundedDetail(buyer: string, amountMicros: string)
    | CancelledDetail

  datatype TradeEvent = TradeEvent(
    network: string, chainId: int, contractAddress: string, tradeKey: string, txHash: string, logIndex: int,
    blockNumber: int, blockHash: Option<string>, confirmations: int, observedAt: string, detail: Detail)

  /** The parts `createUsdcEscrowSourceEventId` joins with colons. */
  datatype EventId = EventId(chainId: int, tradeKey: string, name: EventName, txHash: string, logIndex: int)

  /** The state carries one field of each `Detail`; its status is that of the last event. */
  datatype TradeState = TradeState(
    network: string, chainId: int, contractAddress: string, tradeKey: string, status: EventName,
    sourceEventId: EventId, txHash: string, blockNumber: int, blockHash: Option<string>, confirmations: int, observedAt: string,
    buyer: Option<string>, seller: Option<string>, payer: Option<string>,
    amountMicros: Option<string>, feeMicros: Option<string>, expiryUnixSeconds: Option<int>,
    sellerAmountMicros: Option<string>, feeAmountMicros: Option<string>,
    depositTxHash: Option<string>, releaseTxHash: Option<string>, refundTxHash: Option<string>, cancelledTxHash: Option<string>)

  function Name(e: TradeEvent): EventName {
    match e.detail
    case CreatedDetail(_, _, _, _, _) => TradeCreated
    case DepositedDetail(_, _) => Deposited
    case ReleasedDetail(_, _, _) => Released
    case RefundedDetail(_, _) => Refunded
    case CancelledDetail => Cancelled
  }

  function IdOf(e: TradeEvent): EventId {
    EventId(e.chainId, e.tradeKey, Name(e), e.txHash, e.logIndex)
  }

  function EventOrder(name: EventName): int {
    match name
    case TradeCreated => 0
    case Deposited => 1
    case _ => 2
  }

  function EventKey(e: TradeEvent): Key {
    Key(e.blockNumber, e.logIndex, EventOrder(Name(e)))
  }

  predicate BelongsTo(previous: TradeState, e: TradeEvent) {
    && previous.network == e.network
    && previous.chainId == e.chainId
    && Lower(previous.contractAddress) == Lower(e.contractAddress)
    && previous.tradeKey == e.tradeKey
  }

  /** A state with the fields every event sets; the empty block hash is the absent one. */
  function Based(previous: Option<TradeState>, e: TradeEvent): TradeState {
    var blockHash := if e.blockHash.GetOr("") != "" then e.blockHash else if previous.Some? then previous.value.blockHash else None;
    if previous.Some? then
      previous.value.(
        network := e.network, chainId := e.chainId, contractAddress := e.contractAddress, tradeKey := e.tradeKey,
        status := Name(e), sourceEventId := IdOf(e), txHash := e.txHash, blockNumber := e.blockNumber,
        blockHash := blockHash, confirmations := e.confirmations, observedAt := e.observedAt)
    else
      TradeState(
        e.network, e.chainId, e.contractAddress, e.tradeKey, Name(e), IdOf(e), e.txHash, e.blockNumber, blockHash,
        e.confirmations, e.observedAt, None, None, None, None, None, None, None, None, None, None, None, None)
  }

  function ApplyEvent(previous: Option<TradeState>, e: TradeEvent): Result<TradeState> {
    if previous.Some? && !BelongsTo(previous.value, e) then Thrown
    else
      var base := Based(previous, e);
      match e.detail
      case CreatedDetail(buyer, seller, amountMicros, feeMicros, expiry) =>
        Ok(base.(buyer := Some(buyer), seller := Some(seller), amountMicros := Some(amountMicros),
                 feeMicros := Some(feeMicros), expiryUnixSeconds := Some(expiry)))
      case DepositedDetail(payer, amountMicros) =>
        Ok(base.(payer := Some(payer), amountMicros := Some(amountMicros), depositTxHash := Some(e.txHash)))
      case ReleasedDetail(seller, sellerAmountMicros, feeAmountMicros) =>
        Ok(base.(seller := Some(seller), sellerAmountMicros := Some(sellerAmountMicros),
                 feeAmountMicros := Some(feeAmountMicros), releaseTxHash := Some(e.txHash)))
      case RefundedDetail(buyer, amountMicros) =>
        Ok(base.(buyer := Some(buyer), amountMicros := Some(amountMicros), refundTxHash := Some(e.txHash)))
      case CancelledDetail =>
        Ok(base.(cancelledTxHash := Some(e.txHash)))
  }

  // ---- Folding ----

  function Lookup(states: map<string, TradeState>, tradeKey: string): Option<TradeState> {
    if tradeKey in states then Some(states[tradeKey]) else None
  }

  function StepStates(states: map<string, TradeState>, e: TradeEvent): Result<map<string, TradeState>> {
    match ApplyEvent(Lookup(states, e.tradeKey), e)
    case Thrown => Thrown
    case Ok(state) => Ok(states[e.tradeKey := state])
  }

  /** The loop of `normalizeUsdcEscrowTradeEvents` over events already in order. */
  function FoldStates(sorted: seq<TradeEvent>): Result<map<string, TradeState>> {
    if sorted == [] then Ok(map[])
    else
      match FoldStates(sorted[..|sorted| - 1])
      case Thrown => Thrown
      case Ok(states) => StepStates(states, sorted[|sorted| - 1])
  }

  function Normalize(events: seq<TradeEvent>): Result<map<string, TradeState>> {
    FoldStates(Sort(events, EventKey))
  }

  lemma {:induction false} FoldThrows(sorted: seq<TradeEvent>, n: nat)
    requires n <= |sorted| && FoldStates(sorted[..n]).Thrown?
    ensures FoldStates(sorted).Thrown?
  {
    if n < |sorted| {
      assert sorted[..|sorted| - 1][..n] == sorted[..n];
      FoldThrows(sorted[..|sorted| - 1], n);
    } else {
      assert sorted[..n] == sorted;
    }
  }

  method NormalizeUsdcEscrowTradeEvents(events: seq<TradeEvent>) returns (r: Result<map<string, TradeState>>)
    ensures r == Normalize(events)
  {
    hide ApplyEvent, Sort;
    var sorted := Sort(events, EventKey);
    var states: map<string, TradeState> := map[];
    for n := 0 to |sorted|
      invariant FoldStates(sorted[..n]) == Ok(states)
    {
      assert sorted[..n + 1][..n] == sorted[..n];
      var state := ApplyEvent(Lookup(states, sorted[n].tradeKey), sorted[n]);
      if state.Thrown? {
        FoldThrows(sorted, n + 1);
        return Thrown;
      }
      states := states[sorted[n].tradeKey := state.value];
    }
    assert sorted[..|sorted|] == sorted;
    return Ok(states);
  }

  // ---- One trade at a time ----

  function ForTrade(events: seq<TradeEvent>, tradeKey: string): seq<TradeEvent> {
    Filter(events, (e: TradeEvent) => e.tradeKey == tradeKey)
  }

  /** One trade's state: the in-order fold of its events. */
  function FoldTrade(sorted: seq<TradeEvent>): Result<Option<TradeState>> {
    if sorted == [] then Ok(None)
    else
      match FoldTrade(sorted[..|sorted| - 1])
      case Thrown => Thrown
      case Ok(previous) =>
        match ApplyEvent(previous, sorted[|sorted| - 1])
        case Thrown => Thrown
        case Ok(state) => Ok(Some(state))
  }

  /** Folding all events folds each trade's own events; it throws if and only if one trade's fold does. */
  lemma {:induction false} StatesSplit(sorted: seq<TradeEvent>)
    ensures FoldStates(sorted).Ok? <==> forall k :: FoldTrade(ForTrade(sorted, k)).Ok?
    ensures FoldStates(sorted).Ok? ==>
      forall k :: FoldTrade(ForTrade(sorted, k)) == Ok(Lookup(FoldStates(sorted).value, k))
  {
    hide ApplyEvent;
    if sorted != [] {
      var rest, e := sorted[..|sorted| - 1], sorted[|sorted| - 1];
      StatesSplit(rest);
      forall k
        ensures ForTrade(sorted, k) == if k == e.tradeKey then ForTrade(rest, k) + [e] else ForTrade(rest, k)
        ensures k == e.tradeKey ==> ForTrade(sorted, k)[..|ForTrade(rest, k)|] == ForTrade(rest, k)
      {
        FilterAppend(rest, e, (x: TradeEvent) => x.tradeKey == k);
        assert sorted == rest + [e];
      }
      if FoldStates(rest).Thrown? {
        var k :| FoldTrade(ForTrade(rest, k)).Thrown?;
        assert FoldTrade(ForTrade(sorted, k)).Thrown?;
      } else {
        assert FoldTrade(ForTrade(rest, e.tradeKey)).Ok?;
        assert FoldStates(sorted).Ok? <==> FoldTrade(ForTrade(sorted, e.tradeKey)).Ok?;
        assert forall k :: k != e.tradeKey ==> FoldTrade(ForTrade(sorted, k)) == FoldTrade(ForTrade(rest, k));
      }
    } else {
      assert forall k :: FoldTrade(ForTrade(sorted, k)) == Ok(None);
    }
  }

  /** Network, chain and contract, which the events of one trade must share. */
  function Home(e: TradeEvent): (string, int, string) {
    (e.network, e.chainId, Lower(e.contractAddress))
  }

  predicate OneHome(events: seq<TradeEvent>) {
    forall e, f | e in events && f in events :: e.tradeKey == f.tradeKey ==> Home(e) == Home(f)
  }

  lemma AppliedTo(previous: Option<TradeState>, e: TradeEvent)
    requires ApplyEvent(previous, e).Ok?
    ensures var s := ApplyEvent(previous, e).value;
      s.contractAddress == e.contractAddress && s.network == e.network && s.chainId == e.chainId && s.tradeKey == e.tradeKey
  {
  }

  lemma {:induction false} FoldEndsAtLast(sorted: seq<TradeEvent>)
    requires sorted != [] && FoldTrade(sorted).Ok?
    ensures FoldTrade(sorted).value.Some?
    ensures var s, last := FoldTrade(sorted).value.value, sorted[|sorted| - 1];
      s.contractAddress == last.contractAddress && s.network == last.network && s.chainId == last.chainId && s.tradeKey == last.tradeKey
  {
    hide ApplyEvent;
    var n := |sorted| - 1;
    AppliedTo(FoldTrade(sorted[..n]).value, sorted[n]);
  }

  /** One trade's events fold without throwing if and only if they share one home. */
  lemma {:induction false} FoldsIff(sorted: seq<TradeEvent>)
    requires forall i, j :: 0 <= i < j < |sorted| ==> sorted[i].tradeKey == sorted[j].tradeKey
    ensures FoldTrade(sorted).Ok? <==> forall i :: 0 <= i < |sorted| ==> Home(sorted[i]) == Home(sorted[|sorted| - 1])
    ensures sorted == [] ==> FoldTrade(sorted) == Ok(None)
    ensures FoldTrade(sorted).Ok? && sorted != [] ==> FoldTrade(sorted).value.Some?
  {
    if sorted != [] {
      var n := |sorted| - 1;
      FoldsIff(sorted[..n]);
      if n > 0 {
        if FoldTrade(sorted[..n]).Ok? { FoldEndsAtLast(sorted[..n]); }
        assert Home(sorted[..n][n - 1]) == Home(sorted[n - 1]);
      }
    }
  }

  // ---- What the fields of a state say ----

  function Buyer(e: TradeEvent): Option<string> {
    match e.detail
    case CreatedDetail(buyer, _, _, _, _) => Some(buyer)
    case RefundedDetail(buyer, _) => Some(buyer)
    case _ => None
  }

  function Seller(e: TradeEvent): Option<string> {
    match e.detail
    case CreatedDetail(_, seller, _, _, _) => Some(seller)
    case ReleasedDetail(seller, _, _) => Some(seller)
    case _ => None
  }

  function Amount(e: TradeEvent): Option<string> {
    match e.detail
    case CreatedDetail(_, _, amountMicros, _, _) => Some(amountMicros)
    case DepositedDetail(_, amountMicros) => Some(amountMicros)
    case RefundedDetail(_, amountMicros) => Some(amountMicros)
    case _ => None
  }

  function SellerAmount(e: TradeEvent): Option<string> {
    if e.detail.ReleasedDetail? then Some(e.detail.sellerAmountMicros) else None
  }

  function Payer(e: TradeEvent): Option<string> {
    if e.detail.DepositedDetail? then Some(e.detail.payer) else None
  }

  function FeeAmount(e: TradeEvent): Option<string> {
    if e.detail.ReleasedDetail? then Some(e.detail.feeAmountMicros) else None
  }

  function Fee(e: TradeEvent): Option<string> {
    if e.detail.CreatedDetail? then Some(e.detail.feeMicros) else None
  }

  function Expiry(e: TradeEvent): Option<int> {
    if e.detail.CreatedDetail? then Some(e.detail.expiryUnixSeconds) else None
  }

  function TxOf(name: EventName): TradeEvent -> Option<string> {
    (e: TradeEvent) => if Name(e) == name then Some(e.txHash) else None
  }

  function BlockHash(e: TradeEvent): Option<string> {
    if e.blockHash == Some("") then None else e.blockHash
  }

  /** What the last event that reports the field says of it. */
  function Latest<T>(events: seq<TradeEvent>, field: TradeEvent -> Option<T>): Option<T> {
    if events == [] then None
    else
      var n := |events| - 1;
      if field(events[n]).Some? then field(events[n]) else Latest(events[..n], field)
  }

  /** The last event's own fields, and for each other field what the last event that has it says of it. */
  function Reported(events: seq<TradeEvent>): TradeState
    requires events != []
  {
    var last := events[|events| - 1];
    TradeState(
      last.network, last.chainId, last.contractAddress, last.tradeKey, Name(last), IdOf(last), last.txHash, last.blockNumber,
      Latest(events, BlockHash), last.confirmations, last.observedAt,
      Latest(events, Buyer), Latest(events, Seller), Latest(events, Payer),
      Latest(events, Amount), Latest(events, Fee), Latest(events, Expiry),
      Latest(events, SellerAmount), Latest(events, FeeAmount),
      Latest(events, TxOf(Deposited)), Latest(events, TxOf(Released)), Latest(events, TxOf(Refunded)), Latest(events, TxOf(Cancelled)))
  }

  lemma FirstReported(e: TradeEvent)
    ensures ApplyEvent(None, e) == Ok(Reported([e]))
  {
    LatestOfOne(e, Buyer);
    LatestOfOne(e, Seller);
    LatestOfOne(e, Payer);
    LatestOfOne(e, Amount);
    LatestOfOne(e, Fee);
    LatestOfOne(e, Expiry);
    LatestOfOne(e, SellerAmount);
    LatestOfOne(e, FeeAmount);
    LatestOfOne(e, BlockHash);
    forall name
      ensures Latest([e], TxOf(name)) == TxOf(name)(e)
    {
      LatestOfOne(e, TxOf(name));
    }
  }

  lemma LatestOfOne<T>(e: TradeEvent, field: TradeEvent -> Option<T>)
    ensures Latest([e], field) == field(e)
  {
    assert [e][..0] == [];
  }

  lemma NextReported(events: seq<TradeEvent>, e: TradeEvent)
    requires events != [] && BelongsTo(Reported(events), e)
    ensures ApplyEvent(Some(Reported(events)), e) == Ok(Reported(events + [e]))
  {
    hide BelongsTo;
    assert (events + [e])[..|events|] == events;
  }

  /** Every field of a folded state is the one its events last reported. */
  lemma {:induction false} FieldsAreLatest(sorted: seq<TradeEvent>)
    requires sorted != [] && FoldTrade(sorted).Ok?
    ensures FoldTrade(sorted) == Ok(Some(Reported(sorted)))
  {
    hide ApplyEvent, Reported;
    var n := |sorted| - 1;
    assert sorted == sorted[..n] + [sorted[n]];
    if n > 0 {
      FieldsAreLatest(sorted[..n]);
      OnlyIfItBelongs(Reported(sorted[..n]), sorted[n]);
      NextReported(sorted[..n], sorted[n]);
    } else {
      assert sorted[..n] == [];
      FirstReported(sorted[n]);
    }
  }

  lemma OnlyIfItBelongs(s: TradeState, e: TradeEvent)
    requires ApplyEvent(Some(s), e).Ok?
    ensures BelongsTo(s, e)
  {
  }
}
