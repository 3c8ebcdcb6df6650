/**
 The watch store of the Pearl indexer: services/pearl-indexer/src/watched-address-repository.ts
 (the in-memory repository) and the funding verdict of services/pearl-indexer/src/funding-scanner.ts.

 The specification works on the value `Store`; `MemoryWatchedAddressRepository` keeps the same maps
 as fields and updates them in place.
 */
module WatchedAddresses {
  import opened Wrappers
  import opened PearlChain

  datatype MatchStatus = Pending | Confirmed | Spent | Detached
  datatype Classification =
    OnTime | Late | Underpaid | Overpaid | DuplicateFunding | Reorged | UnknownFunding

  /** A watch with the metadata the funding verdict reads, already parsed. */
  datatype Watch = Watch(
    watchId: string, network: string, address: string, requiredConfirmations: int, active: bool,
    expectedAmountGrains: Option<int>, deadlineHeight: Option<int>, deadlineTs: Option<int>)

  datatype Observation = Observation(
    outpoint: string, watchId: string, blockHash: Hash, height: int, amountGrains: nat,
    confirmations: int, matchStatus: MatchStatus, classification: Classification)

  datatype Spend = Spend(spendTxid: string, spentOutpoint: string, blockHash: Hash, height: int)

  /** `watches` and `observed` are in the insertion order of the source's maps. */
  datatype Store = Store(
    watches: seq<Watch>,
    observations: map<string, seq<Observation>>,
    observed: seq<string>,
    spends: map<string, seq<Spend>>)

  function ListOf<T>(m: map<string, seq<T>>, key: string): seq<T> {
    if key in m then m[key] else []
  }

  // ---- Funding verdict ----

  predicate PastDeadline(b: Block, w: Watch) {
    match w.deadlineHeight
    case Some(height) => b.height > height
    case None => w.deadlineTs.Some? && b.timestamp > w.deadlineTs.value
  }

  predicate Judged(w: Watch) {
    w.expectedAmountGrains.Some? && (w.deadlineHeight.Some? || w.deadlineTs.Some?)
  }

  /** Each verdict means one thing: lateness hides the amount, and without both terms there is no verdict. */
  function ClassifyFunding(o: Output, b: Block, w: Watch): (c: Classification)
    ensures c != DuplicateFunding && c != Reorged
    ensures c == UnknownFunding <==> !Judged(w)
    ensures c == Late <==> Judged(w) && PastDeadline(b, w)
    ensures c == OnTime <==> Judged(w) && !PastDeadline(b, w) && w.expectedAmountGrains == Some(o.amountGrains)
    ensures c == Underpaid ==> o.amountGrains < w.expectedAmountGrains.value
    ensures c == Overpaid ==> o.amountGrains > w.expectedAmountGrains.value
  {
    if w.expectedAmountGrains.None? || (w.deadlineHeight.None? && w.deadlineTs.None?) then UnknownFunding
    else if PastDeadline(b, w) then Late
    else if o.amountGrains < w.expectedAmountGrains.value then Underpaid
    else if o.amountGrains > w.expectedAmountGrains.value then Overpaid
    else OnTime
  }

  // ---- One list of observations ----

  function IndexOf(list: seq<Observation>, outpoint: string): (i: nat)
    ensures i <= |list|
    ensures i < |list| ==> list[i].outpoint == outpoint
    ensures forall k :: 0 <= k < i ==> list[k].outpoint != outpoint
  {
    if list == [] then 0
    else if list[0].outpoint == outpoint then 0
    else 1 + IndexOf(list[1..], outpoint)
  }

  function Recorded(list: seq<Observation>, obs: Observation): seq<Observation> {
    var i := IndexOf(list, obs.outpoint);
    if i == |list| then list + [obs]
    else if list[i].matchStatus != Detached then list
    else seq(|list|, k requires 0 <= k < |list| => if list[k].outpoint == obs.outpoint then obs else list[k])
  }

  function MarkSpent(list: seq<Observation>, outpoint: string): seq<Observation> {
    seq(|list|, k requires 0 <= k < |list| =>
      if list[k].outpoint == outpoint then list[k].(matchStatus := Spent) else list[k])
  }

  function AdvanceOne(o: Observation, tipHeight: int, required: int): Observation {
    if o.matchStatus == Pending || o.matchStatus == Confirmed then
      var confirms := tipHeight - o.height + 1;
      o.(confirmations := confirms, matchStatus := if confirms >= required then Confirmed else Pending)
    else o
  }

  function AdvanceList(list: seq<Observation>, tipHeight: int, required: int): seq<Observation> {
    seq(|list|, k requires 0 <= k < |list| => AdvanceOne(list[k], tipHeight, required))
  }

  function DetachList(list: seq<Observation>, blockHash: Hash): seq<Observation> {
    seq(|list|, k requires 0 <= k < |list| =>
      if list[k].blockHash == blockHash && list[k].matchStatus != Detached
      then list[k].(matchStatus := Detached, classification := Reorged) else list[k])
  }

  predicate HasPriorLive(list: seq<Observation>, outpoint: string) {
    exists k :: 0 <= k < |list| && list[k].outpoint != outpoint && list[k].matchStatus != Detached
  }

  // ---- The store ----

  predicate Matches(w: Watch, network: string, o: Output) {
    w.active && w.network == network && o.address == Some(w.address) && w.address != ""
  }

  function ActiveAt(watches: seq<Watch>, network: string, o: Output): seq<Watch> {
    if watches == [] then []
    else (if Matches(watches[0], network, o) then [watches[0]] else []) + ActiveAt(watches[1..], network, o)
  }

  function ObservationOf(list: seq<Observation>, w: Watch, o: Output, b: Block): Observation {
    Observation(o.outpoint, w.watchId, b.hash, b.height, o.amountGrains, 1, Pending,
      if HasPriorLive(list, o.outpoint) then DuplicateFunding else ClassifyFunding(o, b, w))
  }

  function Inserted(keys: seq<string>, key: string): seq<string> {
    if key in keys then keys else keys + [key]
  }

  function Record(s: Store, obs: Observation): Store {
    var list := ListOf(s.observations, obs.watchId);
    if Recorded(list, obs) == list then s
    else s.(observations := s.observations[obs.watchId := Recorded(list, obs)],
            observed := Inserted(s.observed, obs.watchId))
  }

  function RecordOne(s: Store, w: Watch, o: Output, b: Block): Store {
    Record(s, ObservationOf(ListOf(s.observations, w.watchId), w, o, b))
  }

  function RecordWatches(s: Store, ws: seq<Watch>, o: Output, b: Block): Store {
    if ws == [] then s
    else RecordOne(RecordWatches(s, ws[..|ws| - 1], o, b), ws[|ws| - 1], o, b)
  }

  /** The store after the first `n` outputs of the block. */
  function RecordOutputs(s: Store, network: string, b: Block, n: nat): Store
    requires n <= |b.outputs|
  {
    if n == 0 then s
    else
      var o := b.outputs[n - 1];
      RecordWatches(RecordOutputs(s, network, b, n - 1), ActiveAt(s.watches, network, o), o, b)
  }

  predicate LiveIn(list: seq<Observation>, outpoint: string) {
    exists k :: 0 <= k < |list| && list[k].outpoint == outpoint && list[k].matchStatus != Detached
  }

  predicate Registered(watches: seq<Watch>, watchId: string) {
    exists k :: 0 <= k < |watches| && watches[k].watchId == watchId
  }

  function FindObserved(s: Store, outpoint: string, from: nat := 0): (r: Option<string>)
    requires from <= |s.observed|
    decreases |s.observed| - from
  {
    if from == |s.observed| then None
    else
      var id := s.observed[from];
      if LiveIn(ListOf(s.observations, id), outpoint) && Registered(s.watches, id) then Some(id)
      else FindObserved(s, outpoint, from + 1)
  }

  predicate SpendRecorded(spends: seq<Spend>, sp: Spend) {
    exists k :: 0 <= k < |spends| && spends[k].spendTxid == sp.spendTxid && spends[k].spentOutpoint == sp.spentOutpoint
  }

  function RecordSpend(s: Store, sp: Spend): Store {
    match FindObserved(s, sp.spentOutpoint)
    case None => s
    case Some(id) =>
      if SpendRecorded(ListOf(s.spends, id), sp) then s
      else s.(spends := s.spends[id := ListOf(s.spends, id) + [sp]],
              observations := s.observations[id := MarkSpent(ListOf(s.observations, id), sp.spentOutpoint)])
  }

  function RecordSpendOne(s: Store, i: Input, b: Block): Store {
    if i.spentOutpoint.None? || i.spentOutpoint.value == "" then s
    else RecordSpend(s, Spend(i.txid, i.spentOutpoint.value, b.hash, b.height))
  }

  function RecordSpends(s: Store, b: Block, n: nat): Store
    requires n <= |b.inputs|
  {
    if n == 0 then s else RecordSpendOne(RecordSpends(s, b, n - 1), b.inputs[n - 1], b)
  }

  function AdvanceWatches(s: Store, tipHeight: int, n: nat): Store
    requires n <= |s.watches|
  {
    if n == 0 then s
    else
      var w := s.watches[n - 1];
      var s' := AdvanceWatches(s, tipHeight, n - 1);
      if w.watchId in s'.observations then
        s'.(observations := s'.observations[
          w.watchId := AdvanceList(s'.observations[w.watchId], tipHeight, w.requiredConfirmations)])
      else s'
  }

  function Advance(s: Store, tipHeight: int): Store {
    AdvanceWatches(s, tipHeight, |s.watches|)
  }

  function Detach(s: Store, blockHash: Hash): Store {
    s.(observations := map id | id in s.observations :: DetachList(s.observations[id], blockHash))
  }

  lemma WatchesKept(s: Store, ws: seq<Watch>, o: Output, b: Block)
    ensures RecordWatches(s, ws, o, b).watches == s.watches
  {
  }

  lemma OutputsKeepWatches(s: Store, network: string, b: Block, n: nat)
    requires n <= |b.outputs|
    ensures RecordOutputs(s, network, b, n).watches == s.watches
  {
    if n > 0 {
      var o, s' := b.outputs[n - 1], RecordOutputs(s, network, b, n - 1);
      OutputsKeepWatches(s, network, b, n - 1);
      WatchesKept(s', ActiveAt(s.watches, network, o), o, b);
    }
  }

  lemma AdvanceKeepsWatches(s: Store, tipHeight: int, n: nat)
    requires n <= |s.watches|
    ensures AdvanceWatches(s, tipHeight, n).watches == s.watches
  {
  }
}
