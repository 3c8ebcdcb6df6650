/**
 What one saved block does to each observation of the in-memory watch store, said of the block, the watches and the
 observations before it (services/pearl-indexer/src/funding-scanner.ts and watched-address-repository.ts).

 Main results: `ScannedOutput` (the observation an output brings a watch, with its verdict) and `BlockSpends` (when an
 observation becomes spent: a spend the watch has on record already does not mark it again).
 */
module MemoryVerdicts {
  import opened Wrappers
  import opened PearlChain
  import opened WatchedAddresses
  import opened FundingIndex
  import opened FundingVerdicts
  import opened MemoryIndexer

  // ---- Verdicts ----

  /** The watch has a live observation. */
  predicate HasLive(s: Store, id: string) {
    id in s.observations && exists k :: 0 <= k < |s.observations[id]| && s.observations[id][k].matchStatus != Detached
  }

  /** One of the first `j` outputs of the block pays the watch. */
  predicate WatchPaidBefore(w: Watch, network: string, b: Block, j: nat)
    requires j <= |b.outputs|
  {
    exists i :: 0 <= i < j && Watching(w, network, b.outputs[i])
  }

  lemma LiveIsEntry(s: Store, id: string, outpoint: string)
    requires StoreOk(s) && !WatchHas(s, id, outpoint)
    ensures HasPriorLive(ListOf(s.observations, id), outpoint) <==> HasLive(s, id)
    ensures HasLive(s, id) <==> exists e :: InIndex(s, e) && e.watchId == id
  {
    hide UniqueIds, Registered, DistinctOutpoints, OnePrimary;
    var list := ListOf(s.observations, id);
    forall k | 0 <= k < |list| && list[k].matchStatus != Detached
      ensures exists e :: InIndex(s, e) && e.watchId == id
    {
      assert InIndex(s, EntryOf(list[k]));
    }
  }

  lemma PaidBeforeIs(ws: seq<Watch>, w: Watch, network: string, b: Block, j: nat)
    requires UniqueIds(ws) && w in ws && j <= |b.outputs|
    ensures WatchPaidBefore(w, network, b, j) <==> exists e :: Pays(ws, network, b, j, e) && e.watchId == w.watchId
  {
    forall i | 0 <= i < j
      ensures Watching(w, network, b.outputs[i]) <==> PaysTo(ws, network, b.outputs[i], b, PaidEntry(w, b.outputs[i], b))
    {
    }
    if e :| Pays(ws, network, b, j, e) && e.watchId == w.watchId {
      var i :| 0 <= i < j && PaysTo(ws, network, b.outputs[i], b, e);
      var v :| v in ws && Matches(v, network, b.outputs[i]) && e == PaidEntry(v, b.outputs[i], b);
      OneWatch(ws, v, w);
    }
    if i :| 0 <= i < j && Watching(w, network, b.outputs[i]) {
      assert Pays(ws, network, b, j, PaidEntry(w, b.outputs[i], b));
    }
  }

  lemma OneWatch(ws: seq<Watch>, v: Watch, w: Watch)
    requires UniqueIds(ws) && v in ws && w in ws && v.watchId == w.watchId
    ensures v == w
  {
    var i, k :| 0 <= i < |ws| && 0 <= k < |ws| && ws[i] == v && ws[k] == w;
    assert !(i < k) && !(k < i);
  }

  /** A watch has a live observation before output `j` if it had one before the block, or an earlier output pays it. */
  lemma LiveBefore(s: Store, network: string, b: Block, j: nat, w: Watch)
    requires StoreOk(s) && DistinctOutputs(b) && j < |b.outputs| && w in s.watches
    requires !WatchHas(s, w.watchId, b.outputs[j].outpoint)
    ensures var s1 := RecordOutputs(s, network, b, j);
      && StoreOk(s1) && s1.watches == s.watches && !WatchHas(s1, w.watchId, b.outputs[j].outpoint)
      && (HasPriorLive(ListOf(s1.observations, w.watchId), b.outputs[j].outpoint) <==>
            HasLive(s, w.watchId) || WatchPaidBefore(w, network, b, j))
  {
    hide InIndex, RecordOutputs, DistinctOutputs, Pays, WatchPaidBefore, HasLive, HasPriorLive, WatchHas, ListOk;
    RecordOutputsAdds(s, network, b, j);
    var s1 := RecordOutputs(s, network, b, j);
    StillLive(s, s1, network, b, j, w.watchId);
    LiveIsEntry(s, w.watchId, b.outputs[j].outpoint);
    LiveIsEntry(s1, w.watchId, b.outputs[j].outpoint);
    PaidBeforeIs(s.watches, w, network, b, j);
    forall e | Pays(s.watches, network, b, j, e) && e.watchId == w.watchId
      ensures InIndex(s1, e) || WatchHas(s, w.watchId, e.outpoint)
    {
    }
    HeldIsLive(s, w.watchId);
  }

  lemma HeldIsLive(s: Store, id: string)
    ensures forall outpoint :: WatchHas(s, id, outpoint) ==> HasLive(s, id)
  {
  }

  /** Each watch the output pays records it on its own list. */
  lemma {:induction false} RecordWatchesAt(s: Store, ws: seq<Watch>, o: Output, b: Block, w: Watch)
    requires UniqueIds(ws) && w in ws
    ensures var list := ListOf(s.observations, w.watchId);
      ListOf(RecordWatches(s, ws, o, b).observations, w.watchId) == Recorded(list, ObservationOf(list, w, o, b))
  {
    hide RecordOne, Recorded, ObservationOf;
    var last, rest := ws[|ws| - 1], ws[..|ws| - 1];
    assert forall v :: v in ws <==> v in rest || v == last;
    if w == last {
      RecordWatchesFrame(s, rest, o, b, w.watchId);
      RecordOneAt(RecordWatches(s, rest, o, b), w, o, b, w.watchId);
    } else {
      RecordWatchesAt(s, rest, o, b, w);
      RecordOneAt(RecordWatches(s, rest, o, b), last, o, b, w.watchId);
      assert w.watchId != last.watchId by {
        if w.watchId == last.watchId { OneWatch(ws, w, last); }
      }
    }
  }

  lemma RecordOneAt(s: Store, w: Watch, o: Output, b: Block, id: string)
    ensures var list := ListOf(s.observations, id);
      ListOf(RecordOne(s, w, o, b).observations, id) == if id == w.watchId then Recorded(list, ObservationOf(list, w, o, b)) else list
  {
    hide Recorded, HasPriorLive, ClassifyFunding;
  }

  lemma {:induction false} OthersStay(s: Store, ws: seq<Watch>, o: Output, b: Block, id: string, obs: Observation)
    requires obs in ListOf(s.observations, id) && obs.outpoint != o.outpoint
    ensures obs in ListOf(RecordWatches(s, ws, o, b).observations, id)
  {
    hide RecordOne;
    if ws != [] {
      OthersStay(s, ws[..|ws| - 1], o, b, id, obs);
      OtherStays(RecordWatches(s, ws[..|ws| - 1], o, b), ws[|ws| - 1], o, b, id, obs);
    }
  }

  lemma OtherStays(s: Store, w: Watch, o: Output, b: Block, id: string, obs: Observation)
    requires obs in ListOf(s.observations, id) && obs.outpoint != o.outpoint
    ensures obs in ListOf(RecordOne(s, w, o, b).observations, id)
  {
    hide HasPriorLive, ClassifyFunding;
    var list := ListOf(s.observations, id);
    var recorded := Recorded(list, ObservationOf(list, w, o, b));
    var k :| 0 <= k < |list| && list[k] == obs;
    assert recorded[k] == obs;
  }

  lemma {:induction false} RecordedStays(s: Store, network: string, b: Block, m: nat, n: nat, id: string, obs: Observation)
    requires m <= n <= |b.outputs| && obs in ListOf(RecordOutputs(s, network, b, m).observations, id)
    requires forall i :: m <= i < n ==> b.outputs[i].outpoint != obs.outpoint
    ensures obs in ListOf(RecordOutputs(s, network, b, n).observations, id)
    decreases n - m
  {
    hide RecordWatches, ActiveAt, ListOf;
    if m < n {
      RecordedStays(s, network, b, m, n - 1, id, obs);
      OthersStay(RecordOutputs(s, network, b, n - 1), ActiveAt(s.watches, network, b.outputs[n - 1]), b.outputs[n - 1], b, id, obs);
    }
  }

  /** The watch's list holds the output as block `b` has it, with a verdict that is right. */
  ghost predicate Holding(s: Store, w: Watch, o: Output, b: Block, second: bool) {
    exists obs :: obs in ListOf(s.observations, w.watchId)
      && EntryOf(obs) == Entry(w.watchId, o.outpoint, b.hash, b.height, o.amountGrains)
      && obs.matchStatus != Detached
      && VerdictIs(obs.classification, w, b, o.amountGrains, second)
  }

  lemma RecordedVerdict(list: seq<Observation>, w: Watch, o: Output, b: Block) returns (obs: Observation)
    requires !LiveIn(list, o.outpoint)
    ensures obs in Recorded(list, ObservationOf(list, w, o, b))
    ensures obs == Observation(o.outpoint, w.watchId, b.hash, b.height, o.amountGrains, 1, Pending, obs.classification)
    ensures VerdictIs(obs.classification, w, b, o.amountGrains, HasPriorLive(list, o.outpoint))
  {
    hide HasPriorLive;
    obs := ObservationOf(list, w, o, b);
    RecordedAt(list, obs);
  }

  lemma OutputVerdict(s: Store, network: string, b: Block, j: nat, w: Watch)
    requires StoreOk(s) && DistinctOutputs(b) && j < |b.outputs| && w in s.watches
    requires Watching(w, network, b.outputs[j]) && !WatchHas(s, w.watchId, b.outputs[j].outpoint)
    ensures Holding(RecordOutputs(s, network, b, |b.outputs|), w, b.outputs[j], b, HasLive(s, w.watchId) || WatchPaidBefore(w, network, b, j))
  {
    hide RecordWatches, ActiveAt, HasLive, WatchPaidBefore, HasPriorLive, VerdictIs, Recorded, ObservationOf, ListOk, LiveIn;
    var o, s1 := b.outputs[j], RecordOutputs(s, network, b, j);
    LiveBefore(s, network, b, j, w);
    ActiveAtIs(s.watches, network, o);
    var list := ListOf(s1.observations, w.watchId);
    RecordWatchesAt(s1, ActiveAt(s.watches, network, o), o, b, w);
    var obs := RecordedVerdict(list, w, o, b);
    assert obs in ListOf(RecordOutputs(s, network, b, j + 1).observations, w.watchId);
    RecordedStays(s, network, b, j + 1, |b.outputs|, w.watchId, obs);
  }

  // ---- Spends ----

  /** The watch is registered and has the outpoint live. */
  predicate Holds(s: Store, id: string, outpoint: string) {
    && (exists k :: 0 <= k < |s.watches| && s.watches[k].watchId == id)
    && id in s.observations
    && exists k :: 0 <= k < |s.observations[id]| && s.observations[id][k].outpoint == outpoint && s.observations[id][k].matchStatus != Detached
  }

  /** The first watch to have observed anything that holds the outpoint. */
  predicate FirstHolder(s: Store, id: string, outpoint: string) {
    exists m :: 0 <= m < |s.observed| && s.observed[m] == id && Holds(s, id, outpoint)
      && forall l :: 0 <= l < m ==> !Holds(s, s.observed[l], outpoint)
  }

  /** The watch has this transaction's spend of the outpoint on record. */
  predicate OnRecord(s: Store, id: string, txid: string, outpoint: string) {
    id in s.spends && exists k :: 0 <= k < |s.spends[id]| && s.spends[id][k].spendTxid == txid && s.spends[id][k].spentOutpoint == outpoint
  }

  lemma {:induction false} FoundFirst(s: Store, outpoint: string, from: nat)
    requires from <= |s.observed| && forall l :: 0 <= l < from ==> !Holds(s, s.observed[l], outpoint)
    ensures var r := FindObserved(s, outpoint, from);
      && (r.Some? ==> FirstHolder(s, r.value, outpoint))
      && (r.None? ==> forall l :: 0 <= l < |s.observed| ==> !Holds(s, s.observed[l], outpoint))
    decreases |s.observed| - from
  {
    if from < |s.observed| {
      var id := s.observed[from];
      assert LiveIn(ListOf(s.observations, id), outpoint) && Registered(s.watches, id) <==> Holds(s, id, outpoint);
      hide LiveIn, Registered, Holds;
      if !Holds(s, id, outpoint) { FoundFirst(s, outpoint, from + 1); }
    }
  }

  lemma FirstHolderIsOne(s: Store, outpoint: string, i: string, k: string)
    requires FirstHolder(s, i, outpoint) && FirstHolder(s, k, outpoint)
    ensures i == k
  {
    hide Holds;
  }

  lemma FoundIs(s: Store, outpoint: string, id: string)
    ensures FindObserved(s, outpoint, 0) == Some(id) <==> FirstHolder(s, id, outpoint)
  {
    hide Holds, FindObserved;
    FoundFirst(s, outpoint, 0);
    var r := FindObserved(s, outpoint, 0);
    if r.Some? && FirstHolder(s, id, outpoint) {
      FirstHolderIsOne(s, outpoint, r.value, id);
    }
  }

  /** An input spends the outpoint and its watch has no record of it. */
  predicate NewSpend(s: Store, i: Input, id: string, outpoint: string) {
    outpoint != "" && i.spentOutpoint == Some(outpoint) && FirstHolder(s, id, outpoint) && !OnRecord(s, id, i.txid, outpoint)
  }

  /** What one input does to observation `k` of a watch and to the spends on record. */
  lemma InputSpends(s: Store, i: Input, b: Block, id: string, k: nat)
    requires id in s.observations && k < |s.observations[id]|
    ensures var s', o := RecordSpendOne(s, i, b), s.observations[id][k];
      && s'.watches == s.watches && s'.observed == s.observed
      && id in s'.observations && |s'.observations[id]| == |s.observations[id]|
      && s'.observations[id][k] == if NewSpend(s, i, id, o.outpoint) then o.(matchStatus := Spent) else o
  {
    hide FindObserved, FirstHolder;
    if i.spentOutpoint.Some? {
      FoundIs(s, i.spentOutpoint.value, id);
    }
  }

  lemma InputRecords(s: Store, i: Input, b: Block, id: string, txid: string, outpoint: string)
    ensures OnRecord(RecordSpendOne(s, i, b), id, txid, outpoint) <==>
      OnRecord(s, id, txid, outpoint) || (outpoint != "" && i == Input(txid, Some(outpoint)) && FirstHolder(s, id, outpoint))
    ensures forall sp :: sp in ListOf(RecordSpendOne(s, i, b).spends, id) && sp !in ListOf(s.spends, id) ==>
      i.spentOutpoint.Some? && sp == Spend(i.txid, i.spentOutpoint.value, b.hash, b.height)
  {
    hide FindObserved, FirstHolder;
    if i.spentOutpoint.Some? {
      FoundIs(s, i.spentOutpoint.value, id);
      var s' := RecordSpendOne(s, i, b);
      if id in s'.spends {
        var sp := Spend(i.txid, i.spentOutpoint.value, b.hash, b.height);
        assert s'.spends[id] == ListOf(s.spends, id) || s'.spends[id][|s'.spends[id]| - 1] == sp;
        assert forall k :: 0 <= k < |ListOf(s.spends, id)| ==> s'.spends[id][k] == ListOf(s.spends, id)[k];
      }
    }
  }

  /** Neither spends nor what they mark changes who holds an outpoint. */
  ghost predicate SameHolders(s: Store, s': Store) {
    && s'.watches == s.watches && s'.observed == s.observed && s'.observations.Keys == s.observations.Keys
    && forall id | id in s.observations ::
         && |s'.observations[id]| == |s.observations[id]|
         && forall k :: 0 <= k < |s.observations[id]| ==>
              && s'.observations[id][k] == s.observations[id][k].(matchStatus := s'.observations[id][k].matchStatus)
              && (s'.observations[id][k].matchStatus == Detached <==> s.observations[id][k].matchStatus == Detached)
  }

  lemma SameHolds(s: Store, s': Store, id: string, outpoint: string)
    requires SameHolders(s, s')
    ensures Holds(s', id, outpoint) <==> Holds(s, id, outpoint)
  {
    if Holds(s, id, outpoint) {
      var k :| 0 <= k < |s.observations[id]| && s.observations[id][k].outpoint == outpoint && s.observations[id][k].matchStatus != Detached;
      assert s'.observations[id][k].outpoint == outpoint;
    }
    if Holds(s', id, outpoint) {
      var k :| 0 <= k < |s'.observations[id]| && s'.observations[id][k].outpoint == outpoint && s'.observations[id][k].matchStatus != Detached;
      assert s.observations[id][k].outpoint == outpoint;
    }
  }

  lemma SameFirst(s: Store, s': Store, id: string, outpoint: string)
    requires SameHolders(s, s')
    ensures FirstHolder(s', id, outpoint) <==> FirstHolder(s, id, outpoint)
  {
    hide SameHolders, Holds;
    assert s'.observed == s.observed by { SameObserved(s, s'); }
    forall i {
      SameHolds(s, s', i, outpoint);
    }
  }

  lemma SameObserved(s: Store, s': Store)
    requires SameHolders(s, s')
    ensures s'.observed == s.observed
  {
  }

  lemma InputKeepsHolders(s: Store, i: Input, b: Block)
    requires StoreOk(s)
    ensures StoreOk(RecordSpendOne(s, i, b)) && SameHolders(s, RecordSpendOne(s, i, b))
  {
    hide FindObserved, UniqueIds, Registered, OnePrimary;
    RecordSpendKeeps(s, i, b);
    if i.spentOutpoint.Some? {
      var outpoint := i.spentOutpoint.value;
      FoundIsLive(s, outpoint, 0);
      var found := FindObserved(s, outpoint);
      if found.Some? {
        MarkedKeepDetached(s.observations[found.value], outpoint);
      }
    }
  }

  lemma MarkedKeepDetached(list: seq<Observation>, outpoint: string)
    requires DistinctOutpoints(list) && LiveIn(list, outpoint)
    ensures forall k :: 0 <= k < |list| ==> (MarkSpent(list, outpoint)[k].matchStatus == Detached <==> list[k].matchStatus == Detached)
  {
  }

  lemma {:induction false} InputsKeepHolders(s: Store, b: Block, n: nat)
    requires StoreOk(s) && n <= |b.inputs|
    ensures StoreOk(RecordSpends(s, b, n)) && SameHolders(s, RecordSpends(s, b, n))
  {
    hide StoreOk, RecordSpendOne;
    if n > 0 {
      InputsKeepHolders(s, b, n - 1);
      InputKeepsHolders(RecordSpends(s, b, n - 1), b.inputs[n - 1], b);
    }
  }

  /** Which spends are on record after the first `n` inputs: those that were, and those of an outpoint the watch holds first. */
  lemma {:induction false} BlockRecords(s: Store, b: Block, n: nat, id: string, txid: string, outpoint: string)
    requires StoreOk(s) && n <= |b.inputs|
    ensures OnRecord(RecordSpends(s, b, n), id, txid, outpoint) <==>
      || OnRecord(s, id, txid, outpoint)
      || (outpoint != "" && FirstHolder(s, id, outpoint) && exists i :: 0 <= i < n && b.inputs[i] == Input(txid, Some(outpoint)))
  {
    hide StoreOk, OnRecord, FirstHolder, RecordSpendOne, SameHolders;
    if n > 0 {
      BlockRecords(s, b, n - 1, id, txid, outpoint);
      InputsKeepHolders(s, b, n - 1);
      SameFirst(s, RecordSpends(s, b, n - 1), id, outpoint);
      InputRecords(RecordSpends(s, b, n - 1), b.inputs[n - 1], b, id, txid, outpoint);
    }
  }

  /** One of the first `n` inputs is a spend of the outpoint that the watch has no record of. */
  predicate NewlySpent(s: Store, b: Block, n: nat, id: string, outpoint: string)
    requires n <= |b.inputs|
  {
    exists i :: 0 <= i < n && NewSpend(s, b.inputs[i], id, outpoint)
  }

  /**
   The block's inputs mark an observation spent exactly when its watch is the first to hold the outpoint and one of the
   inputs spends it in a transaction that the watch has no spend of yet.  So an output that was detached and paid again
   is not spent by the transaction that spent it before; the SQL store marks it each time.
   */
  lemma {:induction false} BlockSpends(s: Store, b: Block, n: nat, id: string, k: nat)
    requires StoreOk(s) && n <= |b.inputs| && id in s.observations && k < |s.observations[id]|
    ensures var s', o := RecordSpends(s, b, n), s.observations[id][k];
      && id in s'.observations && |s'.observations[id]| == |s.observations[id]|
      && s'.observations[id][k] == if NewlySpent(s, b, n, id, o.outpoint) then o.(matchStatus := Spent) else o
  {
    hide StoreOk, OnRecord, FirstHolder, RecordSpendOne, SameHolders;
    if n > 0 {
      var s1, o, i := RecordSpends(s, b, n - 1), s.observations[id][k], b.inputs[n - 1];
      BlockSpends(s, b, n - 1, id, k);
      InputsKeepHolders(s, b, n - 1);
      SameFirst(s, s1, id, o.outpoint);
      BlockRecords(s, b, n - 1, id, i.txid, o.outpoint);
      InputSpends(s1, i, b, id, k);
      if NewSpend(s, i, id, o.outpoint) && !NewSpend(s1, i, id, o.outpoint) {
        var l :| 0 <= l < n - 1 && b.inputs[l] == Input(i.txid, Some(o.outpoint));
        assert NewSpend(s, b.inputs[l], id, o.outpoint);
      }
      assert NewlySpent(s, b, n, id, o.outpoint) <==> NewlySpent(s, b, n - 1, id, o.outpoint) || NewSpend(s, i, id, o.outpoint);
    }
  }

  // ---- One saved block ----

  lemma SpendsKeepHolding(s: Store, b: Block, w: Watch, o: Output, second: bool)
    requires StoreOk(s) && Holding(s, w, o, b, second)
    ensures Holding(RecordSpends(s, b, |b.inputs|), w, o, b, second)
  {
    hide VerdictIs, StoreOk, RecordSpends;
    var s' := RecordSpends(s, b, |b.inputs|);
    InputsKeepHolders(s, b, |b.inputs|);
    var list := s.observations[w.watchId];
    var k :| 0 <= k < |list| && EntryOf(list[k]) == Entry(w.watchId, o.outpoint, b.hash, b.height, o.amountGrains)
      && list[k].matchStatus != Detached && VerdictIs(list[k].classification, w, b, o.amountGrains, second);
    assert s'.observations[w.watchId][k] in ListOf(s'.observations, w.watchId);
  }

  lemma TipKeepsHolding(s: Store, tip: int, w: Watch, o: Output, b: Block, second: bool)
    requires StoreOk(s) && w in s.watches && Holding(s, w, o, b, second)
    ensures Holding(Advance(s, tip), w, o, b, second)
  {
    hide VerdictIs, StoreOk, Advance;
    AdvanceIs(s, tip, w.watchId);
    var list := s.observations[w.watchId];
    var k :| 0 <= k < |list| && EntryOf(list[k]) == Entry(w.watchId, o.outpoint, b.hash, b.height, o.amountGrains)
      && list[k].matchStatus != Detached && VerdictIs(list[k].classification, w, b, o.amountGrains, second);
    var list' := AdvanceList(list, tip, w.requiredConfirmations);
    assert list'[k] in list' && list'[k] == list[k].(matchStatus := list'[k].matchStatus, confirmations := list'[k].confirmations);
  }

  /**
   An output that pays a watch which does not have it live brings the watch an observation of it.  It is a duplicate
   exactly when the watch had another live observation before the block or an earlier output of it pays the watch too;
   any other verdict is by amount and deadline.
   */
  lemma ScannedOutput(s: Store, network: string, b: Block, j: nat, w: Watch)
    requires StoreOk(s) && DistinctOutputs(b) && j < |b.outputs| && w in s.watches
    requires Watching(w, network, b.outputs[j]) && !WatchHas(s, w.watchId, b.outputs[j].outpoint)
    ensures Holding(Scanned(s, network, b), w, b.outputs[j], b, HasLive(s, w.watchId) || WatchPaidBefore(w, network, b, j))
  {
    hide Holding, StoreOk, RecordOutputs, RecordSpends, Advance, HasLive, WatchPaidBefore, Watching, WatchHas, DistinctOutputs;
    var second, s1 := HasLive(s, w.watchId) || WatchPaidBefore(w, network, b, j), RecordOutputs(s, network, b, |b.outputs|);
    OutputVerdict(s, network, b, j, w);
    RecordOutputsAdds(s, network, b, |b.outputs|);
    SpendsKeepHolding(s1, b, w, b.outputs[j], second);
    RecordSpendsKeep(s1, b, |b.inputs|);
    TipKeepsHolding(RecordSpends(s1, b, |b.inputs|), b.height, w, b.outputs[j], b, second);
  }
}
