/**
 What the watch store means: an index of the outputs that pay watched addresses.

 `InIndex` reads the index off the observation lists, `Pays` reads it off a block.  The lemmas here
 follow one saved block through the store (record, mark spent, advance, detach).
 */
module FundingIndex {
  import opened Wrappers
  import opened PearlChain
  import opened WatchedAddresses

  datatype Entry = Entry(watchId: string, outpoint: string, blockHash: Hash, height: int, amountGrains: nat)

  function EntryOf(o: Observation): Entry {
    Entry(o.watchId, o.outpoint, o.blockHash, o.height, o.amountGrains)
  }

  function PaidEntry(w: Watch, o: Output, b: Block): Entry {
    Entry(w.watchId, o.outpoint, b.hash, b.height, o.amountGrains)
  }

  predicate Listed(list: seq<Observation>, e: Entry) {
    exists k :: 0 <= k < |list| && list[k].matchStatus != Detached && EntryOf(list[k]) == e
  }

  /** The store holds the entry under its watch, and the observation is not detached. */
  predicate InIndex(s: Store, e: Entry) {
    Listed(ListOf(s.observations, e.watchId), e)
  }

  predicate PaysTo(ws: seq<Watch>, network: string, o: Output, b: Block, e: Entry) {
    exists w :: w in ws && Matches(w, network, o) && e == PaidEntry(w, o, b)
  }

  /** One of the first `n` outputs of `b` pays a watched address, as `e` says. */
  predicate Pays(ws: seq<Watch>, network: string, b: Block, n: nat, e: Entry)
    requires n <= |b.outputs|
  {
    exists j :: 0 <= j < n && PaysTo(ws, network, b.outputs[j], b, e)
  }

  // ---- Well-formed lists ----

  predicate DistinctOutpoints(list: seq<Observation>) {
    forall i, j :: 0 <= i < j < |list| ==> list[i].outpoint != list[j].outpoint
  }

  /** Among the live observations of one watch, at most one is not classified as a duplicate. */
  predicate OnePrimary(list: seq<Observation>) {
    forall i, j ::
      0 <= i < j < |list| && list[i].matchStatus != Detached && list[j].matchStatus != Detached
      ==> list[i].classification == DuplicateFunding || list[j].classification == DuplicateFunding
  }

  predicate ListOk(list: seq<Observation>, id: string) {
    && (forall k :: 0 <= k < |list| ==> list[k].watchId == id)
    && DistinctOutpoints(list)
    && OnePrimary(list)
  }

  predicate UniqueIds(ws: seq<Watch>) {
    forall i, j :: 0 <= i < j < |ws| ==> ws[i].watchId != ws[j].watchId
  }

  predicate StoreOk(s: Store) {
    && UniqueIds(s.watches)
    && forall id | id in s.observations :: ListOk(s.observations[id], id) && Registered(s.watches, id)
  }

  // ---- List lemmas ----

  lemma RecordedAt(list: seq<Observation>, obs: Observation)
    requires !LiveIn(list, obs.outpoint)
    ensures var i := IndexOf(list, obs.outpoint);
      && |Recorded(list, obs)| == (if i == |list| then |list| + 1 else |list|)
      && Recorded(list, obs)[i] == obs
      && (i < |list| ==> list[i].matchStatus == Detached)
    ensures DistinctOutpoints(list) ==>
      forall k :: 0 <= k < |list| && k != IndexOf(list, obs.outpoint) ==> Recorded(list, obs)[k] == list[k]
  {
  }

  lemma RecordedAdds(list: seq<Observation>, obs: Observation, e: Entry)
    requires DistinctOutpoints(list) && obs.matchStatus != Detached && !LiveIn(list, obs.outpoint)
    ensures Listed(Recorded(list, obs), e) <==> Listed(list, e) || e == EntryOf(obs)
  {
    RecordedAt(list, obs);
    var list', i := Recorded(list, obs), IndexOf(list, obs.outpoint);
    if Listed(list, e) {
      var k :| 0 <= k < |list| && list[k].matchStatus != Detached && EntryOf(list[k]) == e;
      assert list'[k] == list[k];
    }
    assert EntryOf(list'[i]) == EntryOf(obs);
  }

  lemma RecordedOk(list: seq<Observation>, obs: Observation, id: string)
    requires ListOk(list, id) && obs.watchId == id && !LiveIn(list, obs.outpoint)
    requires obs.classification == DuplicateFunding || !HasPriorLive(list, obs.outpoint)
    ensures ListOk(Recorded(list, obs), id)
  {
    RecordedAt(list, obs);
    var list', i := Recorded(list, obs), IndexOf(list, obs.outpoint);
    forall a, c | 0 <= a < c < |list'| && list'[a].matchStatus != Detached && list'[c].matchStatus != Detached
      ensures list'[a].classification == DuplicateFunding || list'[c].classification == DuplicateFunding
    {
      var other := if a == i then c else a;
      assert other == i || list'[other] == list[other];
    }
  }

  lemma MarkSpentKeeps(list: seq<Observation>, outpoint: string, id: string, e: Entry)
    requires ListOk(list, id) && LiveIn(list, outpoint)
    ensures ListOk(MarkSpent(list, outpoint), id)
    ensures Listed(MarkSpent(list, outpoint), e) <==> Listed(list, e)
  {
    var list' := MarkSpent(list, outpoint);
    assert forall k :: 0 <= k < |list| ==>
      list'[k] == list[k].(matchStatus := list'[k].matchStatus)
      && (list'[k].matchStatus == Detached <==> list[k].matchStatus == Detached);
  }

  lemma AdvanceListKeeps(list: seq<Observation>, tip: int, required: int, id: string, e: Entry)
    requires ListOk(list, id)
    ensures ListOk(AdvanceList(list, tip, required), id)
    ensures Listed(AdvanceList(list, tip, required), e) <==> Listed(list, e)
  {
    var list' := AdvanceList(list, tip, required);
    assert forall k :: 0 <= k < |list| ==>
      list'[k] == list[k].(matchStatus := list'[k].matchStatus, confirmations := list'[k].confirmations)
      && (list'[k].matchStatus == Detached <==> list[k].matchStatus == Detached);
  }

  lemma DetachListDrops(list: seq<Observation>, h: Hash, id: string, e: Entry)
    requires ListOk(list, id)
    ensures ListOk(DetachList(list, h), id)
    ensures Listed(DetachList(list, h), e) <==> Listed(list, e) && e.blockHash != h
  {
    var list' := DetachList(list, h);
    if Listed(list, e) && e.blockHash != h {
      var k :| 0 <= k < |list| && list[k].matchStatus != Detached && EntryOf(list[k]) == e;
      assert list'[k] == list[k];
    }
  }

  // ---- One block through the store ----

  /** The watch has a live observation of the outpoint. */
  predicate WatchHas(s: Store, id: string, outpoint: string) {
    LiveIn(ListOf(s.observations, id), outpoint)
  }

  lemma LiveIsIndexed(s: Store, id: string, outpoint: string)
    requires StoreOk(s)
    ensures WatchHas(s, id, outpoint) <==> exists e :: InIndex(s, e) && e.watchId == id && e.outpoint == outpoint
  {
    hide UniqueIds, Registered, DistinctOutpoints, OnePrimary;
    var list := ListOf(s.observations, id);
    if WatchHas(s, id, outpoint) {
      var k :| 0 <= k < |list| && list[k].outpoint == outpoint && list[k].matchStatus != Detached;
      assert InIndex(s, EntryOf(list[k]));
    }
  }

  /** Recording one output for one watch adds its entry, unless the watch has the outpoint live already. */
  lemma RecordOneAdds(s: Store, w: Watch, o: Output, b: Block)
    requires StoreOk(s) && w in s.watches
    ensures var s' := RecordOne(s, w, o, b);
      && StoreOk(s')
      && forall e :: InIndex(s', e) <==> InIndex(s, e) || (e == PaidEntry(w, o, b) && !WatchHas(s, w.watchId, o.outpoint))
  {
    hide StoreOk, InIndex, RecordOne, WatchHas;
    if WatchHas(s, w.watchId, o.outpoint) {
      LiveIsKept(s, w, o, b);
    } else {
      NewOneAdds(s, w, o, b);
    }
  }

  lemma LiveIsKept(s: Store, w: Watch, o: Output, b: Block)
    requires StoreOk(s) && WatchHas(s, w.watchId, o.outpoint)
    ensures RecordOne(s, w, o, b) == s
  {
    var list := ListOf(s.observations, w.watchId);
    var k :| 0 <= k < |list| && list[k].outpoint == o.outpoint && list[k].matchStatus != Detached;
    var i := IndexOf(list, o.outpoint);
    assert i == k;
  }

  lemma NewOneAdds(s: Store, w: Watch, o: Output, b: Block)
    requires StoreOk(s) && w in s.watches && !WatchHas(s, w.watchId, o.outpoint)
    ensures var s' := RecordOne(s, w, o, b);
      StoreOk(s') && forall e :: InIndex(s', e) <==> InIndex(s, e) || e == PaidEntry(w, o, b)
  {
    var list, s' := ListOf(s.observations, w.watchId), RecordOne(s, w, o, b);
    var obs := ObservationOf(list, w, o, b);
    RecordedAt(list, obs);
    RecordedOk(list, obs, w.watchId);
    assert s'.observations == s.observations[w.watchId := Recorded(list, obs)];
    hide Recorded, LiveIn;
    var i :| 0 <= i < |s.watches| && s.watches[i] == w;
    assert s.watches[i].watchId == w.watchId;
    forall e
      ensures InIndex(s', e) <==> InIndex(s, e) || e == PaidEntry(w, o, b)
    {
      RecordedAdds(list, obs, e);
      hide Listed, ListOk, ObservationOf;
      assert EntryOf(obs) == PaidEntry(w, o, b);
      if e.watchId == w.watchId {
        assert ListOf(s'.observations, e.watchId) == Recorded(list, obs);
      } else {
        assert ListOf(s'.observations, e.watchId) == ListOf(s.observations, e.watchId);
      }
    }
  }

  predicate PaidAmong(ws: seq<Watch>, o: Output, b: Block, e: Entry) {
    exists w :: w in ws && e == PaidEntry(w, o, b)
  }

  lemma RecordWatchesFrame(s: Store, ws: seq<Watch>, o: Output, b: Block, id: string)
    requires forall i :: 0 <= i < |ws| ==> ws[i].watchId != id
    ensures ListOf(RecordWatches(s, ws, o, b).observations, id) == ListOf(s.observations, id)
  {
    if ws != [] {
      RecordWatchesFrame(s, ws[..|ws| - 1], o, b, id);
    }
  }

  lemma RecordWatchesAdds(s: Store, ws: seq<Watch>, o: Output, b: Block)
    requires StoreOk(s) && UniqueIds(ws) && (forall w :: w in ws ==> w in s.watches)
    ensures var s' := RecordWatches(s, ws, o, b);
      && StoreOk(s')
      && forall e :: InIndex(s', e) <==> InIndex(s, e) || (PaidAmong(ws, o, b, e) && !WatchHas(s, e.watchId, o.outpoint))
  {
    if ws != [] {
      var w, rest := ws[|ws| - 1], ws[..|ws| - 1];
      assert forall v :: v in ws <==> v in rest || v == w;
      assert forall e :: PaidAmong(ws, o, b, e) <==> PaidAmong(rest, o, b, e) || e == PaidEntry(w, o, b);
      hide RecordOne, InIndex, StoreOk, LiveIn, ListOf, PaidAmong;
      RecordWatchesAdds(s, rest, o, b);
      RecordWatchesFrame(s, rest, o, b, w.watchId);
      WatchesKept(s, rest, o, b);
      RecordOneAdds(RecordWatches(s, rest, o, b), w, o, b);
    }
  }

  lemma ActiveAtIs(ws: seq<Watch>, network: string, o: Output)
    requires UniqueIds(ws)
    ensures UniqueIds(ActiveAt(ws, network, o))
    ensures forall w :: w in ActiveAt(ws, network, o) <==> w in ws && Matches(w, network, o)
  {
    if ws != [] {
      ActiveAtIs(ws[1..], network, o);
      var rest := ActiveAt(ws[1..], network, o);
      forall w | w in rest
        ensures w.watchId != ws[0].watchId
      {
        var k :| 0 <= k < |ws[1..]| && ws[1..][k] == w;
        assert w == ws[k + 1];
      }
    }
  }

  predicate DistinctOutputs(b: Block) {
    forall i, j :: 0 <= i < j < |b.outputs| ==> b.outputs[i].outpoint != b.outputs[j].outpoint
  }

  lemma RecordOutputAdds(s: Store, network: string, b: Block, j: nat)
    requires StoreOk(s) && j < |b.outputs|
    ensures var o := b.outputs[j];
      var s' := RecordWatches(s, ActiveAt(s.watches, network, o), o, b);
      && StoreOk(s') && s'.watches == s.watches
      && forall e :: InIndex(s', e) <==> InIndex(s, e) || (PaysTo(s.watches, network, o, b, e) && !WatchHas(s, e.watchId, o.outpoint))
  {
    var o := b.outputs[j];
    var ws := ActiveAt(s.watches, network, o);
    ActiveAtIs(s.watches, network, o);
    assert forall e :: PaidAmong(ws, o, b, e) <==> PaysTo(s.watches, network, o, b, e);
    hide InIndex, PaysTo, RecordWatches, WatchHas, PaidAmong, Matches;
    WatchesKept(s, ws, o, b);
    RecordWatchesAdds(s, ws, o, b);
  }

  /** `s'` indexes what `s` does and, beside it, what the first `n` outputs of `b` pay to a watch that does not have them yet. */
  ghost predicate Adds(s: Store, s': Store, network: string, b: Block, n: nat)
    requires n <= |b.outputs|
  {
    forall e :: InIndex(s', e) <==> InIndex(s, e) || (Pays(s.watches, network, b, n, e) && !WatchHas(s, e.watchId, e.outpoint))
  }

  /** A later output's outpoint is live after the first `n` outputs just where it was before. */
  lemma StillLive(s: Store, s': Store, network: string, b: Block, n: nat, id: string)
    requires StoreOk(s) && StoreOk(s') && n < |b.outputs| && DistinctOutputs(b) && Adds(s, s', network, b, n)
    ensures WatchHas(s', id, b.outputs[n].outpoint) <==> WatchHas(s, id, b.outputs[n].outpoint)
  {
    hide StoreOk, InIndex, WatchHas;
    var outpoint := b.outputs[n].outpoint;
    LiveIsIndexed(s, id, outpoint);
    LiveIsIndexed(s', id, outpoint);
    forall e | Pays(s.watches, network, b, n, e)
      ensures e.outpoint != outpoint
    {
      var j :| 0 <= j < n && PaysTo(s.watches, network, b.outputs[j], b, e);
    }
  }

  /** Recording a block's outputs adds exactly the entries it pays to watches that do not have the output yet. */
  lemma RecordOutputsAdds(s: Store, network: string, b: Block, n: nat)
    requires StoreOk(s) && n <= |b.outputs| && DistinctOutputs(b)
    ensures var s' := RecordOutputs(s, network, b, n);
      StoreOk(s') && s'.watches == s.watches && Adds(s, s', network, b, n)
  {
    hide InIndex, RecordWatches, ActiveAt, StoreOk, WatchHas, DistinctOutputs, Matches;
    if n > 0 {
      var o, s1 := b.outputs[n - 1], RecordOutputs(s, network, b, n - 1);
      RecordOutputsAdds(s, network, b, n - 1);
      RecordOutputAdds(s1, network, b, n - 1);
      forall e
        ensures PaysTo(s.watches, network, o, b, e) ==> e.outpoint == o.outpoint
        ensures WatchHas(s1, e.watchId, o.outpoint) <==> WatchHas(s, e.watchId, o.outpoint)
      {
        StillLive(s, s1, network, b, n - 1, e.watchId);
      }
      PaysOneMore(s.watches, network, b, n - 1);
    }
  }

  lemma PaysOneMore(ws: seq<Watch>, network: string, b: Block, n: nat)
    requires n < |b.outputs|
    ensures forall e :: Pays(ws, network, b, n + 1, e) <==> Pays(ws, network, b, n, e) || PaysTo(ws, network, b.outputs[n], b, e)
  {
    hide PaysTo;
  }

  lemma FoundIsLive(s: Store, outpoint: string, from: nat)
    requires from <= |s.observed|
    ensures var r := FindObserved(s, outpoint, from);
      r.Some? ==> LiveIn(ListOf(s.observations, r.value), outpoint) && Registered(s.watches, r.value)
    decreases |s.observed| - from
  {
  }

  /** `s'` indexes exactly what `s` does. */
  ghost predicate SameIndex(s: Store, s': Store) {
    StoreOk(s') && s'.watches == s.watches && forall e :: InIndex(s', e) <==> InIndex(s, e)
  }

  lemma MarkingKeeps(s: Store, id: string, outpoint: string, spends: map<string, seq<Spend>>)
    requires StoreOk(s) && id in s.observations && LiveIn(s.observations[id], outpoint)
    ensures SameIndex(s, s.(spends := spends, observations := s.observations[id := MarkSpent(s.observations[id], outpoint)]))
  {
    hide ListOk, Listed, MarkSpent, LiveIn;
    MarkSpentKeeps(s.observations[id], outpoint, id, Entry(id, outpoint, "", 0, 0));
    forall e {
      MarkSpentKeeps(s.observations[id], outpoint, id, e);
    }
  }

  lemma RecordSpendKeeps(s: Store, i: Input, b: Block)
    requires StoreOk(s)
    ensures SameIndex(s, RecordSpendOne(s, i, b))
  {
    hide StoreOk, InIndex, FindObserved, MarkSpent, SpendRecorded;
    if i.spentOutpoint.Some? {
      FoundIsLive(s, i.spentOutpoint.value, 0);
      var found := FindObserved(s, i.spentOutpoint.value);
      if found.Some? && found.value in s.observations {
        var sp := Spend(i.txid, i.spentOutpoint.value, b.hash, b.height);
        MarkingKeeps(s, found.value, i.spentOutpoint.value, s.spends[found.value := ListOf(s.spends, found.value) + [sp]]);
      }
    }
  }

  lemma RecordSpendsKeep(s: Store, b: Block, n: nat)
    requires StoreOk(s) && n <= |b.inputs|
    ensures SameIndex(s, RecordSpends(s, b, n))
  {
    if n > 0 {
      RecordSpendsKeep(s, b, n - 1);
      RecordSpendKeeps(RecordSpends(s, b, n - 1), b.inputs[n - 1], b);
    }
  }

  /** Detaching a block's observations removes exactly the entries of that block; the observations stay, as reorganised. */
  lemma DetachDrops(s: Store, h: Hash)
    requires StoreOk(s)
    ensures Detach(s, h).observations.Keys == s.observations.Keys
    ensures forall id, k | id in s.observations && 0 <= k < |s.observations[id]| ::
      var o, o' := s.observations[id][k], Detach(s, h).observations[id][k];
      && (o.blockHash == h && o.matchStatus != Detached ==> o' == o.(matchStatus := Detached, classification := Reorged))
      && (o.blockHash != h || o.matchStatus == Detached ==> o' == o)
    ensures StoreOk(Detach(s, h))
    ensures forall e :: InIndex(Detach(s, h), e) <==> InIndex(s, e) && e.blockHash != h
  {
    forall id, e | id in s.observations
      ensures ListOk(DetachList(s.observations[id], h), id)
      ensures Listed(DetachList(s.observations[id], h), e) <==> Listed(s.observations[id], e) && e.blockHash != h
    {
      DetachListDrops(s.observations[id], h, id, e);
    }
  }

  // ---- Confirmations ----

  lemma AdvanceWatchesAt(s: Store, tip: int, n: nat, k: nat)
    requires n <= |s.watches| && k < |s.watches| && UniqueIds(s.watches)
    ensures AdvanceWatches(s, tip, n).observations.Keys == s.observations.Keys
    ensures var w := s.watches[k];
      ListOf(AdvanceWatches(s, tip, n).observations, w.watchId) ==
        if k < n then AdvanceList(ListOf(s.observations, w.watchId), tip, w.requiredConfirmations)
        else ListOf(s.observations, w.watchId)
  {
    if n > 0 {
      AdvanceWatchesAt(s, tip, n - 1, k);
      if k < n - 1 { assert s.watches[k].watchId != s.watches[n - 1].watchId; }
    }
  }

  predicate DepthIs(o: Observation, tip: int, required: int) {
    o.matchStatus == Pending || o.matchStatus == Confirmed ==>
      && o.confirmations == tip - o.height + 1
      && (o.matchStatus == Confirmed <==> o.confirmations >= required)
  }

  /** Every pending or confirmed observation carries its depth below `tip`. */
  ghost predicate ConfirmationsAre(s: Store, tip: int) {
    forall w, o :: w in s.watches && o in ListOf(s.observations, w.watchId) ==> DepthIs(o, tip, w.requiredConfirmations)
  }

  lemma AdvanceIs(s: Store, tip: int, id: string)
    requires StoreOk(s)
    ensures var s' := Advance(s, tip);
      && s'.watches == s.watches
      && (id in s'.observations <==> id in s.observations)
      && (forall w :: w in s.watches && w.watchId == id ==>
            ListOf(s'.observations, id) == AdvanceList(ListOf(s.observations, id), tip, w.requiredConfirmations))
      && (id !in s'.observations || exists w :: w in s.watches && w.watchId == id)
  {
    hide AdvanceList, ListOk;
    AdvanceKeepsWatches(s, tip, |s.watches|);
    if k :| 0 <= k < |s.watches| && s.watches[k].watchId == id {
      AdvanceWatchesAt(s, tip, |s.watches|, k);
      assert s.watches[k] in s.watches;
    } else {
      AdvanceFrame(s, tip, |s.watches|, id);
    }
  }

  lemma AdvanceFrame(s: Store, tip: int, n: nat, id: string)
    requires n <= |s.watches|
    ensures id in AdvanceWatches(s, tip, n).observations <==> id in s.observations
  {
  }

  /** Advancing keeps the index and gives every observation its depth. */
  lemma AdvanceSets(s: Store, tip: int)
    requires StoreOk(s)
    ensures SameIndex(s, Advance(s, tip)) && ConfirmationsAre(Advance(s, tip), tip)
  {
    var s' := Advance(s, tip);
    forall id
      ensures s'.watches == s.watches
      ensures id in s'.observations ==> id in s.observations && ListOk(s'.observations[id], id)
      ensures forall e :: Listed(ListOf(s'.observations, id), e) <==> Listed(ListOf(s.observations, id), e)
      ensures forall w, o :: w in s.watches && w.watchId == id && o in ListOf(s'.observations, id)
                ==> DepthIs(o, tip, w.requiredConfirmations)
    {
      AdvanceIs(s, tip, id);
      hide Advance, Listed, ListOk, UniqueIds;
      if id in s'.observations {
        var w :| w in s.watches && w.watchId == id;
        forall e { AdvanceListKeeps(s.observations[id], tip, w.requiredConfirmations, id, e); }
      }
    }
    hide Advance, ListOk, Listed;
    AdvanceIs(s, tip, "");
  }
}
