/**
 The SQL watch store the indexer runs on: `PgWatchedAddressRepository` in
 services/pearl-indexer/src/watched-address-repository.ts over the tables of migrations/002_watched_addresses.sql.

 `address_observations` is a map by outpoint, so an output has one row however many watches its address has.  The
 lemmas follow one saved block through the tables; `PgOutputsAdd` says which rows a block adds.
 */
module PgWatchedAddresses {
  import opened Wrappers
  import opened PearlChain
  import opened WatchedAddresses
  import opened FundingIndex

  /** Rows of `watched_addresses` in the order a query returns them, of `address_observations` and `address_spends`. */
  datatype PgStore = PgStore(watches: seq<Watch>, rows: map<string, Observation>, spends: map<(string, string), Spend>)

  // ---- The statements ----

  predicate LiveRowAt(s: PgStore, outpoint: string) {
    outpoint in s.rows && s.rows[outpoint].matchStatus != Detached
  }

  /** `hasPriorLiveObservation` over a watch's rows. */
  predicate PgPriorLive(s: PgStore, watchId: string, outpoint: string) {
    exists p :: p in s.rows && s.rows[p].watchId == watchId && s.rows[p].outpoint != outpoint && s.rows[p].matchStatus != Detached
  }

  function PgObservationOf(s: PgStore, w: Watch, o: Output, b: Block): Observation {
    Observation(o.outpoint, w.watchId, b.hash, b.height, o.amountGrains, 1, Pending,
      if PgPriorLive(s, w.watchId, o.outpoint) then DuplicateFunding else ClassifyFunding(o, b, w))
  }

  /** `INSERT ... ON CONFLICT (outpoint) DO UPDATE ... WHERE match_status = 'detached'`. */
  function PgRecord(s: PgStore, obs: Observation): PgStore {
    if LiveRowAt(s, obs.outpoint) then s else s.(rows := s.rows[obs.outpoint := obs])
  }

  function PgRecordOne(s: PgStore, w: Watch, o: Output, b: Block): PgStore {
    PgRecord(s, PgObservationOf(s, w, o, b))
  }

  function PgRecordWatches(s: PgStore, ws: seq<Watch>, o: Output, b: Block): PgStore {
    if ws == [] then s
    else PgRecordOne(PgRecordWatches(s, ws[..|ws| - 1], o, b), ws[|ws| - 1], o, b)
  }

  /** The store after the first `n` outputs of the block. */
  function PgRecordOutputs(s: PgStore, network: string, b: Block, n: nat): PgStore
    requires n <= |b.outputs|
  {
    if n == 0 then s
    else
      var o := b.outputs[n - 1];
      PgRecordWatches(PgRecordOutputs(s, network, b, n - 1), ActiveAt(s.watches, network, o), o, b)
  }

  /** The observation `findObservedOutpoint` joins with its watch. */
  function PgFindObserved(s: PgStore, outpoint: string): Option<Observation> {
    if LiveRowAt(s, outpoint) && Registered(s.watches, s.rows[outpoint].watchId) then Some(s.rows[outpoint]) else None
  }

  /** The spend is inserted once, and its observation marked spent each time. */
  function PgRecordSpend(s: PgStore, sp: Spend): PgStore {
    var key := (sp.spendTxid, sp.spentOutpoint);
    s.(spends := if key in s.spends then s.spends else s.spends[key := sp],
       rows := if LiveRowAt(s, sp.spentOutpoint)
               then s.rows[sp.spentOutpoint := s.rows[sp.spentOutpoint].(matchStatus := Spent)] else s.rows)
  }

  function PgRecordSpendOne(s: PgStore, i: Input, b: Block): PgStore {
    if i.spentOutpoint.None? || i.spentOutpoint.value == "" || PgFindObserved(s, i.spentOutpoint.value).None? then s
    else PgRecordSpend(s, Spend(i.txid, i.spentOutpoint.value, b.hash, b.height))
  }

  function PgRecordSpends(s: PgStore, b: Block, n: nat): PgStore
    requires n <= |b.inputs|
  {
    if n == 0 then s else PgRecordSpendOne(PgRecordSpends(s, b, n - 1), b.inputs[n - 1], b)
  }

  /** What a watch requires; none if it is not registered. */
  function RequiredOf(ws: seq<Watch>, watchId: string): Option<int> {
    if ws == [] then None
    else if ws[0].watchId == watchId then Some(ws[0].requiredConfirmations)
    else RequiredOf(ws[1..], watchId)
  }

  function PgAdvanceRow(ws: seq<Watch>, o: Observation, tipHeight: int): Observation {
    match RequiredOf(ws, o.watchId)
    case None => o
    case Some(required) => AdvanceOne(o, tipHeight, required)
  }

  function PgAdvance(s: PgStore, tipHeight: int): PgStore {
    s.(rows := map p | p in s.rows :: PgAdvanceRow(s.watches, s.rows[p], tipHeight))
  }

  function PgDetachRow(o: Observation, blockHash: Hash): Observation {
    if o.blockHash == blockHash && o.matchStatus != Detached then o.(matchStatus := Detached, classification := Reorged) else o
  }

  function PgDetach(s: PgStore, blockHash: Hash): PgStore {
    s.(rows := map p | p in s.rows :: PgDetachRow(s.rows[p], blockHash))
  }

  function PgScanned(s: PgStore, network: string, b: Block): PgStore {
    PgAdvance(PgRecordSpends(PgRecordOutputs(s, network, b, |b.outputs|), b, |b.inputs|), b.height)
  }

  // ---- The index ----

  predicate PgInIndex(s: PgStore, e: Entry) {
    LiveRowAt(s, e.outpoint) && EntryOf(s.rows[e.outpoint]) == e
  }

  /** The entry of an output that pays a watched address: it goes to the first of the address's watches. */
  predicate PaysFirst(ws: seq<Watch>, network: string, o: Output, b: Block, e: Entry) {
    var matching := ActiveAt(ws, network, o);
    matching != [] && e == PaidEntry(matching[0], o, b)
  }

  predicate PaysFirstBy(ws: seq<Watch>, network: string, b: Block, n: nat, e: Entry)
    requires n <= |b.outputs|
  {
    exists j :: 0 <= j < n && PaysFirst(ws, network, b.outputs[j], b, e)
  }

  /** Of two live rows of one watch, one is a duplicate. */
  predicate OnePrimaryRow(rows: map<string, Observation>) {
    forall p, q | p in rows && q in rows && p != q ::
      rows[p].watchId == rows[q].watchId && rows[p].matchStatus != Detached && rows[q].matchStatus != Detached ==>
        rows[p].classification == DuplicateFunding || rows[q].classification == DuplicateFunding
  }

  predicate PgOk(s: PgStore) {
    && UniqueIds(s.watches)
    && (forall p :: p in s.rows ==> s.rows[p].outpoint == p && Registered(s.watches, s.rows[p].watchId))
    && OnePrimaryRow(s.rows)
  }

  // ---- One block through the tables ----

  lemma PgRecordOneKeeps(s: PgStore, w: Watch, o: Output, b: Block)
    requires PgOk(s) && w in s.watches && !LiveRowAt(s, o.outpoint)
    ensures var s' := PgRecordOne(s, w, o, b); PgOk(s') && s'.watches == s.watches && LiveRowAt(s', o.outpoint)
  {
    hide ClassifyFunding;
    var i :| 0 <= i < |s.watches| && s.watches[i] == w;
    assert s.watches[i].watchId == w.watchId;
    var obs, s' := PgObservationOf(s, w, o, b), PgRecordOne(s, w, o, b);
    forall p, q | p in s'.rows && q in s'.rows && p != q && s'.rows[p].watchId == s'.rows[q].watchId
        && s'.rows[p].matchStatus != Detached && s'.rows[q].matchStatus != Detached
      ensures s'.rows[p].classification == DuplicateFunding || s'.rows[q].classification == DuplicateFunding
    {
      var other := if p == o.outpoint then q else p;
      assert s'.rows[other] == s.rows[other];
    }
  }

  lemma PgRecordOneAdds(s: PgStore, w: Watch, o: Output, b: Block)
    requires PgOk(s) && w in s.watches && !LiveRowAt(s, o.outpoint)
    ensures var s' := PgRecordOne(s, w, o, b);
      && PgOk(s') && s'.watches == s.watches && LiveRowAt(s', o.outpoint)
      && forall e :: PgInIndex(s', e) <==> PgInIndex(s, e) || e == PaidEntry(w, o, b)
  {
    hide PgOk, PgInIndex, PgRecordOne;
    PgRecordOneKeeps(s, w, o, b);
    PgRecordOneIndexes(s, w, o, b);
  }

  lemma PgRecordOneIndexes(s: PgStore, w: Watch, o: Output, b: Block)
    requires PgOk(s) && !LiveRowAt(s, o.outpoint)
    ensures forall e :: PgInIndex(PgRecordOne(s, w, o, b), e) <==> PgInIndex(s, e) || e == PaidEntry(w, o, b)
  {
    hide ClassifyFunding;
  }

  /** Of the watches of one address only the first gets the output; the others meet its row. */
  lemma {:induction false} PgRecordWatchesIs(s: PgStore, ws: seq<Watch>, o: Output, b: Block)
    requires PgOk(s) && (forall w :: w in ws ==> w in s.watches) && !LiveRowAt(s, o.outpoint)
    ensures PgRecordWatches(s, ws, o, b) == if ws == [] then s else PgRecordOne(s, ws[0], o, b)
  {
    if |ws| > 1 {
      hide PgOk, PgObservationOf;
      PgRecordWatchesIs(s, ws[..|ws| - 1], o, b);
      PgRecordOneAdds(s, ws[0], o, b);
    } else if ws != [] {
      assert ws[..0] == [];
    }
  }

  /** No output of the block, from the given one on, has a live row. */
  ghost predicate PgNewOutpoints(s: PgStore, b: Block, from: nat) {
    forall j :: from <= j < |b.outputs| ==> !LiveRowAt(s, b.outputs[j].outpoint)
  }

  lemma PgOutputAdds(s: PgStore, network: string, b: Block, j: nat)
    requires PgOk(s) && j < |b.outputs| && PgNewOutpoints(s, b, j) && DistinctOutputs(b)
    ensures var o := b.outputs[j];
      var s' := PgRecordWatches(s, ActiveAt(s.watches, network, o), o, b);
      && PgOk(s') && s'.watches == s.watches && PgNewOutpoints(s', b, j + 1)
      && forall e :: PgInIndex(s', e) <==> PgInIndex(s, e) || PaysFirst(s.watches, network, o, b, e)
  {
    hide PgOk, PgInIndex, ActiveAt, PgObservationOf, Matches;
    var o := b.outputs[j];
    var ws := ActiveAt(s.watches, network, o);
    PgUnique(s);
    ActiveAtIs(s.watches, network, o);
    PgRecordWatchesIs(s, ws, o, b);
    if ws != [] {
      assert ws[0] in ws;
      PgRecordOneAdds(s, ws[0], o, b);
    }
  }

  lemma PgUnique(s: PgStore)
    requires PgOk(s)
    ensures UniqueIds(s.watches)
  {
  }

  /** Recording a block's outputs adds exactly one entry for each output that pays a watched address, its first watch's. */
  lemma {:induction false} PgOutputsAdd(s: PgStore, network: string, b: Block, n: nat)
    requires PgOk(s) && n <= |b.outputs| && DistinctOutputs(b) && PgNewOutpoints(s, b, 0)
    ensures var s' := PgRecordOutputs(s, network, b, n);
      && PgOk(s') && s'.watches == s.watches && PgNewOutpoints(s', b, n)
      && forall e :: PgInIndex(s', e) <==> PgInIndex(s, e) || PaysFirstBy(s.watches, network, b, n, e)
  {
    hide PgInIndex, PaysFirst, PgRecordWatches, ActiveAt, PgOk, PgNewOutpoints, DistinctOutputs;
    if n > 0 {
      PgOutputsAdd(s, network, b, n - 1);
      PgOutputAdds(PgRecordOutputs(s, network, b, n - 1), network, b, n - 1);
      assert forall e :: (PaysFirstBy(s.watches, network, b, n, e) <==>
          PaysFirstBy(s.watches, network, b, n - 1, e) || PaysFirst(s.watches, network, b.outputs[n - 1], b, e));
    }
  }

  ghost predicate PgSameIndex(s: PgStore, s': PgStore) {
    PgOk(s') && s'.watches == s.watches && forall e :: PgInIndex(s', e) <==> PgInIndex(s, e)
  }

  lemma {:induction false} PgSpendsKeep(s: PgStore, b: Block, n: nat)
    requires PgOk(s) && n <= |b.inputs|
    ensures PgSameIndex(s, PgRecordSpends(s, b, n))
  {
    if n > 0 {
      PgSpendsKeep(s, b, n - 1);
      PgSpendKeeps(PgRecordSpends(s, b, n - 1), b.inputs[n - 1], b);
    }
  }

  lemma PgSpendKeeps(s: PgStore, i: Input, b: Block)
    requires PgOk(s)
    ensures PgSameIndex(s, PgRecordSpendOne(s, i, b))
  {
  }

  lemma PgDetachKeeps(s: PgStore, h: Hash)
    requires PgOk(s)
    ensures PgOk(PgDetach(s, h)) && PgDetach(s, h).watches == s.watches
  {
    hide UniqueIds, Registered, OnePrimaryRow;
    assert forall p :: p in s.rows ==> PgDetach(s, h).rows[p] == PgDetachRow(s.rows[p], h);
    PgDetachKeepsPrimaries(s, h);
  }

  lemma PgDetachKeepsPrimaries(s: PgStore, h: Hash)
    requires OnePrimaryRow(s.rows)
    ensures OnePrimaryRow(PgDetach(s, h).rows)
  {
    assert forall p :: p in s.rows && PgDetach(s, h).rows[p].matchStatus != Detached ==> PgDetach(s, h).rows[p] == s.rows[p];
  }

  lemma PgDetachedEntry(s: PgStore, h: Hash, e: Entry)
    ensures PgInIndex(PgDetach(s, h), e) <==> PgInIndex(s, e) && e.blockHash != h
  {
    assert e.outpoint in s.rows ==> PgDetach(s, h).rows[e.outpoint] == PgDetachRow(s.rows[e.outpoint], h);
  }

  /** Detaching a block removes exactly the entries of that block. */
  lemma PgDetachDrops(s: PgStore, h: Hash)
    requires PgOk(s)
    ensures PgOk(PgDetach(s, h)) && PgDetach(s, h).watches == s.watches
    ensures forall e :: PgInIndex(PgDetach(s, h), e) <==> PgInIndex(s, e) && e.blockHash != h
  {
    hide PgOk, PgInIndex, PgDetach;
    PgDetachKeeps(s, h);
    forall e {
      PgDetachedEntry(s, h, e);
    }
  }

  lemma {:induction false} RequiredIs(ws: seq<Watch>, watchId: string)
    requires UniqueIds(ws)
    ensures RequiredOf(ws, watchId).None? <==> !Registered(ws, watchId)
    ensures forall w :: w in ws && w.watchId == watchId ==> RequiredOf(ws, watchId) == Some(w.requiredConfirmations)
  {
    if ws != [] {
      RequiredIs(ws[1..], watchId);
      assert forall w :: w in ws ==> w == ws[0] || w in ws[1..];
      if Registered(ws, watchId) {
        var k :| 0 <= k < |ws| && ws[k].watchId == watchId;
        if k > 0 { assert ws[1..][k - 1].watchId == watchId; }
      }
      if Registered(ws[1..], watchId) {
        var k :| 0 <= k < |ws[1..]| && ws[1..][k].watchId == watchId;
        assert ws[k + 1].watchId == watchId;
      }
    }
  }

  /** Every pending or confirmed row carries its depth below `tip`, against its own watch's requirement. */
  ghost predicate PgConfirmationsAre(s: PgStore, tip: int) {
    forall p, w :: p in s.rows && w in s.watches && s.rows[p].watchId == w.watchId ==> DepthIs(s.rows[p], tip, w.requiredConfirmations)
  }

  /** Advancing keeps the index and gives every row its depth. */
  lemma PgAdvanceSets(s: PgStore, tip: int)
    requires PgOk(s)
    ensures PgSameIndex(s, PgAdvance(s, tip)) && PgConfirmationsAre(PgAdvance(s, tip), tip)
  {
    hide RequiredOf;
    var s' := PgAdvance(s, tip);
    forall p | p in s.rows
      ensures s'.rows[p] == s.rows[p].(confirmations := s'.rows[p].confirmations, matchStatus := s'.rows[p].matchStatus)
      ensures s'.rows[p].matchStatus == Detached <==> s.rows[p].matchStatus == Detached
      ensures forall w :: w in s.watches && s.rows[p].watchId == w.watchId ==> DepthIs(s'.rows[p], tip, w.requiredConfirmations)
    {
      RequiredIs(s.watches, s.rows[p].watchId);
    }
  }
}
