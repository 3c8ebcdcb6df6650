/**
 The indexer as main.ts builds it: the funding scanner (services/pearl-indexer/src/funding-scanner.ts) over the SQL
 block table and the SQL watch store, polled and restarted as `PearlPolling` says.

 Main results: `RunKeepsIndex` (over every run the index is the rescan of the live chain that gives each paid output to
 the first watch of its address), `RescanIff` (it is the full rescan exactly when no live output pays two watches) and
 `ScanSetsDepths` (confirmations are chain depth).  `MemoryIndexer` is the service without a database.
 */
module PearlIndexer {
  import opened Wrappers
  import opened PearlChain
  import opened WatchedAddresses
  import opened FundingIndex
  import opened PgWatchedAddresses
  import opened PearlPolling

  /** On a linked chain no outpoint occurs twice. */
  ghost predicate NoRepeats(chain: seq<Hash>, getBlock: Hash -> Block) {
    && (forall i :: 0 <= i < |chain| ==> DistinctOutputs(getBlock(chain[i])))
    && (forall i, k, a, c :: 0 <= i < k < |chain|
          && 0 <= a < |getBlock(chain[i]).outputs| && 0 <= c < |getBlock(chain[k]).outputs|
          ==> getBlock(chain[i]).outputs[a].outpoint != getBlock(chain[k]).outputs[c].outpoint)
  }

  ghost predicate Network(start: int, getBlock: Hash -> Block) {
    Source(start, getBlock) && forall chain :: IsChain(chain, start, getBlock) ==> NoRepeats(chain, getBlock)
  }

  /** Some block of the chain pays a watched address, as `e` says. */
  ghost predicate PaidByChain(ws: seq<Watch>, network: string, live: seq<Hash>, getBlock: Hash -> Block, e: Entry) {
    exists h :: h in live && Pays(ws, network, getBlock(h), |getBlock(h).outputs|, e)
  }

  /** Some block of the chain pays a watched address, and `e` gives the output to the first watch of it. */
  ghost predicate FirstPaidByChain(ws: seq<Watch>, network: string, live: seq<Hash>, getBlock: Hash -> Block, e: Entry) {
    exists h :: h in live && PaysFirstBy(ws, network, getBlock(h), |getBlock(h).outputs|, e)
  }

  // ---- The SQL watch store ----

  function PgOps(network: string): StoreOps<PgStore> {
    StoreOps((s: PgStore, b: Block) => PgScanned(s, network, b), (s: PgStore, h: Hash) => PgDetach(s, h))
  }

  ghost predicate PgGood(ws: seq<Watch>, network: string, getBlock: Hash -> Block, s: PgStore, live: seq<Hash>) {
    && s.watches == ws && PgOk(s)
    && forall e :: PgInIndex(s, e) <==> FirstPaidByChain(ws, network, live, getBlock, e)
  }

  ghost function PgIndex(ws: seq<Watch>, network: string, getBlock: Hash -> Block): (PgStore, seq<Hash>) -> bool {
    (s: PgStore, live: seq<Hash>) => PgGood(ws, network, getBlock, s, live)
  }

  lemma FirstPaidNamesItsBlock(ws: seq<Watch>, network: string, b: Block, e: Entry)
    requires PaysFirstBy(ws, network, b, |b.outputs|, e)
    ensures e.blockHash == b.hash && e.height == b.height
    ensures exists j :: 0 <= j < |b.outputs| && b.outputs[j].outpoint == e.outpoint
  {
    var j :| 0 <= j < |b.outputs| && PaysFirst(ws, network, b.outputs[j], b, e);
    assert b.outputs[j].outpoint == e.outpoint;
  }

  /** The outputs of a block that extends the chain have no live row. */
  lemma PgExtendsIsNew(ws: seq<Watch>, network: string, start: int, getBlock: Hash -> Block, s: PgStore, live: seq<Hash>, h: Hash)
    requires Network(start, getBlock) && PgGood(ws, network, getBlock, s, live) && IsChain(live + [h], start, getBlock)
    ensures DistinctOutputs(getBlock(h)) && PgNewOutpoints(s, getBlock(h), 0)
  {
    var pushed, b := live + [h], getBlock(h);
    assert NoRepeats(pushed, getBlock) && pushed[|live|] == h;
    forall e, j | PgInIndex(s, e) && 0 <= j < |b.outputs|
      ensures e.outpoint != b.outputs[j].outpoint
    {
      var g := InChain(ws, network, getBlock, s, live, e);
      FirstPaidNamesItsBlock(ws, network, getBlock(live[g]), e);
      var c :| 0 <= c < |getBlock(live[g]).outputs| && getBlock(live[g]).outputs[c].outpoint == e.outpoint;
      assert pushed[g] == live[g];
    }
    forall p {
      RowHasEntry(s, p);
    }
  }

  lemma RowHasEntry(s: PgStore, p: string)
    requires PgOk(s)
    ensures LiveRowAt(s, p) ==> EntryOf(s.rows[p]).outpoint == p && PgInIndex(s, EntryOf(s.rows[p]))
  {
  }

  lemma InChain(ws: seq<Watch>, network: string, getBlock: Hash -> Block, s: PgStore, live: seq<Hash>, e: Entry) returns (g: nat)
    requires PgGood(ws, network, getBlock, s, live) && PgInIndex(s, e)
    ensures g < |live| && PaysFirstBy(ws, network, getBlock(live[g]), |getBlock(live[g]).outputs|, e)
  {
    hide PgOk, PgInIndex, PaysFirstBy;
    var h :| h in live && PaysFirstBy(ws, network, getBlock(h), |getBlock(h).outputs|, e);
    g :| 0 <= g < |live| && live[g] == h;
  }

  lemma PgScanKeeps(ws: seq<Watch>, network: string, start: int, getBlock: Hash -> Block, s: PgStore, live: seq<Hash>, h: Hash)
    requires Network(start, getBlock) && PgGood(ws, network, getBlock, s, live) && IsChain(live + [h], start, getBlock)
    ensures PgGood(ws, network, getBlock, PgScanned(s, network, getBlock(h)), live + [h])
    ensures PgConfirmationsAre(PgScanned(s, network, getBlock(h)), getBlock(h).height)
  {
    hide PgOk, PgInIndex, PaysFirstBy, PgRecordOutputs, PgRecordSpends, PgAdvance, PgConfirmationsAre, PgNewOutpoints,
      DistinctOutputs, Network, IsChain;
    var b := getBlock(h);
    PgExtendsIsNew(ws, network, start, getBlock, s, live, h);
    PgOutputsAdd(s, network, b, |b.outputs|);
    var s1 := PgRecordOutputs(s, network, b, |b.outputs|);
    PgSpendsKeep(s1, b, |b.inputs|);
    PgAdvanceSets(PgRecordSpends(s1, b, |b.inputs|), b.height);
    assert forall g :: g in live + [h] <==> g in live || g == h;
  }

  lemma TopIsNew(start: int, getBlock: Hash -> Block, live: seq<Hash>, h: Hash)
    requires IsChain(live + [h], start, getBlock)
    ensures h !in live
  {
    var pushed := live + [h];
    forall i | 0 <= i < |live|
      ensures live[i] != h
    {
      assert getBlock(pushed[i]).height == start + i && getBlock(pushed[|live|]).height == start + |live|;
    }
  }

  lemma PgDetachKeeps(ws: seq<Watch>, network: string, start: int, getBlock: Hash -> Block, s: PgStore, live: seq<Hash>, h: Hash)
    requires Source(start, getBlock) && PgGood(ws, network, getBlock, s, live + [h]) && IsChain(live + [h], start, getBlock)
    ensures PgGood(ws, network, getBlock, PgDetach(s, h), live)
  {
    hide PgOk, PgInIndex, PgDetach, PaysFirstBy;
    PgDetachDrops(s, h);
    assert forall g :: g in live + [h] <==> g in live || g == h;
    TopIsNew(start, getBlock, live, h);
    forall e, g | g in live + [h] && PaysFirstBy(ws, network, getBlock(g), |getBlock(g).outputs|, e)
      ensures e.blockHash == g
    {
      FirstPaidNamesItsBlock(ws, network, getBlock(g), e);
    }
  }

  lemma PgKeeps(ws: seq<Watch>, network: string, start: int, getBlock: Hash -> Block)
    requires Network(start, getBlock)
    ensures Keeps(PgOps(network), PgIndex(ws, network, getBlock), start, getBlock)
  {
    hide PgGood, PgScanned, PgDetach, IsChain, Network;
    var ops, good := PgOps(network), PgIndex(ws, network, getBlock);
    NetworkIsSource(start, getBlock);
    forall s, live, h | good(s, live) && IsChain(live + [h], start, getBlock)
      ensures good(ops.scan(s, getBlock(h)), live + [h])
    {
      PgScanKeeps(ws, network, start, getBlock, s, live, h);
    }
    forall s, live, h | good(s, live + [h]) && IsChain(live + [h], start, getBlock)
      ensures good(ops.detach(s, h), live)
    {
      PgDetachKeeps(ws, network, start, getBlock, s, live, h);
    }
  }

  lemma NetworkIsSource(start: int, getBlock: Hash -> Block)
    requires Network(start, getBlock)
    ensures Source(start, getBlock)
  {
  }

  /** No output of the chain pays two watches. */
  ghost predicate NoSharedOutput(ws: seq<Watch>, network: string, live: seq<Hash>, getBlock: Hash -> Block) {
    forall h, j, v, w | h in live && 0 <= j < |getBlock(h).outputs| && v in ws && w in ws ::
      Matches(v, network, getBlock(h).outputs[j]) && Matches(w, network, getBlock(h).outputs[j]) ==> v == w
  }

  predicate OneWatchPerAddress(ws: seq<Watch>, network: string) {
    forall v, w | v in ws && w in ws :: v.active && w.active && v.network == w.network == network && v.address == w.address ==> v == w
  }

  ghost predicate PgIndexIsRescan(s: PgStore, network: string, live: seq<Hash>, getBlock: Hash -> Block) {
    forall e :: PgInIndex(s, e) <==> PaidByChain(s.watches, network, live, getBlock, e)
  }

  /** The index is the full rescan of the live chain exactly when no output of it pays two watches; otherwise the later
      watches of a shared address have lost their entries. */
  lemma RescanIff(ws: seq<Watch>, network: string, getBlock: Hash -> Block, s: PgStore, live: seq<Hash>)
    requires PgGood(ws, network, getBlock, s, live)
    ensures PgIndexIsRescan(s, network, live, getBlock) <==> NoSharedOutput(ws, network, live, getBlock)
    ensures OneWatchPerAddress(ws, network) ==> NoSharedOutput(ws, network, live, getBlock)
  {
    if NoSharedOutput(ws, network, live, getBlock) {
      forall e
        ensures FirstPaidByChain(ws, network, live, getBlock, e) <==> PaidByChain(ws, network, live, getBlock, e)
      {
        UnsharedFirst(ws, network, getBlock, s, live, e);
      }
    } else {
      var h, j, v, w :| h in live && 0 <= j < |getBlock(h).outputs| && v in ws && w in ws
        && Matches(v, network, getBlock(h).outputs[j]) && Matches(w, network, getBlock(h).outputs[j]) && v != w;
      LostEntry(ws, network, getBlock, s, live, h, j, v, w);
    }
  }

  lemma UnsharedFirst(ws: seq<Watch>, network: string, getBlock: Hash -> Block, s: PgStore, live: seq<Hash>, e: Entry)
    requires PgGood(ws, network, getBlock, s, live) && NoSharedOutput(ws, network, live, getBlock)
    ensures FirstPaidByChain(ws, network, live, getBlock, e) <==> PaidByChain(ws, network, live, getBlock, e)
  {
    hide PgInIndex, Matches, ActiveAt, PaidEntry;
    PgUnique(s);
    forall h, j | h in live && 0 <= j < |getBlock(h).outputs|
      ensures PaysFirst(ws, network, getBlock(h).outputs[j], getBlock(h), e) <==> PaysTo(ws, network, getBlock(h).outputs[j], getBlock(h), e)
    {
      var o := getBlock(h).outputs[j];
      ActiveAtIs(ws, network, o);
      var matching := ActiveAt(ws, network, o);
      assert matching != [] ==> matching[0] in matching;
    }
    forall h | h in live
      ensures PaysFirstBy(ws, network, getBlock(h), |getBlock(h).outputs|, e) <==> Pays(ws, network, getBlock(h), |getBlock(h).outputs|, e)
    {
      hide PaysFirst, PaysTo;
    }
  }

  /** Where an output pays two watches, one of their entries is not in the index. */
  lemma LostEntry(ws: seq<Watch>, network: string, getBlock: Hash -> Block, s: PgStore, live: seq<Hash>, h: Hash, j: nat, v: Watch, w: Watch)
    requires PgGood(ws, network, getBlock, s, live) && h in live && j < |getBlock(h).outputs| && v in ws && w in ws && v != w
    requires Matches(v, network, getBlock(h).outputs[j]) && Matches(w, network, getBlock(h).outputs[j])
    ensures !PgIndexIsRescan(s, network, live, getBlock)
  {
    var o, b := getBlock(h).outputs[j], getBlock(h);
    var ev, ew := PaidEntry(v, o, b), PaidEntry(w, o, b);
    assert PaysTo(ws, network, o, b, ev) && PaysTo(ws, network, o, b, ew);
    assert Pays(ws, network, b, |b.outputs|, ev) && Pays(ws, network, b, |b.outputs|, ew);
    assert PaidByChain(ws, network, live, getBlock, ev) && PaidByChain(ws, network, live, getBlock, ew);
    var i :| 0 <= i < |ws| && ws[i] == v;
    var k :| 0 <= k < |ws| && ws[k] == w;
    assert v.watchId != w.watchId by { assert ws[i].watchId != ws[k].watchId; }
    assert !(PgInIndex(s, ev) && PgInIndex(s, ew));
  }

  /**
   Whatever chain the source switches to between calls, wherever a call fails and whenever the service restarts: the
   live rows stay one linked block per height up to `next_height - 1`, the poller's own height is that `next_height`,
   and the index holds exactly one entry for each output of that chain that pays a watched address.  With one active
   watch per address, or no live output that pays two, that is the full rescan.
   */
  lemma RunKeepsIndex(trace: seq<Service<PgStore>>, events: seq<Event>, ws: seq<Watch>, network: string, start: int, getBlock: Hash -> Block)
    returns (live: seq<Hash>)
    requires Network(start, getBlock) && Run(PgOps(network), trace, events, start, getBlock)
    requires trace[0] == Service(Indexer(Chain(map[], None), PgStore(ws, map[], map[])), start) && UniqueIds(ws)
    ensures var sv := trace[|events|];
      && Represents(sv.ix.chain, start, live, getBlock) && sv.nextHeight == start + |live|
      && PgGood(ws, network, getBlock, sv.ix.store, live)
      && (PgIndexIsRescan(sv.ix.store, network, live, getBlock) <==> NoSharedOutput(ws, network, live, getBlock))
      && (OneWatchPerAddress(ws, network) ==> PgIndexIsRescan(sv.ix.store, network, live, getBlock))
  {
    PgKeeps(ws, network, start, getBlock);
    PgStartsGood(ws, network, getBlock);
    hide Run, PgGood, Keeps, Represents, NoSharedOutput, PgIndexIsRescan, OneWatchPerAddress;
    NetworkIsSource(start, getBlock);
    live := RunKeeps(PgOps(network), trace, events, PgIndex(ws, network, getBlock), start, getBlock);
    RescanIff(ws, network, getBlock, trace[|events|].ix.store, live);
  }

  lemma PgStartsGood(ws: seq<Watch>, network: string, getBlock: Hash -> Block)
    requires UniqueIds(ws)
    ensures PgGood(ws, network, getBlock, PgStore(ws, map[], map[]), [])
  {
  }

  // ---- Confirmations are chain depth ----

  lemma FirstPaidHeights(ws: seq<Watch>, network: string, start: int, live: seq<Hash>, getBlock: Hash -> Block, e: Entry)
    requires IsChain(live, start, getBlock) && Authentic(getBlock) && FirstPaidByChain(ws, network, live, getBlock, e)
    ensures exists i :: 0 <= i < |live| && live[i] == e.blockHash && e.height == start + i
  {
    var h :| h in live && PaysFirstBy(ws, network, getBlock(h), |getBlock(h).outputs|, e);
    FirstPaidNamesItsBlock(ws, network, getBlock(h), e);
    var i :| 0 <= i < |live| && live[i] == h;
  }

  /**
   After a block is saved, each pending or confirmed observation counts the live blocks from its own block to the tip,
   and is confirmed exactly when that reaches its watch's requirement.
   */
  lemma ScanSetsDepths(ix: Indexer<PgStore>, ws: seq<Watch>, network: string, start: int, live: seq<Hash>, h: Hash, getBlock: Hash -> Block,
                       p: string, w: Watch)
    requires Network(start, getBlock) && PgGood(ws, network, getBlock, ix.store, live) && IsChain(live + [h], start, getBlock)
    requires ScanStep(PgOps(network), ix, getBlock(h)).1 == Saved
    requires var rows := ScanStep(PgOps(network), ix, getBlock(h)).0.store.rows;
      p in rows && w in ws && rows[p].watchId == w.watchId && (rows[p].matchStatus == Pending || rows[p].matchStatus == Confirmed)
    ensures var o, live' := ScanStep(PgOps(network), ix, getBlock(h)).0.store.rows[p], live + [h];
      && (exists i :: 0 <= i < |live'| && live'[i] == o.blockHash && o.confirmations == |live'| - i >= 1)
      && (o.matchStatus == Confirmed <==> o.confirmations >= w.requiredConfirmations)
  {
    hide PgScanned, SaveStep, PaysFirstBy;
    PgScanKeeps(ws, network, start, getBlock, ix.store, live, h);
    var s' := ScanStep(PgOps(network), ix, getBlock(h)).0.store;
    assert s' == PgScanned(ix.store, network, getBlock(h));
    assert DepthIs(s'.rows[p], getBlock(h).height, w.requiredConfirmations);
    RowHasEntry(s', p);
    FirstPaidHeights(ws, network, start, live + [h], getBlock, EntryOf(s'.rows[p]));
    assert getBlock((live + [h])[|live|]).height == start + |live|;
  }
}
