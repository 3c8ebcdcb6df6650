/**
 The indexer as main.ts builds it without a database: the funding scanner over `MemoryBlockSink`
 (services/pearl-indexer/src/block-poller.ts), which keeps every block it is given, and the in-memory watch store.

 Main results: `RunIndexes` (an output is indexed for a watch from the first saved block that pays it to the watch) and
 `RescanIff` (this is the full rescan of a source chain exactly when the blocks that brought the entries are on the chain
 and its paying blocks were saved).
 */
module MemoryIndexer {
  import opened Wrappers
  import opened PearlChain
  import opened WatchedAddresses
  import opened FundingIndex
  import opened PearlPolling
  import opened PearlIndexer

  datatype Memory = Memory(blocks: seq<Block>, store: Store)

  function Scanned(s: Store, network: string, b: Block): Store {
    Advance(RecordSpends(RecordOutputs(s, network, b, |b.outputs|), b, |b.inputs|), b.height)
  }

  /** `saveBlock` of the scanner: the sink keeps the block, whatever it links to, and the scan follows. */
  function Saving(m: Memory, network: string, b: Block): Memory {
    Memory(m.blocks + [b], Scanned(m.store, network, b))
  }

  /** `pollOnce` from `height` on; no block is ever a duplicate or a reorg. */
  function PollFrom(m: Memory, network: string, from: int, height: int, tip: int, answers: seq<Hash>, indexed: nat,
                    getBlock: Hash -> Block): (Memory, PollOutcome)
    requires from <= height
    decreases tip - height
  {
    if height > tip then (m, Polled(from, tip, indexed, tip + 1, None))
    else if height - from >= |answers| then (m, Crashed)
    else PollFrom(Saving(m, network, getBlock(answers[height - from])), network, from, height + 1, tip, answers, indexed + 1, getBlock)
  }

  function Poll(m: Memory, network: string, next: int, tip: int, answers: seq<Hash>, getBlock: Hash -> Block): (Memory, PollOutcome) {
    if next > tip then (m, Polled(next, tip, 0, next, None)) else PollFrom(m, network, next, next, tip, answers, 0, getBlock)
  }

  // ---- Runs ----

  datatype Living = Living(memory: Memory, nextHeight: int)
  datatype Asked = Asked(tip: int, answers: seq<Hash>)

  /** Polls of a living process: the source answers each height with some block of that height, and no call fails, which
      would end the process and all it knows. */
  ghost predicate Run(trace: seq<Living>, polls: seq<Asked>, ws: seq<Watch>, network: string, start: int, getBlock: Hash -> Block) {
    && |trace| == |polls| + 1 && trace[0] == Living(Memory([], Store(ws, map[], [], map[])), start)
    && forall i :: 0 <= i < |polls| ==> PolledTo(trace[i], polls[i], trace[i + 1], network, getBlock)
  }

  ghost predicate PolledTo(sv: Living, a: Asked, sv': Living, network: string, getBlock: Hash -> Block) {
    && (forall k :: 0 <= k < |a.answers| ==> getBlock(a.answers[k]).height == sv.nextHeight + k)
    && var (m, outcome) := Poll(sv.memory, network, sv.nextHeight, a.tip, a.answers, getBlock);
       outcome.Polled? && sv' == Living(m, outcome.nextHeight)
  }

  // ---- What the index holds ----

  /** The block pays the outpoint to the watch. */
  ghost predicate PaysOutpoint(ws: seq<Watch>, network: string, b: Block, id: string, outpoint: string) {
    exists e :: Pays(ws, network, b, |b.outputs|, e) && e.watchId == id && e.outpoint == outpoint
  }

  /** Block `i` is the first of the saved ones that pays the entry's output to its watch. */
  ghost predicate Brings(ws: seq<Watch>, network: string, blocks: seq<Block>, i: nat, e: Entry)
    requires i < |blocks|
  {
    && Pays(ws, network, blocks[i], |blocks[i].outputs|, e)
    && forall k :: 0 <= k < i ==> !PaysOutpoint(ws, network, blocks[k], e.watchId, e.outpoint)
  }

  ghost predicate Brought(ws: seq<Watch>, network: string, blocks: seq<Block>, e: Entry) {
    exists i :: 0 <= i < |blocks| && Brings(ws, network, blocks, i, e)
  }

  /** One saved block of each height, and the store indexes what they brought. */
  ghost predicate Indexed(m: Memory, ws: seq<Watch>, network: string, start: int, getBlock: Hash -> Block) {
    && (forall i :: 0 <= i < |m.blocks| ==> m.blocks[i] == getBlock(m.blocks[i].hash) && m.blocks[i].height == start + i)
    && m.store.watches == ws && StoreOk(m.store)
    && forall e :: InIndex(m.store, e) <==> Brought(ws, network, m.blocks, e)
  }

  /** Every block names its own hash and has each output once. */
  ghost predicate Blocks(getBlock: Hash -> Block) {
    Authentic(getBlock) && forall h :: DistinctOutputs(getBlock(h))
  }

  lemma BroughtSomewhere(ws: seq<Watch>, network: string, blocks: seq<Block>, k: nat, id: string, outpoint: string)
    requires k < |blocks| && PaysOutpoint(ws, network, blocks[k], id, outpoint)
    ensures exists e :: Brought(ws, network, blocks, e) && e.watchId == id && e.outpoint == outpoint
    decreases k
  {
    hide Pays;
    if j :| 0 <= j < k && PaysOutpoint(ws, network, blocks[j], id, outpoint) {
      BroughtSomewhere(ws, network, blocks, j, id, outpoint);
    } else {
      var e :| Pays(ws, network, blocks[k], |blocks[k].outputs|, e) && e.watchId == id && e.outpoint == outpoint;
      assert Brings(ws, network, blocks, k, e);
    }
  }

  /** An outpoint is live at a watch exactly when some saved block pays it there. */
  lemma LiveIsPaid(m: Memory, ws: seq<Watch>, network: string, start: int, getBlock: Hash -> Block, id: string, outpoint: string)
    requires Indexed(m, ws, network, start, getBlock)
    ensures WatchHas(m.store, id, outpoint) <==> exists k :: 0 <= k < |m.blocks| && PaysOutpoint(ws, network, m.blocks[k], id, outpoint)
  {
    hide StoreOk, InIndex, WatchHas, Pays;
    LiveIsIndexed(m.store, id, outpoint);
    if k :| 0 <= k < |m.blocks| && PaysOutpoint(ws, network, m.blocks[k], id, outpoint) {
      BroughtSomewhere(ws, network, m.blocks, k, id, outpoint);
    }
    if WatchHas(m.store, id, outpoint) {
      var e :| InIndex(m.store, e) && e.watchId == id && e.outpoint == outpoint;
      var i :| 0 <= i < |m.blocks| && Brings(ws, network, m.blocks, i, e);
      assert PaysOutpoint(ws, network, m.blocks[i], id, outpoint);
    }
  }

  lemma BroughtNext(ws: seq<Watch>, network: string, blocks: seq<Block>, b: Block, e: Entry)
    ensures Brought(ws, network, blocks + [b], e) <==>
      || Brought(ws, network, blocks, e)
      || (Pays(ws, network, b, |b.outputs|, e)
          && forall k :: 0 <= k < |blocks| ==> !PaysOutpoint(ws, network, blocks[k], e.watchId, e.outpoint))
  {
    hide Pays, PaysOutpoint;
    var next := blocks + [b];
    forall i | 0 <= i < |blocks|
      ensures Brings(ws, network, next, i, e) <==> Brings(ws, network, blocks, i, e)
    {
      assert forall k :: 0 <= k <= i ==> next[k] == blocks[k];
    }
    assert forall k :: 0 <= k < |blocks| ==> next[k] == blocks[k];
    assert Brings(ws, network, next, |blocks|, e) <==>
      Pays(ws, network, b, |b.outputs|, e) && forall k :: 0 <= k < |blocks| ==> !PaysOutpoint(ws, network, next[k], e.watchId, e.outpoint);
  }

  /** Saving a block keeps the index what the saved blocks brought, and gives every open observation its depth. */
  lemma SavingIndexes(m: Memory, ws: seq<Watch>, network: string, start: int, getBlock: Hash -> Block, b: Block)
    requires Indexed(m, ws, network, start, getBlock) && Blocks(getBlock)
    requires b == getBlock(b.hash) && b.height == start + |m.blocks|
    ensures Indexed(Saving(m, network, b), ws, network, start, getBlock)
    ensures ConfirmationsAre(Saving(m, network, b).store, b.height)
  {
    hide StoreOk, InIndex, Pays, Brought, RecordOutputs, RecordSpends, Advance, ConfirmationsAre, WatchHas, DistinctOutputs, PaysOutpoint;
    RecordOutputsAdds(m.store, network, b, |b.outputs|);
    var s1 := RecordOutputs(m.store, network, b, |b.outputs|);
    RecordSpendsKeep(s1, b, |b.inputs|);
    AdvanceSets(RecordSpends(s1, b, |b.inputs|), b.height);
    forall e
      ensures InIndex(Saving(m, network, b).store, e) <==> Brought(ws, network, m.blocks + [b], e)
    {
      BroughtNext(ws, network, m.blocks, b, e);
      LiveIsPaid(m, ws, network, start, getBlock, e.watchId, e.outpoint);
    }
  }

  lemma {:induction false} PollIndexes(m: Memory, ws: seq<Watch>, network: string, from: int, height: int, tip: int, answers: seq<Hash>,
                                       indexed: nat, getBlock: Hash -> Block, start: int)
    requires Indexed(m, ws, network, start, getBlock) && Blocks(getBlock) && from <= height == start + |m.blocks| <= tip + 1
    requires forall k :: 0 <= k < |answers| ==> getBlock(answers[k]).height == from + k
    ensures var (m', outcome) := PollFrom(m, network, from, height, tip, answers, indexed, getBlock);
      && Indexed(m', ws, network, start, getBlock) && m.blocks <= m'.blocks
      && (outcome.Polled? ==> outcome.nextHeight == start + |m'.blocks|)
    decreases tip - height
  {
    hide Indexed, Scanned, Blocks;
    if height <= tip && height - from < |answers| {
      var b := getBlock(answers[height - from]);
      OwnHash(getBlock, answers[height - from]);
      SavingIndexes(m, ws, network, start, getBlock, b);
      PollIndexes(Saving(m, network, b), ws, network, from, height + 1, tip, answers, indexed + 1, getBlock, start);
    }
  }

  lemma OwnHash(getBlock: Hash -> Block, h: Hash)
    requires Blocks(getBlock)
    ensures getBlock(h).hash == h
  {
  }

  // ---- Main results ----

  /** While the process lives, whatever chain the source switches to between calls: one block of each height is saved, and
      the index holds, for each watch and output, the entry of the first saved block that pays it; no block is ever dropped. */
  lemma {:induction false} RunIndexes(trace: seq<Living>, polls: seq<Asked>, ws: seq<Watch>, network: string, start: int,
                                      getBlock: Hash -> Block, n: nat)
    requires Run(trace, polls, ws, network, start, getBlock) && Blocks(getBlock) && UniqueIds(ws) && n <= |polls|
    ensures Indexed(trace[n].memory, ws, network, start, getBlock)
    ensures trace[n].nextHeight == start + |trace[n].memory.blocks|
    ensures n > 0 ==> trace[n - 1].memory.blocks <= trace[n].memory.blocks
  {
    hide Indexed, Blocks, UniqueIds, PollFrom;
    if n > 0 {
      RunIndexes(trace, polls, ws, network, start, getBlock, n - 1);
      var sv, a := trace[n - 1], polls[n - 1];
      assert PolledTo(sv, a, trace[n], network, getBlock);
      if sv.nextHeight <= a.tip {
        PollIndexes(sv.memory, ws, network, sv.nextHeight, sv.nextHeight, a.tip, a.answers, 0, getBlock, start);
      }
    } else {
      NothingIndexed(ws, network, start, getBlock);
    }
  }

  lemma NothingIndexed(ws: seq<Watch>, network: string, start: int, getBlock: Hash -> Block)
    requires UniqueIds(ws)
    ensures Indexed(Memory([], Store(ws, map[], [], map[])), ws, network, start, getBlock)
  {
  }

  /** The index is the full rescan of a chain. */
  ghost predicate IndexIsRescan(s: Store, network: string, chain: seq<Hash>, getBlock: Hash -> Block) {
    forall e :: InIndex(s, e) <==> PaidByChain(s.watches, network, chain, getBlock, e)
  }

  /** Every saved block that brought an entry is on the chain. */
  ghost predicate BringersOn(m: Memory, network: string, chain: seq<Hash>) {
    forall i, e :: 0 <= i < |m.blocks| && Brings(m.store.watches, network, m.blocks, i, e) ==> m.blocks[i].hash in chain
  }

  /** Every block of the chain that pays a watch was saved. */
  ghost predicate PayersSaved(m: Memory, network: string, chain: seq<Hash>, getBlock: Hash -> Block) {
    forall h, e :: h in chain && Pays(m.store.watches, network, getBlock(h), |getBlock(h).outputs|, e) ==> getBlock(h) in m.blocks
  }

  lemma PaidNamesItsBlock(ws: seq<Watch>, network: string, b: Block, e: Entry)
    requires Pays(ws, network, b, |b.outputs|, e)
    ensures e.blockHash == b.hash && e.height == b.height
    ensures exists j :: 0 <= j < |b.outputs| && b.outputs[j].outpoint == e.outpoint
  {
    var j :| 0 <= j < |b.outputs| && PaysTo(ws, network, b.outputs[j], b, e);
  }

  /** Two blocks of one chain pay no outpoint in common. */
  lemma PaidOnce(ws: seq<Watch>, network: string, start: int, getBlock: Hash -> Block, chain: seq<Hash>, g: Hash, h: Hash, e: Entry)
    requires Network(start, getBlock) && IsChain(chain, start, getBlock) && g in chain && h in chain && g != h
    requires Pays(ws, network, getBlock(h), |getBlock(h).outputs|, e)
    ensures !PaysOutpoint(ws, network, getBlock(g), e.watchId, e.outpoint)
  {
    hide Pays, IsChain;
    assert NoRepeats(chain, getBlock);
    PaidNamesItsBlock(ws, network, getBlock(h), e);
    if PaysOutpoint(ws, network, getBlock(g), e.watchId, e.outpoint) {
      var f :| Pays(ws, network, getBlock(g), |getBlock(g).outputs|, f) && f.watchId == e.watchId && f.outpoint == e.outpoint;
      PaidNamesItsBlock(ws, network, getBlock(g), f);
    }
  }

  lemma RescanMeans(m: Memory, ws: seq<Watch>, network: string, start: int, getBlock: Hash -> Block, chain: seq<Hash>)
    requires Network(start, getBlock) && Indexed(m, ws, network, start, getBlock) && IndexIsRescan(m.store, network, chain, getBlock)
    ensures BringersOn(m, network, chain) && PayersSaved(m, network, chain, getBlock)
  {
    hide Pays, StoreOk, InIndex, NoRepeats, IsChain;
    forall i, e | 0 <= i < |m.blocks| && Brings(ws, network, m.blocks, i, e)
      ensures m.blocks[i].hash in chain
    {
      assert Brought(ws, network, m.blocks, e);
      var h :| h in chain && Pays(ws, network, getBlock(h), |getBlock(h).outputs|, e);
      PaidNamesItsBlock(ws, network, getBlock(h), e);
      PaidNamesItsBlock(ws, network, m.blocks[i], e);
    }
    forall h, e | h in chain && Pays(ws, network, getBlock(h), |getBlock(h).outputs|, e)
      ensures getBlock(h) in m.blocks
    {
      assert PaidByChain(ws, network, chain, getBlock, e);
      var i :| 0 <= i < |m.blocks| && Brings(ws, network, m.blocks, i, e);
      PaidNamesItsBlock(ws, network, getBlock(h), e);
      PaidNamesItsBlock(ws, network, m.blocks[i], e);
    }
  }

  lemma RescanWhen(m: Memory, ws: seq<Watch>, network: string, start: int, getBlock: Hash -> Block, chain: seq<Hash>, e: Entry)
    requires Network(start, getBlock) && IsChain(chain, start, getBlock) && Indexed(m, ws, network, start, getBlock)
    requires BringersOn(m, network, chain) && PayersSaved(m, network, chain, getBlock)
    ensures Brought(ws, network, m.blocks, e) <==> PaidByChain(ws, network, chain, getBlock, e)
  {
    hide Pays, StoreOk, InIndex, NoRepeats, IsChain, PaysOutpoint;
    if Brought(ws, network, m.blocks, e) {
      var i :| 0 <= i < |m.blocks| && Brings(ws, network, m.blocks, i, e);
      assert m.blocks[i].hash in chain;
    }
    if PaidByChain(ws, network, chain, getBlock, e) {
      var h :| h in chain && Pays(ws, network, getBlock(h), |getBlock(h).outputs|, e);
      var i :| 0 <= i < |m.blocks| && m.blocks[i] == getBlock(h);
      forall k | 0 <= k < i
        ensures !PaysOutpoint(ws, network, m.blocks[k], e.watchId, e.outpoint)
      {
        NotPaidBefore(m, ws, network, start, getBlock, chain, h, i, k, e);
      }
      assert Brings(ws, network, m.blocks, i, e);
    }
  }

  lemma NotPaidBefore(m: Memory, ws: seq<Watch>, network: string, start: int, getBlock: Hash -> Block, chain: seq<Hash>,
                      h: Hash, i: nat, k: nat, e: Entry)
    requires Network(start, getBlock) && IsChain(chain, start, getBlock) && Indexed(m, ws, network, start, getBlock)
    requires BringersOn(m, network, chain) && h in chain && k < i < |m.blocks| && m.blocks[i] == getBlock(h)
    requires Pays(ws, network, getBlock(h), |getBlock(h).outputs|, e)
    ensures !PaysOutpoint(ws, network, m.blocks[k], e.watchId, e.outpoint)
  {
    hide Pays, StoreOk, InIndex, NoRepeats, IsChain;
    if PaysOutpoint(ws, network, m.blocks[k], e.watchId, e.outpoint) {
      var first := FirstPaying(ws, network, m.blocks, k, e.watchId, e.outpoint);
      var f :| Pays(ws, network, m.blocks[first], |m.blocks[first].outputs|, f) && f.watchId == e.watchId && f.outpoint == e.outpoint;
      assert Brings(ws, network, m.blocks, first, f);
      PaidOnce(ws, network, start, getBlock, chain, m.blocks[first].hash, h, e);
    }
  }

  lemma {:induction false} FirstPaying(ws: seq<Watch>, network: string, blocks: seq<Block>, k: nat, id: string, outpoint: string)
    returns (first: nat)
    requires k < |blocks| && PaysOutpoint(ws, network, blocks[k], id, outpoint)
    ensures first <= k && PaysOutpoint(ws, network, blocks[first], id, outpoint)
    ensures forall j :: 0 <= j < first ==> !PaysOutpoint(ws, network, blocks[j], id, outpoint)
    decreases k
  {
    hide PaysOutpoint;
    if j :| 0 <= j < k && PaysOutpoint(ws, network, blocks[j], id, outpoint) {
      first := FirstPaying(ws, network, blocks, j, id, outpoint);
    } else {
      first := k;
    }
  }

  /** The index is the full rescan of a chain exactly when every saved block that brought an entry is on the chain and every
      block of it that pays a watch was saved; so a reorg that replaces such a block is never repaired. */
  lemma RescanIff(m: Memory, ws: seq<Watch>, network: string, start: int, getBlock: Hash -> Block, chain: seq<Hash>)
    requires Network(start, getBlock) && IsChain(chain, start, getBlock) && Indexed(m, ws, network, start, getBlock)
    ensures IndexIsRescan(m.store, network, chain, getBlock) <==>
      BringersOn(m, network, chain) && PayersSaved(m, network, chain, getBlock)
  {
    hide Pays, Brings, Brought, StoreOk, InIndex, Network, IsChain, PaidByChain, BringersOn, PayersSaved;
    if IndexIsRescan(m.store, network, chain, getBlock) {
      RescanMeans(m, ws, network, start, getBlock, chain);
    }
    if BringersOn(m, network, chain) && PayersSaved(m, network, chain, getBlock) {
      forall e
        ensures Brought(ws, network, m.blocks, e) <==> PaidByChain(ws, network, chain, getBlock, e)
      {
        RescanWhen(m, ws, network, start, getBlock, chain, e);
      }
    }
  }

  function Hashes(blocks: seq<Block>): seq<Hash> {
    seq(|blocks|, i requires 0 <= i < |blocks| => blocks[i].hash)
  }

  /** In particular while the source keeps to one chain. */
  lemma OneChainIsRescan(m: Memory, ws: seq<Watch>, network: string, start: int, getBlock: Hash -> Block)
    requires Network(start, getBlock) && Indexed(m, ws, network, start, getBlock) && IsChain(Hashes(m.blocks), start, getBlock)
    ensures IndexIsRescan(m.store, network, Hashes(m.blocks), getBlock)
  {
    hide Pays, Brings, Brought, StoreOk, InIndex, Network, IsChain, IndexIsRescan;
    var chain := Hashes(m.blocks);
    forall i | 0 <= i < |m.blocks|
      ensures m.blocks[i].hash in chain && getBlock(chain[i]) in m.blocks
    {
      assert chain[i] == m.blocks[i].hash;
    }
    forall h | h in chain
      ensures getBlock(h) in m.blocks
    {
      var i :| 0 <= i < |chain| && chain[i] == h;
    }
    RescanIff(m, ws, network, start, getBlock, chain);
  }

  /** After a block is saved, each pending or confirmed observation counts the saved blocks from its own to the last, and is
      confirmed exactly when that reaches its watch's requirement. */
  lemma SavingSetsDepths(m: Memory, ws: seq<Watch>, network: string, start: int, getBlock: Hash -> Block, b: Block, w: Watch, o: Observation)
    requires Indexed(m, ws, network, start, getBlock) && Blocks(getBlock)
    requires b == getBlock(b.hash) && b.height == start + |m.blocks|
    requires w in ws && o in ListOf(Saving(m, network, b).store.observations, w.watchId)
    requires o.matchStatus == Pending || o.matchStatus == Confirmed
    ensures var blocks := m.blocks + [b];
      exists i :: 0 <= i < |blocks| && blocks[i].hash == o.blockHash && o.confirmations == |blocks| - i >= 1
    ensures o.matchStatus == Confirmed <==> o.confirmations >= w.requiredConfirmations
  {
    hide Scanned, Pays, StoreOk, PaysOutpoint;
    SavingIndexes(m, ws, network, start, getBlock, b);
    var m' := Saving(m, network, b);
    assert DepthIs(o, b.height, w.requiredConfirmations);
    ListedIsIndexed(m'.store, w.watchId, o);
    assert Brought(ws, network, m'.blocks, EntryOf(o));
    var i :| 0 <= i < |m'.blocks| && Brings(ws, network, m'.blocks, i, EntryOf(o));
    PaidNamesItsBlock(ws, network, m'.blocks[i], EntryOf(o));
  }

  lemma ListedIsIndexed(s: Store, id: string, o: Observation)
    requires StoreOk(s) && o in ListOf(s.observations, id) && o.matchStatus != Detached
    ensures InIndex(s, EntryOf(o))
  {
    var list := ListOf(s.observations, id);
    var k :| 0 <= k < |list| && list[k] == o;
  }
}
