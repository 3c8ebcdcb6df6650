/**
 The service without a database: the in-memory watch store (watched-address-repository.ts), updating its maps in place,
 the scanning sink (funding-scanner.ts) over the in-memory block sink, and the poller (block-poller.ts).  Each method is
 proved to compute its step of the specification; `PgFundingScanner` has sink and poller over the SQL tables.
 */
module FundingScanner {
  import opened Wrappers
  import opened PearlChain
  import opened WatchedAddresses
  import opened PearlPolling
  import opened MemoryIndexer

  class MemoryWatchedAddressRepository {
    const watches: seq<Watch>
    var observations: map<string, seq<Observation>>
    var observed: seq<string>
    var spends: map<string, seq<Spend>>

    ghost function State(): Store reads this { Store(watches, observations, observed, spends) }

    constructor (watches: seq<Watch>)
      ensures State() == Store(watches, map[], [], map[])
    {
      this.watches := watches;
      observations, observed, spends := map[], [], map[];
    }

    method FindActiveByAddress(network: string, o: Output) returns (found: seq<Watch>)
      ensures found == ActiveAt(watches, network, o)
    {
      found := [];
      for n := 0 to |watches|
        invariant found + ActiveAt(watches[n..], network, o) == ActiveAt(watches, network, o)
      {
        assert watches[n..][1..] == watches[n + 1..];
        if Matches(watches[n], network, o) {
          found := found + [watches[n]];
        }
      }
      assert watches[|watches|..] == [];
    }

    /** The stored observation is the one the watch's list has for the outpoint, new or as it was. */
    method RecordObservation(obs: Observation) returns (stored: Observation)
      requires obs.matchStatus == Pending
      modifies this
      ensures State() == Record(old(State()), obs)
      ensures IndexOf(ListOf(observations, obs.watchId), obs.outpoint) < |ListOf(observations, obs.watchId)|
      ensures stored == ListOf(observations, obs.watchId)[IndexOf(ListOf(observations, obs.watchId), obs.outpoint)]
      ensures stored.matchStatus != Detached && (!LiveIn(old(ListOf(observations, obs.watchId)), obs.outpoint) ==> stored == obs)
    {
      var list := ListOf(observations, obs.watchId);
      var i := 0;
      while i < |list| && list[i].outpoint != obs.outpoint
        invariant i <= |list|
        invariant IndexOf(list, obs.outpoint) == i + IndexOf(list[i..], obs.outpoint)
      {
        assert list[i..][1..] == list[i + 1..];
        i := i + 1;
      }
      if i < |list| && list[i].matchStatus != Detached {
        return list[i];
      }
      var updated;
      if i < |list| {
        updated := seq(|list|, k requires 0 <= k < |list| => if list[k].outpoint == obs.outpoint then obs else list[k]);
        assert updated[i] != list[i];
      } else {
        updated := list + [obs];
      }
      FirstOf(updated, i, obs.outpoint);
      observations := observations[obs.watchId := updated];
      observed := Inserted(observed, obs.watchId);
      return obs;
    }

    method FindObservedOutpoint(outpoint: string) returns (watchId: Option<string>)
      ensures watchId == FindObserved(State(), outpoint)
    {
      for n := 0 to |observed|
        invariant FindObserved(State(), outpoint) == FindObserved(State(), outpoint, n)
      {
        var id := observed[n];
        if LiveIn(ListOf(observations, id), outpoint) && Registered(watches, id) {
          return Some(id);
        }
      }
      return None;
    }

    /** The stored spend; for an outpoint nothing observes the source throws. */
    method RecordSpend(sp: Spend) returns (stored: Result<Spend>)
      modifies this
      ensures State() == WatchedAddresses.RecordSpend(old(State()), sp)
      ensures stored.Ok? <==> FindObserved(old(State()), sp.spentOutpoint).Some?
      ensures stored.Ok? ==> (
          && stored.value in ListOf(spends, FindObserved(old(State()), sp.spentOutpoint).value)
          && stored.value.spendTxid == sp.spendTxid && stored.value.spentOutpoint == sp.spentOutpoint)
    {
      var found := FindObservedOutpoint(sp.spentOutpoint);
      if found.None? {
        return Thrown;
      }
      var id := found.value;
      var list := ListOf(spends, id);
      if k :| 0 <= k < |list| && list[k].spendTxid == sp.spendTxid && list[k].spentOutpoint == sp.spentOutpoint {
        return Ok(list[k]);
      }
      spends := spends[id := list + [sp]];
      observations := observations[id := MarkSpent(ListOf(observations, id), sp.spentOutpoint)];
      return Ok(sp);
    }

    method AdvanceConfirmations(tipHeight: int)
      modifies this
      ensures State() == Advance(old(State()), tipHeight)
    {
      ghost var s0 := State();
      for n := 0 to |watches|
        invariant State() == AdvanceWatches(s0, tipHeight, n)
      {
        AdvanceWatch(watches[n], tipHeight);
        AdvanceKeepsWatches(s0, tipHeight, n);
      }
    }

    method AdvanceWatch(w: Watch, tipHeight: int)
      modifies this
      ensures observed == old(observed) && spends == old(spends)
      ensures observations ==
        if w.watchId in old(observations)
        then old(observations)[w.watchId := AdvanceList(old(observations)[w.watchId], tipHeight, w.requiredConfirmations)]
        else old(observations)
    {
      if w.watchId !in observations {
        return;
      }
      var list := observations[w.watchId];
      for i := 0 to |list|
        invariant |list| == |old(observations)[w.watchId]|
        invariant forall k :: 0 <= k < i ==>
          list[k] == AdvanceOne(old(observations)[w.watchId][k], tipHeight, w.requiredConfirmations)
        invariant forall k :: i <= k < |list| ==> list[k] == old(observations)[w.watchId][k]
        invariant observations == old(observations)[w.watchId := list]
        invariant observed == old(observed) && spends == old(spends)
      {
        var o := list[i];
        if o.matchStatus != Pending && o.matchStatus != Confirmed { continue; }
        var newConfirms := tipHeight - o.height + 1;
        var newStatus := if newConfirms >= w.requiredConfirmations then Confirmed else Pending;
        if newConfirms == o.confirmations && o.matchStatus == newStatus { continue; }
        list := list[i := o.(confirmations := newConfirms, matchStatus := newStatus)];
        observations := observations[w.watchId := list];
      }
      assert list == AdvanceList(old(observations)[w.watchId], tipHeight, w.requiredConfirmations);
    }

    method DetachObservationsForBlock(blockHash: Hash)
      modifies this
      ensures State() == Detach(old(State()), blockHash)
    {
      var pending := observations.Keys;
      while pending != {}
        invariant pending <= observations.Keys == old(observations).Keys
        invariant forall id :: id in observations ==>
          observations[id] == if id in pending then old(observations)[id] else DetachList(old(observations)[id], blockHash)
        invariant observed == old(observed) && spends == old(spends)
        decreases pending
      {
        var id :| id in pending;
        var updated := DetachList(observations[id], blockHash);
        if updated != observations[id] {
          observations := observations[id := updated];
        }
        pending := pending - {id};
      }
    }
  }

  lemma {:induction false} FirstOf(list: seq<Observation>, i: nat, outpoint: string)
    requires i < |list| && list[i].outpoint == outpoint && forall k :: 0 <= k < i ==> list[k].outpoint != outpoint
    ensures IndexOf(list, outpoint) == i
  {
    if i > 0 {
      FirstOf(list[1..], i - 1, outpoint);
    }
  }

  class MemoryBlockSink {
    var blocks: seq<Block>

    constructor () ensures blocks == [] {
      blocks := [];
    }

    method SaveBlock(block: Block) returns (result: SaveResult)
      modifies this
      ensures result == Saved && blocks == old(blocks) + [block]
    {
      blocks := blocks + [block];
      result := Saved;
    }
  }

  class FundingScannerSink {
    const inner: MemoryBlockSink
    const repo: MemoryWatchedAddressRepository
    const network: string

    constructor (inner: MemoryBlockSink, repo: MemoryWatchedAddressRepository, network: string)
      ensures this.inner == inner && this.repo == repo && this.network == network
    {
      this.inner, this.repo, this.network := inner, repo, network;
    }

    ghost function State(): Memory reads inner, repo { Memory(inner.blocks, repo.State()) }

    /** The inner sink saves every block, so the source's branches for a reorg and a duplicate are never taken. */
    method SaveBlock(block: Block) returns (result: SaveResult)
      modifies inner, repo
      ensures State() == Saving(old(State()), network, block) && result == Saved
    {
      result := inner.SaveBlock(block);
      RecordBlockOutputs(block);
      ScanSpends(block);
      repo.AdvanceConfirmations(block.height);
    }

    method RecordBlockOutputs(block: Block)
      modifies repo
      ensures repo.State() == RecordOutputs(old(repo.State()), network, block, |block.outputs|)
    {
      hide RecordWatches, ActiveAt;
      ghost var s0 := repo.State();
      for n := 0 to |block.outputs|
        invariant repo.State() == RecordOutputs(s0, network, block, n)
      {
        OutputsKeepWatches(s0, network, block, n);
        RecordBlockOutput(block.outputs[n], block);
      }
    }

    method RecordBlockOutput(o: Output, block: Block)
      modifies repo
      ensures repo.State() == RecordWatches(old(repo.State()), ActiveAt(repo.watches, network, o), o, block)
    {
      hide ActiveAt, Record, ObservationOf;
      var ws := repo.FindActiveByAddress(network, o);
      ghost var s1 := repo.State();
      for k := 0 to |ws|
        invariant repo.State() == RecordWatches(s1, ws[..k], o, block)
      {
        var obs := PendingObservation(ListOf(repo.observations, ws[k].watchId), ws[k], o, block);
        var stored := repo.RecordObservation(obs);
        assert ws[..k + 1][..k] == ws[..k];
      }
      assert ws[..|ws|] == ws;
    }

    method PendingObservation(list: seq<Observation>, w: Watch, o: Output, block: Block) returns (obs: Observation)
      ensures obs == ObservationOf(list, w, o, block) && obs.matchStatus == Pending
    {
      var prior := HasPriorLive(list, o.outpoint);
      var classification := if prior then DuplicateFunding else ClassifyFunding(o, block, w);
      obs := Observation(o.outpoint, w.watchId, block.hash, block.height, o.amountGrains, 1, Pending, classification);
    }

    method ScanSpends(block: Block)
      modifies repo
      ensures repo.State() == RecordSpends(old(repo.State()), block, |block.inputs|)
    {
      ghost var s0 := repo.State();
      for n := 0 to |block.inputs|
        invariant repo.State() == RecordSpends(s0, block, n)
      {
        var i := block.inputs[n];
        if i.spentOutpoint.None? || i.spentOutpoint.value == "" { continue; }
        var observed := repo.FindObservedOutpoint(i.spentOutpoint.value);
        if observed.None? { continue; }
        var stored := repo.RecordSpend(Spend(i.txid, i.spentOutpoint.value, block.hash, block.height));
      }
    }
  }

  class PearlBlockPoller {
    const sink: FundingScannerSink

    constructor (sink: FundingScannerSink)
      ensures this.sink == sink
    {
      this.sink := sink;
    }

    method PollOnce(nextHeight: int, tipHeight: int, answers: seq<Hash>, getBlock: Hash -> Block) returns (outcome: PollOutcome)
      modifies sink.inner, sink.repo
      ensures (sink.State(), outcome) == MemoryIndexer.Poll(old(sink.State()), sink.network, nextHeight, tipHeight, answers, getBlock)
    {
      hide Saving;
      ghost var expected := MemoryIndexer.Poll(sink.State(), sink.network, nextHeight, tipHeight, answers, getBlock);
      if nextHeight > tipHeight {
        return Polled(nextHeight, tipHeight, 0, nextHeight, None);
      }
      var indexedBlocks, height := 0, nextHeight;
      while height <= tipHeight
        invariant nextHeight <= height <= tipHeight + 1
        invariant MemoryIndexer.PollFrom(sink.State(), sink.network, nextHeight, height, tipHeight, answers, indexedBlocks, getBlock) == expected
      {
        if height - nextHeight >= |answers| {
          return Crashed;
        }
        var result := sink.SaveBlock(getBlock(answers[height - nextHeight]));
        if result == Saved {
          indexedBlocks := indexedBlocks + 1;
        }
        height := height + 1;
      }
      return Polled(nextHeight, tipHeight, indexedBlocks, tipHeight + 1, None);
    }
  }
}
