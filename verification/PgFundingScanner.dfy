/**
 The indexer's objects as main.ts builds them: the SQL watch store (`PgWatchedAddressRepository` in
 watched-address-repository.ts), the scanning sink (funding-scanner.ts) and the poller (block-poller.ts).  The tables
 are fields the statements update; each method is proved to compute its step of the specification.
 */
module PgFundingScanner {
  import opened Wrappers
  import opened PearlChain
  import opened WatchedAddresses
  import opened PgWatchedAddresses
  import opened PearlPolling
  import opened PearlIndexer

  class PgWatchedAddressRepository {
    const watches: seq<Watch>
    var rows: map<string, Observation>
    var spends: map<(string, string), Spend>

    ghost function State(): PgStore reads this { PgStore(watches, rows, spends) }

    constructor (watches: seq<Watch>)
      ensures State() == PgStore(watches, map[], map[])
    {
      this.watches := watches;
      rows, spends := map[], map[];
    }

    /** The inserted or re-attached row, or the live row that was there. */
    method RecordObservation(obs: Observation) returns (stored: Observation)
      requires obs.matchStatus == Pending
      modifies `rows
      ensures State() == PgRecord(old(State()), obs)
      ensures obs.outpoint in rows && stored == rows[obs.outpoint] && stored.matchStatus != Detached
    {
      if obs.outpoint !in rows || rows[obs.outpoint].matchStatus == Detached {
        rows := rows[obs.outpoint := obs];
      }
      stored := rows[obs.outpoint];
    }

    method FindObservedOutpoint(outpoint: string) returns (observed: Option<Observation>)
      ensures observed == PgFindObserved(State(), outpoint)
    {
      if outpoint !in rows || rows[outpoint].matchStatus == Detached {
        return None;
      }
      var registered := false;
      for n := 0 to |watches|
        invariant registered <==> exists k :: 0 <= k < n && watches[k].watchId == rows[outpoint].watchId
      {
        registered := registered || watches[n].watchId == rows[outpoint].watchId;
      }
      return if registered then Some(rows[outpoint]) else None;
    }

    /** The stored spend, new or as it was; the observation is marked spent either way. */
    method RecordSpend(sp: Spend) returns (stored: Spend)
      modifies `rows, `spends
      ensures State() == PgRecordSpend(old(State()), sp)
      ensures (sp.spendTxid, sp.spentOutpoint) in spends && stored == spends[(sp.spendTxid, sp.spentOutpoint)]
    {
      var key := (sp.spendTxid, sp.spentOutpoint);
      if key !in spends {
        spends := spends[key := sp];
      }
      stored := spends[key];
      if sp.spentOutpoint in rows && rows[sp.spentOutpoint].matchStatus != Detached {
        rows := rows[sp.spentOutpoint := rows[sp.spentOutpoint].(matchStatus := Spent)];
      }
    }

    /** The rows whose depth or status is out of date are updated, and counted: no row is written that stays the same. */
    method AdvanceConfirmations(tipHeight: int) returns (advanced: nat)
      modifies `rows
      ensures State() == PgAdvance(old(State()), tipHeight)
      ensures advanced == |set p | p in old(rows) && rows[p] != old(rows)[p]|
    {
      hide PgAdvanceRow, OutOfDate, RequiredOf;
      var selected := set p | p in rows && OutOfDate(rows[p], tipHeight);
      ghost var before := rows;
      forall p | p in rows {
        OutOfDateIff(rows[p], tipHeight);
      }
      rows := map p | p in rows ::
        if p in selected then
          rows[p].(confirmations := Depth(rows[p], tipHeight), matchStatus := StatusAt(rows[p], tipHeight))
        else rows[p];
      advanced := |selected|;
      assert selected == set p | p in before && rows[p] != before[p];
    }

    function Depth(o: Observation, tipHeight: int): int {
      tipHeight - o.height + 1
    }

    /** The `CASE` over the joined watch's requirement. */
    function StatusAt(o: Observation, tipHeight: int): MatchStatus
      reads this
    {
      if Depth(o, tipHeight) >= RequiredOf(watches, o.watchId).GetOr(0) then Confirmed else Pending
    }

    predicate OutOfDate(o: Observation, tipHeight: int)
      reads this
    {
      && RequiredOf(watches, o.watchId).Some?
      && (o.matchStatus == Pending || o.matchStatus == Confirmed)
      && (o.confirmations != Depth(o, tipHeight) || o.matchStatus != StatusAt(o, tipHeight))
    }

    /** The `WHERE` clause selects exactly the rows that advancing changes. */
    lemma OutOfDateIff(o: Observation, tipHeight: int)
      ensures OutOfDate(o, tipHeight) <==> PgAdvanceRow(watches, o, tipHeight) != o
      ensures OutOfDate(o, tipHeight) ==>
        PgAdvanceRow(watches, o, tipHeight) == o.(confirmations := Depth(o, tipHeight), matchStatus := StatusAt(o, tipHeight))
    {
    }

    /** The block's live rows are detached and counted; no other row changes. */
    method DetachObservationsForBlock(blockHash: Hash) returns (detached: nat)
      modifies `rows
      ensures State() == PgDetach(old(State()), blockHash)
      ensures detached == |set p | p in old(rows) && rows[p] != old(rows)[p]|
    {
      var selected := set p | p in rows && rows[p].blockHash == blockHash && rows[p].matchStatus != Detached;
      ghost var before := rows;
      rows := map p | p in rows ::
        if p in selected then rows[p].(matchStatus := Detached, classification := Reorged) else rows[p];
      detached := |selected|;
      assert selected == set p | p in before && rows[p] != before[p];
    }
  }

  class FundingScannerSink {
    const inner: PgBlockSink
    const repo: PgWatchedAddressRepository
    const network: string

    constructor (inner: PgBlockSink, repo: PgWatchedAddressRepository, network: string)
      ensures this.inner == inner && this.repo == repo && this.network == network
    {
      this.inner, this.repo, this.network := inner, repo, network;
    }

    ghost function State(): Indexer<PgStore> reads inner, repo { Indexer(inner.State(), repo.State()) }

    method SaveBlock(block: Block) returns (result: SaveResult)
      requires inner.Valid()
      modifies inner, repo
      ensures inner.Valid()
      ensures (State(), result) == ScanStep(PgOps(network), old(State()), block)
    {
      hide PgRecordOutputs, PgRecordSpends, PgAdvance, PgDetach, SaveStep;
      result := inner.SaveBlock(block);
      match result {
        case Reorg(_, indexedHash, _) =>
          var detached := repo.DetachObservationsForBlock(indexedHash);
        case Saved =>
          RecordBlockOutputs(block);
          ScanSpends(block);
          var advanced := repo.AdvanceConfirmations(block.height);
        case Duplicate =>
        case Failed =>
      }
    }

    method RecordBlockOutputs(block: Block)
      modifies repo
      ensures repo.State() == PgRecordOutputs(old(repo.State()), network, block, |block.outputs|)
    {
      hide PgRecordWatches, ActiveAt;
      ghost var s0 := repo.State();
      for n := 0 to |block.outputs|
        invariant repo.State() == PgRecordOutputs(s0, network, block, n)
      {
        RecordBlockOutput(block.outputs[n], block);
      }
    }

    method RecordBlockOutput(o: Output, block: Block)
      modifies repo
      ensures repo.State() == PgRecordWatches(old(repo.State()), ActiveAt(repo.watches, network, o), o, block)
    {
      hide ActiveAt, PgRecord, ClassifyFunding;
      var ws := ActiveAt(repo.watches, network, o);
      ghost var s1 := repo.State();
      for k := 0 to |ws|
        invariant repo.State() == PgRecordWatches(s1, ws[..k], o, block)
      {
        assert ws[..k + 1][..k] == ws[..k];
        var prior := PgPriorLive(PgStore(repo.watches, repo.rows, repo.spends), ws[k].watchId, o.outpoint);
        var classification := if prior then DuplicateFunding else ClassifyFunding(o, block, ws[k]);
        var stored := repo.RecordObservation(
          Observation(o.outpoint, ws[k].watchId, block.hash, block.height, o.amountGrains, 1, Pending, classification));
      }
      assert ws[..|ws|] == ws;
    }

    method ScanSpends(block: Block)
      modifies repo
      ensures repo.State() == PgRecordSpends(old(repo.State()), block, |block.inputs|)
    {
      hide PgFindObserved, PgRecordSpend;
      ghost var s0 := repo.State();
      for n := 0 to |block.inputs|
        invariant repo.State() == PgRecordSpends(s0, block, n)
      {
        var i := block.inputs[n];
        if i.spentOutpoint.None? || i.spentOutpoint.value == "" { continue; }
        var observed := repo.FindObservedOutpoint(i.spentOutpoint.value);
        if observed.None? { continue; }
        var stored := repo.RecordSpend(Spend(i.txid, i.spentOutpoint.value, block.hash, block.height));
      }
    }
  }

  class PearlBlockPoller {
    const sink: FundingScannerSink

    constructor (sink: FundingScannerSink)
      ensures this.sink == sink
    {
      this.sink := sink;
    }

    method PollOnce(nextHeight: int, tipHeight: int, answers: seq<Hash>, getBlock: Hash -> Block) returns (outcome: PollOutcome)
      requires sink.inner.Valid()
      modifies sink.inner, sink.repo
      ensures sink.inner.Valid()
      ensures (sink.State(), outcome) == Poll(PgOps(sink.network), old(sink.State()), nextHeight, tipHeight, answers, getBlock)
    {
      hide ScanStep, OneLivePerHeight;
      ghost var expected := Poll(PgOps(sink.network), sink.State(), nextHeight, tipHeight, answers, getBlock);
      if nextHeight > tipHeight {
        return Polled(nextHeight, tipHeight, 0, nextHeight, None);
      }
      var indexedBlocks, height := 0, nextHeight;
      while height <= tipHeight
        invariant sink.inner.Valid()
        invariant nextHeight <= height <= tipHeight + 1
        invariant PollFrom(PgOps(sink.network), sink.State(), nextHeight, height, tipHeight, answers, indexedBlocks, getBlock) == expected
      {
        if height - nextHeight >= |answers| {
          return Crashed;
        }
        var result := sink.SaveBlock(getBlock(answers[height - nextHeight]));
        match result {
          case Reorg(detachedFromHeight, _, _) =>
            return Polled(nextHeight, height - 1, indexedBlocks, detachedFromHeight, Some(detachedFromHeight));
          case Failed =>
            return Crashed;
          case Saved =>
            indexedBlocks := indexedBlocks + 1;
          case Duplicate =>
        }
        height := height + 1;
      }
      return Polled(nextHeight, tipHeight, indexedBlocks, tipHeight + 1, None);
    }
  }
}
