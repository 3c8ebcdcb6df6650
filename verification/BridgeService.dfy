/**
 The bridge service's own objects: the in-memory state repository (repository.ts), the applier's loop
 (reserve-spend-applier.ts) and the poller (igra-poller.ts), each proved to compute its specification.
 */
module BridgeService {
  import opened Wrappers
  import opened Sorting
  import opened BridgeExits
  import opened IgraPoller

  class InMemoryBridgeStateRepository {
    var events: map<(string, nat), IgraEvent>
    var exits: seq<Exit>

    constructor ()
      ensures events == map[] && exits == []
    {
      events, exits := map[], [];
    }

    method SaveIgraEvent(event: IgraEvent) returns (created: bool)
      modifies `events
      ensures events == SaveEvent(old(events), event)
      ensures created <==> EventId(event) !in old(events)
    {
      created := EventId(event) !in events;
      if created {
        events := events[EventId(event) := event];
      }
    }

    /** The saved exit and whether it is new; a conflict throws and changes nothing. */
    method UpsertExitRequest(exit: Exit) returns (saved: Result<(Exit, bool)>)
      modifies `exits
      ensures saved.Ok? <==> Upsert(old(exits), exit).Ok?
      ensures exits == if saved.Ok? then Upsert(old(exits), exit).value else old(exits)
      ensures saved.Ok? ==> (
          && IndexOf(exits, exit.exitId) < |exits|
          && saved.value.0 == exits[IndexOf(exits, exit.exitId)]
          && saved.value.1 == (IndexOf(old(exits), exit.exitId) == |old(exits)|))
    {
      if Conflicts(exits, exit) {
        return Thrown;
      }
      var i := IndexOf(exits, exit.exitId);
      if i < |exits| {
        var merged := MergeExit(exits[i], exit);
        ReplacedIndex(exits, i, merged);
        exits := exits[i := merged];
        return Ok((merged, false));
      }
      AppendedIndex(exits, exit);
      exits := exits + [exit];
      return Ok((exit, true));
    }

    method FindExitRequest(exitId: string) returns (found: Option<Exit>)
      ensures found == if IndexOf(exits, exitId) < |exits| then Some(exits[IndexOf(exits, exitId)]) else None
    {
      for n := 0 to |exits|
        invariant IndexOf(exits, exitId) == n + IndexOf(exits[n..], exitId)
      {
        if exits[n].exitId == exitId {
          return Some(exits[n]);
        }
        assert exits[n..][1..] == exits[n + 1..];
      }
      return None;
    }
  }

  lemma {:induction false} ReplacedIndex(exits: seq<Exit>, i: nat, x: Exit)
    requires i < |exits| && IndexOf(exits, x.exitId) == i
    ensures IndexOf(exits[i := x], x.exitId) == i
  {
    if i > 0 {
      ReplacedIndex(exits[1..], i - 1, x);
      assert exits[i := x][1..] == exits[1..][i - 1 := x];
    }
  }

  lemma {:induction false} AppendedIndex(exits: seq<Exit>, x: Exit)
    requires IndexOf(exits, x.exitId) == |exits|
    ensures IndexOf(exits + [x], x.exitId) == |exits|
  {
    if exits != [] {
      AppendedIndex(exits[1..], x);
      assert (exits + [x])[1..] == exits[1..] + [x];
    }
  }

  /** One turn of the applier's loop, where the store's list is the listed one. */
  method ApplyMatch(repository: InMemoryBridgeStateRepository, spend: ReserveSpend) returns (result: Match)
    requires LedgerOk(repository.exits)
    modifies repository`exits
    ensures result == MatchSpend(spend, old(repository.exits))
    ensures ApplySpend(old(repository.exits), spend) == Ok(repository.exits) && LedgerOk(repository.exits)
  {
    hide MatchSpend, LedgerOk, Evolves, ReleasedBy, MergeExit, MatchExact, Conflicts, Upsert;
    ApplySpendKeepsLedger(repository.exits, spend);
    result := MatchSpend(spend, repository.exits);
    if result.Matched? {
      var existing := repository.FindExitRequest(result.exitId);
      if existing.Some? && !(existing.value.status == Released && existing.value.releaseTxid == Some(spend.spendTxid)) {
        var saved := repository.UpsertExitRequest(ReleasedBy(existing.value, spend));
      }
    }
  }

  /** The applier's loop; `listed` is its own copy of the exits, kept equal to the store. */
  method ApplyReserveSpendMatches(repository: InMemoryBridgeStateRepository, spends: seq<ReserveSpend>)
    returns (results: seq<Match>)
    requires LedgerOk(repository.exits)
    modifies repository`exits
    ensures ApplySpends(old(repository.exits), spends) == Ok(repository.exits)
    ensures |results| == |spends|
    ensures forall n :: 0 <= n < |spends| ==>
      ApplySpends(old(repository.exits), spends[..n]).Ok?
      && results[n] == MatchSpend(spends[n], ApplySpends(old(repository.exits), spends[..n]).value)
  {
    hide MatchSpend, LedgerOk, ApplySpend;
    ghost var exits0 := repository.exits;
    var listed := repository.exits;
    results := [];
    assert spends[..0] == [];
    for n := 0 to |spends|
      invariant |results| == n
      invariant listed == repository.exits && LedgerOk(listed)
      invariant ApplySpends(exits0, spends[..n]) == Ok(listed)
      invariant forall k :: 0 <= k < n ==>
        ApplySpends(exits0, spends[..k]).Ok?
        && results[k] == MatchSpend(spends[k], ApplySpends(exits0, spends[..k]).value)
    {
      assert spends[..n + 1][..n] == spends[..n];
      var result := ApplyMatch(repository, spends[n]);
      results := results + [result];
      listed := repository.exits;
    }
    assert spends[..|spends|] == spends;
  }

  class IgraBridgeEventPoller {
    const repository: InMemoryBridgeStateRepository
    const startBlock: nat
    const maxBlockRange: nat
    var nextBlock: Option<nat>

    constructor (repository: InMemoryBridgeStateRepository, startBlock: nat, maxBlockRange: nat)
      requires 0 < startBlock && 0 < maxBlockRange
      ensures State() == Bridge(repository.events, repository.exits, None)
      ensures this.repository == repository && this.startBlock == startBlock && this.maxBlockRange == maxBlockRange
    {
      this.repository, this.startBlock, this.maxBlockRange := repository, startBlock, maxBlockRange;
      nextBlock := None;
    }

    ghost function State(): Bridge reads this, repository {
      Bridge(repository.events, repository.exits, nextBlock)
    }

    /** `latestSafeBlock` is the tip less the confirmations; `crash` is where this try is interrupted. */
    method PollOnce(latestSafeBlock: int, answer: seq<IgraEvent>, crash: Crash) returns (outcome: Outcome)
      requires 0 < maxBlockRange
      modifies this, repository
      ensures (State(), outcome) == Poll(old(State()), startBlock, latestSafeBlock, maxBlockRange, answer, crash)
    {
      hide ApplyEvent, Sort, SaveEvent;
      var fromBlock := nextBlock.GetOr(startBlock);
      if latestSafeBlock < fromBlock {
        return Idle;
      }
      var toBlock := if latestSafeBlock < fromBlock + maxBlockRange - 1 then latestSafeBlock else fromBlock + maxBlockRange - 1;
      var logs := Sort(answer, LogKey);
      ghost var b0 := State();
      ghost var expected := Process(b0, logs, 0, crash);
      for n := 0 to |logs|
        invariant nextBlock == b0.checkpoint
        invariant Process(State(), logs, n, crash) == expected
      {
        if crash == CrashAt(n, false) {
          return Aborted;
        }
        var created := repository.SaveIgraEvent(logs[n]);
        if crash == CrashAt(n, true) {
          return Aborted;
        }
        var applied := ApplyIgraBridgeEvent(logs[n]);
        if !applied {
          return Aborted;
        }
      }
      if crash == CrashAt(|logs|, false) {
        return Aborted;
      }
      nextBlock := Some(toBlock + 1);
      return Completed(fromBlock, toBlock);
    }

    /** `applyIgraBridgeEventToExitRepository`; false where the source throws. */
    method ApplyIgraBridgeEvent(event: IgraEvent) returns (applied: bool)
      modifies repository`exits
      ensures applied <==> ApplyEvent(old(repository.exits), event).Ok?
      ensures repository.exits == if applied then ApplyEvent(old(repository.exits), event).value else old(repository.exits)
    {
      match event {
        case ExitRequested(_, _, _, exitId, _, recipient) =>
          if exitId == "" || recipient == "" { return false; }
          var saved := repository.UpsertExitRequest(RequestedExit(event));
          return saved.Ok?;
        case ExitProcessed(_, _, _, exitId, releaseTxid) =>
          if exitId == "" { return false; }
          var existing := repository.FindExitRequest(exitId);
          if existing.None? { return true; }
          if releaseTxid == "" { return false; }
          var saved := repository.UpsertExitRequest(existing.value.(
            status := Processed, releaseTxid := Some(NormalizeTxid(releaseTxid)), releaseBlock := None));
          return saved.Ok?;
        case ExitRefunded(_, _, _, exitId) =>
          if exitId == "" { return false; }
          var existing := repository.FindExitRequest(exitId);
          if existing.None? { return true; }
          var saved := repository.UpsertExitRequest(existing.value.(status := Refunded));
          return saved.Ok?;
        case OtherEvent(_, _, _) =>
          return true;
      }
    }
  }
}
