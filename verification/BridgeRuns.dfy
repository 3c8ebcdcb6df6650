/**
 Runs of the whole bridge: the poller of igra-poller.ts and the applier of reserve-spend-applier.ts over one exit store.

 A spend may give an exit the txid that the log will report for another exit; from then on that log throws.
 `AttemptIff` says exactly which attempts abort, `StuckForever` that the poller never passes such a log, and
 `SpendBlocksIff` which spend causes it.
 */
module BridgeRuns {
  import opened Wrappers
  import opened Sorting
  import opened BridgeExits
  import opened BridgeReconciliation
  import opened IgraPoller

  datatype Step = Polled(attempt: Attempt) | Applied(spends: seq<ReserveSpend>)

  function Take(b: Bridge, startBlock: nat, s: Step): (Bridge, Outcome)
    requires s.Polled? ==> s.attempt.maxRange > 0
  {
    match s
    case Polled(a) => Poll(b, startBlock, a.latestSafe, a.maxRange, a.answer, a.crash)
    case Applied(spends) => (b.(exits := LedgerStep(b.exits, ReserveSpends(spends))), Idle)
  }

  predicate HonestStep(logs: seq<IgraEvent>, b: Bridge, startBlock: nat, s: Step) {
    s.Polled? ==> HonestAnswer(logs, b, startBlock, s.attempt)
  }

  ghost predicate MixedRun(logs: seq<IgraEvent>, startBlock: nat, trace: seq<Bridge>, steps: seq<Step>, outcomes: seq<Outcome>) {
    && |trace| == |steps| + 1 && |outcomes| == |steps|
    && forall i :: 0 <= i < |steps| ==>
         HonestStep(logs, trace[i], startBlock, steps[i]) && (trace[i + 1], outcomes[i]) == Take(trace[i], startBlock, steps[i])
  }

  // ---- Logs that throw ----

  /** Another exit than the event's has its release txid. */
  predicate TakenElsewhere(exits: seq<Exit>, e: IgraEvent) {
    e.ExitProcessed? && exists k :: 0 <= k < |exits| && HasTxidOf(exits[k], e)
  }

  predicate HasTxidOf(x: Exit, e: IgraEvent)
    requires e.ExitProcessed?
  {
    x.exitId != e.exitId && x.releaseTxid.Some? && NormalizeTxid(x.releaseTxid.value) == NormalizeTxid(e.releaseTxid)
  }

  /** The log's exit was requested before it, and its txid belongs to another exit. */
  predicate Blocked(exits: seq<Exit>, logs: seq<IgraEvent>, j: nat)
    requires j < |logs|
  {
    (exists l :: 0 <= l < j && RequestOf(logs[l], logs[j])) && TakenElsewhere(exits, logs[j])
  }

  /** The exit is of the request's id, burn, amount and recipient. */
  predicate MadeBy(x: Exit, e: IgraEvent) {
    && e.ExitRequested? && x.exitId == e.exitId && x.burnTxid == e.txHash && x.burnLogIndex == e.logIndex
    && x.amountGrains == e.amountGrains && x.recipient == e.recipient
  }

  ghost predicate Made(x: Exit, logs: seq<IgraEvent>) {
    exists l :: 0 <= l < |logs| && MadeBy(x, logs[l])
  }

  /** The exits stem from requests of the log, and those of the first `c` logs are there. */
  ghost predicate Stems(exits: seq<Exit>, logs: seq<IgraEvent>, c: nat)
    requires c <= |logs|
  {
    && LedgerOk(exits)
    && (forall i :: 0 <= i < |exits| ==> Made(exits[i], logs))
    && (forall l :: 0 <= l < c && logs[l].ExitRequested? ==> Has(exits, logs[l].exitId))
  }

  lemma RequestApplies(exits: seq<Exit>, logs: seq<IgraEvent>, j: nat)
    requires Orderly(logs) && j < |logs| && Stems(exits, logs, j) && logs[j].ExitRequested?
    ensures ApplyEvent(exits, logs[j]).Ok?
  {
    hide Proper, NormalizeTxid, LedgerOk, RequestsFirst;
    WellFormedAt(logs, j);
    forall k | 0 <= k < |exits|
      ensures !BurnConflict(exits[k], RequestedExit(logs[j]))
    {
      var l :| 0 <= l < |logs| && MadeBy(exits[k], logs[l]);
      if l != j { ProperAt(logs, l, j); }
    }
  }

  lemma RefundApplies(exits: seq<Exit>, logs: seq<IgraEvent>, j: nat)
    requires Orderly(logs) && j < |logs| && LedgerOk(exits) && logs[j].ExitRefunded?
    ensures ApplyEvent(exits, logs[j]).Ok?
  {
    hide Proper, NormalizeTxid, RequestsFirst;
    WellFormedAt(logs, j);
    var i := IndexOf(exits, logs[j].exitId);
    if i < |exits| {
      forall k | 0 <= k < |exits| && k != i
        ensures !BurnConflict(exits[k], exits[i].(status := Refunded)) && !ReleaseConflict(exits[k], exits[i].(status := Refunded))
      {
        AreDistinct(exits, i, k);
      }
    }
  }

  /** The write of a processed event, and whom it can conflict with. */
  lemma ProcessedConflicts(exits: seq<Exit>, i: nat, e: IgraEvent)
    requires LedgerOk(exits) && i < |exits| && e.ExitProcessed? && exits[i].exitId == e.exitId && e.releaseTxid != ""
    ensures Conflicts(exits, LifecycleWrite(exits[i], e)) <==> TakenElsewhere(exits, e)
  {
    hide NormalizeTxid, LedgerOk;
    var next := LifecycleWrite(exits[i], e);
    NormalizeIdempotent(e.releaseTxid);
    NormalizesToEmpty(e.releaseTxid);
    forall k | 0 <= k < |exits|
      ensures !BurnConflict(exits[k], next)
      ensures ReleaseConflict(exits[k], next) <==> HasTxidOf(exits[k], e)
    {
      if k != i { AreDistinct(exits, i, k); }
    }
  }

  lemma ProcessedApplies(exits: seq<Exit>, logs: seq<IgraEvent>, j: nat)
    requires Orderly(logs) && j < |logs| && Stems(exits, logs, j) && logs[j].ExitProcessed?
    ensures ApplyEvent(exits, logs[j]).Ok? <==> !Blocked(exits, logs, j)
  {
    hide Proper, NormalizeTxid, LedgerOk, Conflicts, TakenElsewhere;
    WellFormedAt(logs, j);
    var i := IndexOf(exits, logs[j].exitId);
    if i < |exits| {
      assert Made(exits[i], logs);
      var l :| 0 <= l < |logs| && MadeBy(exits[i], logs[l]);
      assert l < j && RequestOf(logs[l], logs[j]);
      ProcessedConflicts(exits, i, logs[j]);
    }
  }

  /** A log throws exactly when it is blocked. */
  lemma LogAppliesIff(exits: seq<Exit>, logs: seq<IgraEvent>, j: nat)
    requires Orderly(logs) && j < |logs| && Stems(exits, logs, j)
    ensures ApplyEvent(exits, logs[j]).Ok? <==> !Blocked(exits, logs, j)
  {
    hide Orderly, Stems, LedgerOk, ApplyEvent;
    match logs[j] {
      case ExitRequested(_, _, _, _, _, _) => RequestApplies(exits, logs, j);
      case ExitRefunded(_, _, _, _) =>
        StemsLedger(exits, logs, j);
        RefundApplies(exits, logs, j);
      case ExitProcessed(_, _, _, _, _) => ProcessedApplies(exits, logs, j);
      case OtherEvent(_, _, _) => OtherApplies(exits, logs[j]);
    }
  }

  lemma StemsLedger(exits: seq<Exit>, logs: seq<IgraEvent>, c: nat)
    requires c <= |logs| && Stems(exits, logs, c)
    ensures LedgerOk(exits)
  {
  }

  lemma OtherApplies(exits: seq<Exit>, e: IgraEvent)
    requires e.OtherEvent?
    ensures ApplyEvent(exits, e) == Ok(exits)
  {
  }

  // ---- What a log changes ----

  predicate SameRequest(x: Exit, x': Exit) {
    x'.burnTxid == x.burnTxid && x'.burnLogIndex == x.burnLogIndex && x'.amountGrains == x.amountGrains && x'.recipient == x.recipient
  }

  /** Applied logs keep each exit's id and burn and write a txid only where an event reports it. */
  lemma LogWrites(exits: seq<Exit>, e: IgraEvent)
    requires ApplyEvent(exits, e).Ok?
    ensures var exits' := ApplyEvent(exits, e).value;
      && |exits| <= |exits'| <= |exits| + 1
      && (e.ExitRequested? ==> Has(exits', e.exitId))
      && (forall i :: 0 <= i < |exits| ==>
            && exits'[i].exitId == exits[i].exitId
            && (exits[i].releaseTxid.Some? ==> exits'[i].releaseTxid == exits[i].releaseTxid)
            && (exits'[i].releaseTxid != exits[i].releaseTxid ==>
                  e.ExitProcessed? && exits[i].exitId == e.exitId && exits'[i].releaseTxid == Some(NormalizeTxid(e.releaseTxid)))
            && (SameRequest(exits[i], exits'[i]) || MadeBy(exits'[i], e)))
      && (|exits'| > |exits| ==> MadeBy(exits'[|exits|], e) && exits'[|exits|].releaseTxid.None?)
  {
    hide NormalizeTxid, Conflicts;
    var exits' := ApplyEvent(exits, e).value;
    if e.ExitRequested? {
      var i := IndexOf(exits, e.exitId);
      HasIndex(exits', e.exitId, i);
    }
  }

  lemma HasStaysOn(exits: seq<Exit>, exits': seq<Exit>, exitId: string)
    requires Has(exits, exitId) && |exits| <= |exits'|
    requires forall i :: 0 <= i < |exits| ==> exits'[i].exitId == exits[i].exitId
    ensures Has(exits', exitId)
  {
    HasIndex(exits', exitId, IndexOf(exits, exitId));
  }

  lemma LogKeepsStems(exits: seq<Exit>, logs: seq<IgraEvent>, j: nat, c: nat)
    requires j < |logs| && c <= |logs| && Stems(exits, logs, c) && ApplyEvent(exits, logs[j]).Ok?
    ensures var exits' := ApplyEvent(exits, logs[j]).value;
      Stems(exits', logs, c) && (c == j ==> Stems(exits', logs, j + 1))
  {
    hide LedgerOk, ApplyEvent, Has, MadeBy;
    LogWrites(exits, logs[j]);
    EventKeepsLedger(exits, logs[j]);
    var exits' := ApplyEvent(exits, logs[j]).value;
    forall i | 0 <= i < |exits'|
      ensures Made(exits'[i], logs)
    {
      if i < |exits| {
        assert Made(exits[i], logs);
        var l :| 0 <= l < |logs| && MadeBy(exits[i], logs[l]);
        if SameRequest(exits[i], exits'[i]) { SameBurn(exits[i], exits'[i], logs[l]); }
        assert MadeBy(exits'[i], logs[l]) || MadeBy(exits'[i], logs[j]);
      } else {
        assert MadeBy(exits'[i], logs[j]);
      }
    }
    forall l | 0 <= l < c && logs[l].ExitRequested?
      ensures Has(exits', logs[l].exitId)
    {
      HasStaysOn(exits, exits', logs[l].exitId);
    }
  }

  lemma SameBurn(x: Exit, x': Exit, e: IgraEvent)
    requires MadeBy(x, e) && x'.exitId == x.exitId && SameRequest(x, x')
    ensures MadeBy(x', e)
  {
  }

  /** Applying a log blocks no log and frees none. */
  lemma LogBlocksNothing(exits: seq<Exit>, logs: seq<IgraEvent>, j: nat, h: nat)
    requires Proper(logs) && j < |logs| && h < |logs| && ApplyEvent(exits, logs[j]).Ok?
    ensures TakenElsewhere(ApplyEvent(exits, logs[j]).value, logs[h]) <==> TakenElsewhere(exits, logs[h])
  {
    hide Proper, ApplyEvent, NormalizeTxid, MadeBy, Has;
    LogWrites(exits, logs[j]);
    var exits' := ApplyEvent(exits, logs[j]).value;
    if TakenElsewhere(exits, logs[h]) {
      var k :| 0 <= k < |exits| && HasTxidOf(exits[k], logs[h]);
      assert HasTxidOf(exits'[k], logs[h]);
    }
    if TakenElsewhere(exits', logs[h]) {
      var k :| 0 <= k < |exits'| && HasTxidOf(exits'[k], logs[h]);
      if k < |exits| && exits'[k].releaseTxid != exits[k].releaseTxid {
        NormalizeIdempotent(logs[j].releaseTxid);
        ProperAt(logs, j, h);
      } else {
        assert HasTxidOf(exits[k], logs[h]);
      }
    }
  }

  lemma SameBlocked(exits: seq<Exit>, exits': seq<Exit>, logs: seq<IgraEvent>)
    requires forall h :: 0 <= h < |logs| ==> (TakenElsewhere(exits', logs[h]) <==> TakenElsewhere(exits, logs[h]))
    ensures forall h :: 0 <= h < |logs| ==> (Blocked(exits', logs, h) <==> Blocked(exits, logs, h))
  {
    hide TakenElsewhere;
  }

  lemma LogKeepsBlocked(exits: seq<Exit>, logs: seq<IgraEvent>, j: nat)
    requires Proper(logs) && j < |logs| && ApplyEvent(exits, logs[j]).Ok?
    ensures forall h :: 0 <= h < |logs| ==> (Blocked(ApplyEvent(exits, logs[j]).value, logs, h) <==> Blocked(exits, logs, h))
  {
    hide Proper, ApplyEvent, TakenElsewhere, Blocked;
    forall h | 0 <= h < |logs|
      ensures TakenElsewhere(ApplyEvent(exits, logs[j]).value, logs[h]) <==> TakenElsewhere(exits, logs[h])
    {
      LogBlocksNothing(exits, logs, j, h);
    }
    SameBlocked(exits, ApplyEvent(exits, logs[j]).value, logs);
  }

  // ---- A stretch of logs ----

  ghost predicate ClearBetween(exits: seq<Exit>, logs: seq<IgraEvent>, lo: nat, hi: nat)
    requires hi <= |logs|
  {
    forall j :: lo <= j < hi ==> !Blocked(exits, logs, j)
  }

  /** A try without a crash gets through a stretch exactly when no log of it is blocked; no try blocks or frees a log. */
  lemma {:induction false} ProcessIff(b: Bridge, logs: seq<IgraEvent>, lo: nat, hi: nat, k: nat, c: nat, crash: Crash)
    returns (c': nat)
    requires Orderly(logs) && lo <= hi <= |logs| && k <= hi - lo && lo + k <= c <= |logs| && Stems(b.exits, logs, c)
    ensures var (b', done) := Process(b, logs[lo..hi], k, crash);
      && c <= c' <= |logs| && Stems(b'.exits, logs, c') && b'.checkpoint == b.checkpoint
      && (done ==> hi <= c' && ClearBetween(b.exits, logs, lo + k, hi))
      && (crash.NoCrash? && ClearBetween(b.exits, logs, lo + k, hi) ==> done)
      && (forall h :: 0 <= h < |logs| ==> (Blocked(b'.exits, logs, h) <==> Blocked(b.exits, logs, h)))
    decreases hi - lo - k
  {
    hide Proper, RequestsFirst, Stems, ApplyEvent, SaveEvent, Blocked;
    c' := c;
    var j := lo + k;
    if crash != CrashAt(k, false) && k < hi - lo {
      assert logs[lo..hi][k] == logs[j];
      StemsBelow(b.exits, logs, j, c);
      LogAppliesIff(b.exits, logs, j);
      if crash != CrashAt(k, true) && !Blocked(b.exits, logs, j) {
        LogKeepsStems(b.exits, logs, j, c);
        LogKeepsBlocked(b.exits, logs, j);
        var b1 := Bridge(SaveEvent(b.events, logs[j]), ApplyEvent(b.exits, logs[j]).value, b.checkpoint);
        c' := ProcessIff(b1, logs, lo, hi, k + 1, if c == j then c + 1 else c, crash);
      }
    }
  }

  lemma StemsBelow(exits: seq<Exit>, logs: seq<IgraEvent>, j: nat, c: nat)
    requires j <= c <= |logs| && Stems(exits, logs, c)
    ensures Stems(exits, logs, j)
  {
  }

  // ---- One attempt ----

  /** The logs an attempt asks for, as positions. */
  function RangeStart(logs: seq<IgraEvent>, b: Bridge, startBlock: nat): (lo: nat)
    ensures lo <= |logs|
  {
    CountBelow(logs, NextBlock(b, startBlock))
  }

  function RangeEnd(logs: seq<IgraEvent>, b: Bridge, startBlock: nat, a: Attempt): (hi: nat)
    requires NextBlock(b, startBlock) <= a.latestSafe && a.maxRange > 0
    ensures hi <= |logs|
  {
    CountBelow(logs, ToBlock(b, startBlock, a.latestSafe, a.maxRange) + 1)
  }

  ghost predicate MixedInv(b: Bridge, logs: seq<IgraEvent>, startBlock: nat) {
    Stems(b.exits, logs, RangeStart(logs, b, startBlock))
  }

  /** An attempt without a crash completes exactly when no log it asks for is blocked; a completed one moves the checkpoint
      past its range, and none blocks or frees a log. */
  lemma AttemptIs(b: Bridge, logs: seq<IgraEvent>, startBlock: nat, a: Attempt)
    requires Orderly(logs) && MixedInv(b, logs, startBlock) && HonestAnswer(logs, b, startBlock, a)
    ensures a.maxRange > 0
    ensures var (b', outcome) := Poll(b, startBlock, a.latestSafe, a.maxRange, a.answer, a.crash);
      && MixedInv(b', logs, startBlock)
      && (forall h :: 0 <= h < |logs| ==> (Blocked(b'.exits, logs, h) <==> Blocked(b.exits, logs, h)))
      && (outcome.Idle? <==> a.latestSafe < NextBlock(b, startBlock))
      && (!outcome.Completed? ==> b'.checkpoint == b.checkpoint)
      && (!outcome.Idle? ==>
            var lo, hi := RangeStart(logs, b, startBlock), RangeEnd(logs, b, startBlock, a);
            && lo <= hi
            && (outcome.Completed? ==> ClearBetween(b.exits, logs, lo, hi) && RangeStart(logs, b', startBlock) == hi)
            && (a.crash.NoCrash? && ClearBetween(b.exits, logs, lo, hi) ==> outcome.Completed?))
  {
    hide Proper, RequestsFirst, Stems, Process, Sort, StrictlySorted, CountBelow, Blocked, ClearBetween;
    if NextBlock(b, startBlock) <= a.latestSafe {
      var lo, hi := RangeStart(logs, b, startBlock), RangeEnd(logs, b, startBlock, a);
      StretchSorted(logs, lo, hi);
      SortOfStrict(a.answer, logs[lo..hi], LogKey);
      var c := ProcessIff(b, logs, lo, hi, 0, lo, a.crash);
      var (b', done) := Process(b, logs[lo..hi], 0, a.crash);
      StemsBelow(b'.exits, logs, lo, c);
      if done { StemsBelow(b'.exits, logs, hi, c); }
    }
  }

  // ---- One run of the applier ----

  /** The spend gives its match, which had no txid, the txid of another exit's event. */
  predicate Takes(exits: seq<Exit>, sp: ReserveSpend, e: IgraEvent)
    requires e.ExitProcessed?
  {
    && Known(sp, exits) && MatchSpend(sp, exits).exitId != e.exitId
    && NormalizeTxid(sp.spendTxid) == NormalizeTxid(e.releaseTxid)
    && var i := IndexOf(exits, MatchSpend(sp, exits).exitId);
       i < |exits| && exits[i].releaseTxid.None?
  }

  lemma SpendTakesIff(exits: seq<Exit>, sp: ReserveSpend, e: IgraEvent)
    requires LedgerOk(exits) && e.ExitProcessed?
    ensures ApplySpend(exits, sp).Ok?
    ensures TakenElsewhere(ApplySpend(exits, sp).value, e) <==> TakenElsewhere(exits, e) || Takes(exits, sp, e)
  {
    hide NormalizeTxid, ApplySpend, MatchSpend, MatchExact, LedgerOk;
    var i := ApplySpendShape(exits, sp);
    var exits' := ApplySpend(exits, sp).value;
    if Known(sp, exits) {
      IndexOfIs(exits, i);
      forall k | 0 <= k < |exits|
        ensures HasTxidOf(exits'[k], e) <==> HasTxidOf(exits[k], e) || (k == i && Takes(exits, sp, e))
      {
        assert BridgeReconciliation.Applied(exits[k], exits'[k]);
      }
      assert Takes(exits, sp, e) ==> HasTxidOf(exits'[i], e);
    }
  }

  /** Some spend of the list takes the txid, as the exits stand when it is applied. */
  predicate TakesOneOf(exits: seq<Exit>, spends: seq<ReserveSpend>, e: IgraEvent, n: nat)
    requires e.ExitProcessed? && n < |spends|
  {
    ApplySpends(exits, spends[..n]).Ok? && Takes(ApplySpends(exits, spends[..n]).value, spends[n], e)
  }

  lemma {:induction false} SpendsTakeIff(exits: seq<Exit>, spends: seq<ReserveSpend>, e: IgraEvent)
    requires LedgerOk(exits) && e.ExitProcessed?
    ensures ApplySpends(exits, spends).Ok?
    ensures TakenElsewhere(ApplySpends(exits, spends).value, e) <==>
      TakenElsewhere(exits, e) || exists n :: 0 <= n < |spends| && TakesOneOf(exits, spends, e, n)
  {
    hide LedgerOk, ApplySpend, Takes, TakenElsewhere;
    SpendsApply(exits, spends);
    if spends != [] {
      var last := |spends| - 1;
      SpendsApply(exits, spends[..last]);
      SpendsTakeIff(exits, spends[..last], e);
      SpendTakesIff(ApplySpends(exits, spends[..last]).value, spends[last], e);
      forall n | 0 <= n < last
        ensures TakesOneOf(exits, spends[..last], e, n) <==> TakesOneOf(exits, spends, e, n)
      {
        assert spends[..last][..n] == spends[..n];
      }
      assert TakesOneOf(exits, spends, e, last) <==> Takes(ApplySpends(exits, spends[..last]).value, spends[last], e);
    }
  }

  lemma SpendsKeepStems(exits: seq<Exit>, logs: seq<IgraEvent>, c: nat, spends: seq<ReserveSpend>)
    requires c <= |logs| && Stems(exits, logs, c)
    ensures Stems(LedgerStep(exits, ReserveSpends(spends)), logs, c)
    ensures ApplySpends(exits, spends) == Ok(LedgerStep(exits, ReserveSpends(spends)))
  {
    hide LedgerOk, ApplySpends, MadeBy, Has;
    SpendsApply(exits, spends);
    var exits' := LedgerStep(exits, ReserveSpends(spends));
    forall i | 0 <= i < |exits'|
      ensures Made(exits'[i], logs)
    {
      assert Made(exits[i], logs) && BridgeReconciliation.Applied(exits[i], exits'[i]);
      var l :| 0 <= l < |logs| && MadeBy(exits[i], logs[l]);
      SameBurn(exits[i], exits'[i], logs[l]);
    }
    forall l | 0 <= l < c && logs[l].ExitRequested?
      ensures Has(exits', logs[l].exitId)
    {
      assert forall i :: 0 <= i < |exits| ==> BridgeReconciliation.Applied(exits[i], exits'[i]);
      HasStaysOn(exits, exits', logs[l].exitId);
    }
  }

  // ---- Runs ----

  ghost predicate RunFromEmpty(logs: seq<IgraEvent>, startBlock: nat, trace: seq<Bridge>, steps: seq<Step>, outcomes: seq<Outcome>) {
    && Orderly(logs) && CountBelow(logs, startBlock) == 0
    && MixedRun(logs, startBlock, trace, steps, outcomes) && trace[0] == START
  }

  lemma StepIs(logs: seq<IgraEvent>, startBlock: nat, trace: seq<Bridge>, steps: seq<Step>, outcomes: seq<Outcome>, i: nat)
    requires MixedRun(logs, startBlock, trace, steps, outcomes) && i < |steps|
    ensures |trace| == |steps| + 1 && |outcomes| == |steps|
    ensures HonestStep(logs, trace[i], startBlock, steps[i])
    ensures (trace[i + 1], outcomes[i]) == Take(trace[i], startBlock, steps[i])
  {
    hide HonestStep, Take;
  }

  lemma StepKeepsInv(logs: seq<IgraEvent>, b: Bridge, startBlock: nat, s: Step)
    requires Orderly(logs) && MixedInv(b, logs, startBlock) && HonestStep(logs, b, startBlock, s)
    ensures s.Polled? ==> s.attempt.maxRange > 0
    ensures MixedInv(Take(b, startBlock, s).0, logs, startBlock)
  {
    hide Orderly, Stems, Poll, CountBelow, HonestAnswer;
    match s {
      case Polled(a) => AttemptIs(b, logs, startBlock, a);
      case Applied(spends) => SpendsKeepStems(b.exits, logs, RangeStart(logs, b, startBlock), spends);
    }
  }

  lemma {:induction false} RunKeepsMixedInv(logs: seq<IgraEvent>, startBlock: nat, trace: seq<Bridge>, steps: seq<Step>, outcomes: seq<Outcome>, i: nat)
    requires RunFromEmpty(logs, startBlock, trace, steps, outcomes) && i <= |steps|
    ensures i < |trace| && MixedInv(trace[i], logs, startBlock)
  {
    hide Orderly, MixedInv, Take, HonestStep, CountBelow, MixedRun;
    RunSize(logs, startBlock, trace, steps, outcomes);
    if i > 0 {
      RunKeepsMixedInv(logs, startBlock, trace, steps, outcomes, i - 1);
      StepIs(logs, startBlock, trace, steps, outcomes, i - 1);
      StepKeepsInv(logs, trace[i - 1], startBlock, steps[i - 1]);
    } else {
      NothingStems(logs, startBlock);
    }
  }

  lemma RunSize(logs: seq<IgraEvent>, startBlock: nat, trace: seq<Bridge>, steps: seq<Step>, outcomes: seq<Outcome>)
    requires MixedRun(logs, startBlock, trace, steps, outcomes)
    ensures |trace| == |steps| + 1 && |outcomes| == |steps|
  {
  }

  lemma NothingStems(logs: seq<IgraEvent>, startBlock: nat)
    requires CountBelow(logs, startBlock) == 0
    ensures MixedInv(START, logs, startBlock)
  {
  }

  // ---- Main results ----

  /** In every run of polls and spends, an attempt that does not crash aborts exactly when a log it asks for has a txid that
      belongs to another exit. */
  lemma AttemptIff(logs: seq<IgraEvent>, startBlock: nat, trace: seq<Bridge>, steps: seq<Step>, outcomes: seq<Outcome>, i: nat)
    requires RunFromEmpty(logs, startBlock, trace, steps, outcomes) && i < |steps| && steps[i].Polled? && steps[i].attempt.crash.NoCrash?
    ensures |trace| == |steps| + 1 && |outcomes| == |steps| && steps[i].attempt.maxRange > 0
    ensures outcomes[i].Aborted? <==>
      && NextBlock(trace[i], startBlock) <= steps[i].attempt.latestSafe
      && exists j :: RangeStart(logs, trace[i], startBlock) <= j < RangeEnd(logs, trace[i], startBlock, steps[i].attempt)
                     && Blocked(trace[i].exits, logs, j)
  {
    hide Orderly, MixedInv, Poll, HonestAnswer, CountBelow, MixedRun, Blocked;
    StepIs(logs, startBlock, trace, steps, outcomes, i);
    RunKeepsMixedInv(logs, startBlock, trace, steps, outcomes, i);
    AttemptIs(trace[i], logs, startBlock, steps[i].attempt);
  }

  /** What a step does to a blocked log that is not passed. */
  lemma StepKeepsStuck(logs: seq<IgraEvent>, b: Bridge, startBlock: nat, s: Step, j: nat)
    requires Orderly(logs) && MixedInv(b, logs, startBlock) && HonestStep(logs, b, startBlock, s)
    requires j < |logs| && Blocked(b.exits, logs, j) && RangeStart(logs, b, startBlock) <= j
    ensures s.Polled? ==> s.attempt.maxRange > 0
    ensures var b' := Take(b, startBlock, s).0; Blocked(b'.exits, logs, j) && RangeStart(logs, b', startBlock) <= j
  {
    hide Orderly, Poll, CountBelow, HonestAnswer, TakenElsewhere, LedgerOk, ApplySpends;
    match s {
      case Polled(a) =>
        hide Stems;
        AttemptIs(b, logs, startBlock, a);
      case Applied(spends) =>
        SpendsTakeIff(b.exits, spends, logs[j]) by { TakenIsProcessed(b.exits, logs[j]); }
    }
  }

  lemma TakenIsProcessed(exits: seq<Exit>, e: IgraEvent)
    requires TakenElsewhere(exits, e)
    ensures e.ExitProcessed?
  {
  }

  /** Once a log that the poller has not passed is blocked, it stays blocked and the checkpoint never passes it, whatever is
      polled or applied later. */
  lemma {:induction false} StuckForever(logs: seq<IgraEvent>, startBlock: nat, trace: seq<Bridge>, steps: seq<Step>, outcomes: seq<Outcome>,
                                        i: nat, later: nat, j: nat)
    requires RunFromEmpty(logs, startBlock, trace, steps, outcomes) && i <= later <= |steps|
    requires |trace| == |steps| + 1 && j < |logs| && Blocked(trace[i].exits, logs, j) && RangeStart(logs, trace[i], startBlock) <= j
    ensures Blocked(trace[later].exits, logs, j) && RangeStart(logs, trace[later], startBlock) <= j
    decreases later - i
  {
    hide Orderly, MixedInv, Take, HonestStep, CountBelow, MixedRun, Blocked;
    if i < later {
      StuckForever(logs, startBlock, trace, steps, outcomes, i, later - 1, j);
      StepIs(logs, startBlock, trace, steps, outcomes, later - 1);
      RunKeepsMixedInv(logs, startBlock, trace, steps, outcomes, later - 1);
      StepKeepsStuck(logs, trace[later - 1], startBlock, steps[later - 1], j);
    }
  }

  /** At step `s` a spend took the event's txid for another exit. */
  ghost predicate TakenAt(trace: seq<Bridge>, steps: seq<Step>, s: nat, e: IgraEvent)
    requires |trace| == |steps| + 1 && s < |steps| && e.ExitProcessed?
  {
    steps[s].Applied? && exists n :: 0 <= n < |steps[s].spends| && TakesOneOf(trace[s].exits, steps[s].spends, e, n)
  }

  lemma StepTakesIff(logs: seq<IgraEvent>, startBlock: nat, trace: seq<Bridge>, steps: seq<Step>, outcomes: seq<Outcome>, s: nat, j: nat)
    requires RunFromEmpty(logs, startBlock, trace, steps, outcomes) && s < |steps| && j < |logs| && logs[j].ExitProcessed?
    ensures |trace| == |steps| + 1
    ensures Blocked(trace[s + 1].exits, logs, j) <==>
      Blocked(trace[s].exits, logs, j) || (TakenAt(trace, steps, s, logs[j]) && exists l :: 0 <= l < j && RequestOf(logs[l], logs[j]))
  {
    hide Orderly, Poll, HonestAnswer, CountBelow, MixedRun, TakenElsewhere, LedgerOk, ApplySpends, TakesOneOf;
    StepIs(logs, startBlock, trace, steps, outcomes, s);
    RunKeepsMixedInv(logs, startBlock, trace, steps, outcomes, s);
    match steps[s] {
      case Polled(a) => AttemptIs(trace[s], logs, startBlock, a);
      case Applied(spends) => SpendsTakeIff(trace[s].exits, spends, logs[j]);
    }
  }

  /** And a log is blocked exactly when an earlier spend gave another exit its txid before that exit had one. */
  lemma {:induction false} SpendBlocksIff(logs: seq<IgraEvent>, startBlock: nat, trace: seq<Bridge>, steps: seq<Step>, outcomes: seq<Outcome>,
                                          i: nat, j: nat)
    requires RunFromEmpty(logs, startBlock, trace, steps, outcomes) && i <= |steps| && j < |logs| && logs[j].ExitProcessed?
    ensures |trace| == |steps| + 1
    ensures Blocked(trace[i].exits, logs, j) <==>
      && (exists l :: 0 <= l < j && RequestOf(logs[l], logs[j]))
      && exists s :: 0 <= s < i && TakenAt(trace, steps, s, logs[j])
  {
    hide Orderly, CountBelow, MixedRun, TakenAt;
    RunSize(logs, startBlock, trace, steps, outcomes);
    if i > 0 {
      SpendBlocksIff(logs, startBlock, trace, steps, outcomes, i - 1, j);
      StepTakesIff(logs, startBlock, trace, steps, outcomes, i - 1, j);
    } else {
      assert trace[0].exits == [];
    }
  }

  // ---- A run that is stuck ----

  const ASK_X := ExitRequested(1, 0, "0xa", "x", 5, "r")
  const ASK_Y := ExitRequested(2, 0, "0xb", "y", 7, "r")
  const PAID_X := ExitProcessed(3, 0, "0xc", "x", "t")
  const STUCK_LOG: seq<IgraEvent> := [ASK_X, ASK_Y, PAID_X]
  const PAYS_Y := ReserveSpend("t", 9, true, Some(7), Some("r"))

  /** The requests are polled, a spend with the txid that the log reports for `x` releases `y`, and the report is polled. */
  const STUCK_STEPS: seq<Step> := [
    Polled(Attempt(2, 10, [ASK_X, ASK_Y], NoCrash)), Step.Applied([PAYS_Y]), Polled(Attempt(3, 10, [PAID_X], NoCrash))]

  lemma StuckLogIsOrderly()
    ensures Orderly(STUCK_LOG)
  {
    hide NormalizeTxid;
    assert "x"[0] != "y"[0] && "0xa"[2] != "0xb"[2];
  }

  lemma StuckRanges()
    ensures CountBelow(STUCK_LOG, 1) == 0 && CountBelow(STUCK_LOG, 3) == 2 && CountBelow(STUCK_LOG, 4) == 3
    ensures STUCK_LOG[0..2] == [ASK_X, ASK_Y] && STUCK_LOG[2..3] == [PAID_X]
  {
    var n1, n3, n4 := CountBelow(STUCK_LOG, 1), CountBelow(STUCK_LOG, 3), CountBelow(STUCK_LOG, 4);
    assert STUCK_LOG[0].block == 1 && STUCK_LOG[1].block == 2 && STUCK_LOG[2].block == 3;
  }

  lemma BothAsked() returns (b: Bridge)
    ensures Poll(START, 1, 2, 10, [ASK_X, ASK_Y], NoCrash) == (b, Completed(1, 2))
    ensures b.exits == [RequestedExit(ASK_X), RequestedExit(ASK_Y)] && b.checkpoint == Some(3)
  {
    hide ApplyEvent, EventId, Sort;
    AsksApply();
    SortOfStrict([ASK_X, ASK_Y], [ASK_X, ASK_Y], LogKey);
    var e1 := SaveEvent(map[], ASK_X);
    var e2 := SaveEvent(e1, ASK_Y);
    var done := Bridge(e2, [RequestedExit(ASK_X), RequestedExit(ASK_Y)], None);
    assert Process(done, [ASK_X, ASK_Y], 2, NoCrash) == (done, true);
    assert Process(Bridge(e1, [RequestedExit(ASK_X)], None), [ASK_X, ASK_Y], 1, NoCrash) == (done, true);
    b := done.(checkpoint := Some(3));
  }

  lemma AsksApply()
    ensures ApplyEvent([], ASK_X) == Ok([RequestedExit(ASK_X)])
    ensures ApplyEvent([RequestedExit(ASK_X)], ASK_Y) == Ok([RequestedExit(ASK_X), RequestedExit(ASK_Y)])
  {
    assert "x"[0] != "y"[0] && "0xa"[2] != "0xb"[2];
    var x, y := RequestedExit(ASK_X), RequestedExit(ASK_Y);
    assert [] + [x] == [x] && [x] + [y] == [x, y];
    assert IndexOf([x], "y") == 1;
  }

  lemma YReleased()
    ensures var x, y := RequestedExit(ASK_X), RequestedExit(ASK_Y);
      ApplySpends([x, y], [PAYS_Y]) == Ok([x, ReleasedBy(y, PAYS_Y)])
  {
    var x, y := RequestedExit(ASK_X), RequestedExit(ASK_Y);
    assert "x"[0] != "y"[0];
    assert IndexOf([x, y], "y") == 1 by { assert [x, y][1..] == [y]; }
    assert NextExact([x, y], PAYS_Y, 2) == 2 && NextExact([x, y], PAYS_Y, 1) == 1;
    assert MatchSpend(PAYS_Y, [x, y]) == Matched("y");
    assert [x, y][1 := ReleasedBy(y, PAYS_Y)] == [x, ReleasedBy(y, PAYS_Y)];
    assert [PAYS_Y][..0] == [];
  }

  /** The exits once the spend is applied: `y` has the txid that the log reports for `x`. */
  function StuckExits(): seq<Exit> {
    [RequestedExit(ASK_X), ReleasedBy(RequestedExit(ASK_Y), PAYS_Y)]
  }

  lemma StuckIsBlocked()
    ensures Blocked(StuckExits(), STUCK_LOG, 2)
  {
    hide NormalizeTxid;
    assert "x"[0] != "y"[0];
    assert HasTxidOf(StuckExits()[1], PAID_X) && RequestOf(STUCK_LOG[0], STUCK_LOG[2]);
  }

  lemma LastAborts(b: Bridge)
    requires b.exits == StuckExits() && b.checkpoint == Some(3) && MixedInv(b, STUCK_LOG, 1)
    ensures RangeStart(STUCK_LOG, b, 1) == 2 && HonestStep(STUCK_LOG, b, 1, STUCK_STEPS[2])
    ensures Take(b, 1, STUCK_STEPS[2]).1 == Aborted
  {
    hide Orderly, Poll, CountBelow, MixedInv, StuckExits, Blocked;
    StuckLogIsOrderly();
    StuckRanges();
    StuckIsBlocked();
    AttemptIs(b, STUCK_LOG, 1, STUCK_STEPS[2].attempt);
  }

  lemma FirstStep() returns (b: Bridge)
    ensures HonestStep(STUCK_LOG, START, 1, STUCK_STEPS[0]) && Take(START, 1, STUCK_STEPS[0]) == (b, Completed(1, 2))
    ensures b.exits == [RequestedExit(ASK_X), RequestedExit(ASK_Y)] && b.checkpoint == Some(3)
  {
    hide Poll, CountBelow;
    StuckRanges();
    b := BothAsked();
  }

  /** So the poller can be stuck: the last attempt of this run aborts, and by `StuckForever` so does every later one that
      asks for that log and does not crash before. */
  lemma SpendBlocksLog() returns (trace: seq<Bridge>, outcomes: seq<Outcome>)
    ensures RunFromEmpty(STUCK_LOG, 1, trace, STUCK_STEPS, outcomes)
    ensures outcomes == [Completed(1, 2), Idle, Aborted]
    ensures Blocked(trace[2].exits, STUCK_LOG, 2) && RangeStart(STUCK_LOG, trace[2], 1) == 2
  {
    hide Orderly, Poll, ApplySpends, CountBelow, MixedInv, HonestAnswer, Blocked, ReleasedBy;
    StuckLogIsOrderly();
    StuckRanges();
    StuckIsBlocked();
    var b1 := FirstStep();
    YReleased();
    var b2 := b1.(exits := StuckExits());
    NothingStems(STUCK_LOG, 1);
    StepKeepsInv(STUCK_LOG, START, 1, STUCK_STEPS[0]);
    StepKeepsInv(STUCK_LOG, b1, 1, STUCK_STEPS[1]);
    LastAborts(b2);
    trace := [START, b1, b2, Take(b2, 1, STUCK_STEPS[2]).0];
    outcomes := [Completed(1, 2), Idle, Aborted];
  }
}
