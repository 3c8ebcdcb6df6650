/**
 What one Igra event, one reserve spend and one poll do to the bridge, said of the event or spend and the exits before it
 (services/bridge-service/src: igra-events.ts, reserve-spend-matcher.ts, reserve-spend-applier.ts, igra-poller.ts).

 Main results: `MatchIff` (when a spend gets each verdict), `EventMoves` with `EventThrowsIff`, `SpendMoves`, and over runs
 of polls and spends `ExitHistory` (what the log or a spend must have said for an exit to be as it is).
 */
module BridgeMoves {
  import opened Wrappers
  import opened Sorting
  import opened BridgeExits
  import opened BridgeReconciliation
  import opened IgraPoller
  import opened BridgeRuns

  // ---- Transaction ids ----

  /** `a` is the 32-byte id `b` with its `0x`. */
  predicate Prefixed(a: string, b: string) {
    Lower(a) == "0x" + Lower(b) && |b| == 64 && forall c :: c in Lower(b) ==> '0' <= c <= '9' || 'a' <= c <= 'f'
  }

  predicate SameTxid(a: string, b: string) {
    Lower(a) == Lower(b) || Prefixed(a, b) || Prefixed(b, a)
  }

  /** Normalising identifies two ids exactly when they differ in case or in the `0x` of a 32-byte id. */
  lemma SameTxidIff(a: string, b: string)
    ensures NormalizeTxid(a) == NormalizeTxid(b) <==> SameTxid(a, b)
  {
    BareForm(a);
    BareForm(b);
    if Prefixed(a, b) { BareOf(a, b); }
    if Prefixed(b, a) { BareOf(b, a); }
  }

  lemma BareForm(a: string)
    ensures NormalizeTxid(a) == Lower(a) || (Lower(a) == "0x" + NormalizeTxid(a) && |a| == 66 && forall c :: c in NormalizeTxid(a) ==> HexDigit(c))
  {
    var l := Lower(a);
    if NormalizeTxid(a) != l {
      assert l == l[..2] + l[2..];
    }
  }

  lemma BareOf(a: string, b: string)
    requires Prefixed(a, b)
    ensures NormalizeTxid(a) == NormalizeTxid(b) == Lower(b)
  {
    var l := Lower(a);
    assert l[..2] == "0x" && l[2..] == Lower(b);
    assert forall i :: 2 <= i < 66 ==> l[i] in Lower(b);
  }

  // ---- The verdict on a spend ----

  /** The spend says that it pays an exit, how much and to whom. */
  predicate Pays(sp: ReserveSpend) {
    sp.isExitRelease && sp.amountGrains.Some? && sp.recipient.Some? && sp.recipient.value != ""
  }

  /** The exit is still owed, or has been paid by a reserve spend. */
  predicate Payable(x: Exit) {
    x.status == Pending || x.status == Processed || x.status == Released
  }

  predicate RightAmount(x: Exit, sp: ReserveSpend) {
    sp.amountGrains == Some(x.amountGrains)
  }

  predicate RightRecipient(x: Exit, sp: ReserveSpend) {
    sp.recipient.Some? && Lower(sp.recipient.value) == Lower(x.recipient)
  }

  predicate Fits(x: Exit, sp: ReserveSpend) {
    Payable(x) && RightAmount(x, sp) && RightRecipient(x, sp)
  }

  predicate OneFits(exits: seq<Exit>, sp: ReserveSpend, i: nat)
    requires i < |exits|
  {
    Fits(exits[i], sp) && forall k :: 0 <= k < |exits| && k != i ==> !Fits(exits[k], sp)
  }

  /** The exit has the spend's own txid; or no exit has it, and this one is not paid and no txid was reported for it. */
  predicate TxidFree(exits: seq<Exit>, i: nat, txid: string)
    requires i < |exits|
  {
    var x := exits[i];
    || (x.releaseTxid.Some? && x.releaseTxid.value != "" && SameTxid(x.releaseTxid.value, txid))
    || (&& x.status != Released
        && !(x.status == Processed && x.releaseTxid.Some? && x.releaseTxid.value != "")
        && forall k :: 0 <= k < |exits| && exits[k].releaseTxid.Some? ==> !SameTxid(exits[k].releaseTxid.value, txid))
  }

  lemma NextFits(exits: seq<Exit>, sp: ReserveSpend, from: nat)
    requires Pays(sp) && from <= |exits|
    ensures var i := NextExact(exits, sp, from);
      && (i < |exits| ==> Fits(exits[i], sp))
      && forall k :: from <= k < i ==> !Fits(exits[k], sp)
  {
  }

  lemma ExactIff(exits: seq<Exit>, sp: ReserveSpend, i: nat)
    requires i < |exits|
    ensures MatchExact(exits[i], exits, NormalizeTxid(sp.spendTxid)) ==
      if TxidFree(exits, i, sp.spendTxid) then Matched(exits[i].exitId) else DuplicateReleaseTxid
  {
    hide NormalizeTxid, SameTxid;
    forall k | 0 <= k < |exits| && exits[k].releaseTxid.Some?
      ensures NormalizeTxid(exits[k].releaseTxid.value) == NormalizeTxid(sp.spendTxid) <==> SameTxid(exits[k].releaseTxid.value, sp.spendTxid)
    {
      SameTxidIff(exits[k].releaseTxid.value, sp.spendTxid);
    }
  }

  /** Nothing fits, but some payable exit has the amount, or else the recipient. */
  predicate SomeAmount(exits: seq<Exit>, sp: ReserveSpend) {
    exists k :: 0 <= k < |exits| && Payable(exits[k]) && RightAmount(exits[k], sp)
  }

  predicate SomeRecipient(exits: seq<Exit>, sp: ReserveSpend) {
    exists k :: 0 <= k < |exits| && Payable(exits[k]) && RightRecipient(exits[k], sp)
  }

  predicate NoneFits(exits: seq<Exit>, sp: ReserveSpend) {
    forall k :: 0 <= k < |exits| ==> !Fits(exits[k], sp)
  }

  predicate TwoFit(exits: seq<Exit>, sp: ReserveSpend) {
    exists i, k :: 0 <= i < k < |exits| && Fits(exits[i], sp) && Fits(exits[k], sp)
  }

  lemma OneOrTwo(exits: seq<Exit>, sp: ReserveSpend)
    requires Pays(sp)
    ensures var i := NextExact(exits, sp, 0);
      && (i == |exits| <==> NoneFits(exits, sp))
      && (i < |exits| && NextExact(exits, sp, i + 1) < |exits| <==> TwoFit(exits, sp))
      && (i < |exits| && NextExact(exits, sp, i + 1) == |exits| ==> OneFits(exits, sp, i))
      && (forall k :: 0 <= k < |exits| && OneFits(exits, sp, k) ==> k == i)
  {
    hide Fits;
    NextFits(exits, sp, 0);
    var i := NextExact(exits, sp, 0);
    if i < |exits| { NextFits(exits, sp, i + 1); }
  }

  /** Each verdict, and exactly when a spend gets it: a match needs the one payable exit of its amount and recipient, with
      the txid free for it. */
  lemma MatchIff(exits: seq<Exit>, sp: ReserveSpend)
    ensures var m := MatchSpend(sp, exits);
      && (forall id :: m == Matched(id) <==>
            Pays(sp) && exists i :: 0 <= i < |exits| && exits[i].exitId == id && OneFits(exits, sp, i) && TxidFree(exits, i, sp.spendTxid))
      && (m == DuplicateReleaseTxid <==>
            Pays(sp) && exists i :: 0 <= i < |exits| && OneFits(exits, sp, i) && !TxidFree(exits, i, sp.spendTxid))
      && (m == RecipientMismatch <==> Pays(sp) && NoneFits(exits, sp) && SomeAmount(exits, sp))
      && (m == AmountMismatch <==> Pays(sp) && NoneFits(exits, sp) && !SomeAmount(exits, sp) && SomeRecipient(exits, sp))
      && (m == UnknownSpend <==>
            !Pays(sp) || TwoFit(exits, sp) || (NoneFits(exits, sp) && !SomeAmount(exits, sp) && !SomeRecipient(exits, sp)))
  {
    hide NormalizeTxid, MatchExact, TxidFree;
    if Pays(sp) {
      OneOrTwo(exits, sp);
      hide OneFits, NoneFits, TwoFit;
      var i := NextExact(exits, sp, 0);
      if i < |exits| { ExactIff(exits, sp, i); }
    }
  }

  // ---- One event ----

  predicate Closed(s: ExitStatus) {
    s == Released || s == Refunded || s == Cancelled
  }

  /** The exit the event is about, after it: a closed exit keeps its status, and any keeps a txid it has. */
  function After(x: Exit, e: IgraEvent): Exit {
    match e
    case ExitRequested(_, logIndex, txHash, _, amount, recipient) =>
      x.(burnTxid := txHash, burnLogIndex := logIndex, amountGrains := amount, recipient := recipient,
         status := if x.status == Unknown then Pending else x.status)
    case ExitProcessed(_, _, _, _, txid) =>
      x.(status := if Closed(x.status) then x.status else Processed,
         releaseTxid := if x.releaseTxid.Some? then x.releaseTxid else Some(NormalizeTxid(txid)))
    case ExitRefunded(_, _, _, _) => x.(status := if Closed(x.status) then x.status else Refunded)
    case OtherEvent(_, _, _) => x
  }

  predicate About(x: Exit, e: IgraEvent) {
    !e.OtherEvent? && x.exitId == e.exitId
  }

  /** An event changes the exit it is about and no other; a request of an unknown exit appends it, pending. */
  lemma EventMoves(exits: seq<Exit>, e: IgraEvent)
    requires LedgerOk(exits) && ApplyEvent(exits, e).Ok?
    ensures var exits' := ApplyEvent(exits, e).value;
      && |exits| <= |exits'| <= |exits| + 1
      && (forall k :: 0 <= k < |exits| ==> exits'[k] == if About(exits[k], e) then After(exits[k], e) else exits[k])
      && (|exits'| > |exits| <==> e.ExitRequested? && forall k :: 0 <= k < |exits| ==> !About(exits[k], e))
      && (|exits'| > |exits| ==> exits'[|exits|] == Exit(e.exitId, e.txHash, e.logIndex, e.amountGrains, e.recipient, Pending, None, None))
  {
    hide NormalizeTxid, Conflicts, LedgerOk;
    if !e.OtherEvent? {
      var i := IndexOf(exits, e.exitId);
      forall k | 0 <= k < |exits| && k != i
        ensures exits[k].exitId != e.exitId
      {
        if i < |exits| { AreDistinct(exits, i, k); }
      }
    }
  }

  /** Another exit has the burn, or the release txid, that the event reports. */
  predicate Elsewhere(exits: seq<Exit>, e: IgraEvent) {
    exists k :: 0 <= k < |exits| && !About(exits[k], e) && (
      || (e.ExitRequested? && exits[k].burnTxid == e.txHash && exits[k].burnLogIndex == e.logIndex)
      || (e.ExitProcessed? && exits[k].releaseTxid.Some? && SameTxid(exits[k].releaseTxid.value, e.releaseTxid)))
  }

  lemma RequestThrowsIff(exits: seq<Exit>, e: IgraEvent)
    requires e.ExitRequested?
    ensures ApplyEvent(exits, e).Thrown? <==> e.exitId == "" || e.recipient == "" || Elsewhere(exits, e)
  {
    hide NormalizeTxid, SameTxid;
  }

  lemma ProcessedThrowsIff(exits: seq<Exit>, e: IgraEvent)
    requires LedgerOk(exits) && e.ExitProcessed?
    ensures ApplyEvent(exits, e).Thrown? <==>
      e.exitId == "" || ((exists k :: 0 <= k < |exits| && About(exits[k], e)) && (e.releaseTxid == "" || Elsewhere(exits, e)))
  {
    hide NormalizeTxid, SameTxid, LedgerOk, Conflicts;
    var i := IndexOf(exits, e.exitId);
    if i < |exits| && e.releaseTxid != "" {
      ProcessedConflicts(exits, i, e);
      forall k | 0 <= k < |exits| && exits[k].releaseTxid.Some?
        ensures HasTxidOf(exits[k], e) <==> exits[k].exitId != e.exitId && SameTxid(exits[k].releaseTxid.value, e.releaseTxid)
      {
        SameTxidIff(exits[k].releaseTxid.value, e.releaseTxid);
      }
      assert TakenElsewhere(exits, e) <==> Elsewhere(exits, e);
    }
  }

  lemma RefundThrowsIff(exits: seq<Exit>, e: IgraEvent)
    requires LedgerOk(exits) && e.ExitRefunded?
    ensures ApplyEvent(exits, e).Thrown? <==> e.exitId == ""
  {
    hide NormalizeTxid, LedgerOk;
    var i := IndexOf(exits, e.exitId);
    if i < |exits| {
      forall k | 0 <= k < |exits| && k != i
        ensures !BurnConflict(exits[k], exits[i].(status := Refunded)) && !ReleaseConflict(exits[k], exits[i].(status := Refunded))
      {
        AreDistinct(exits, i, k);
      }
    }
  }

  /** An event throws exactly when it lacks an id it needs or what it reports belongs to another exit. */
  lemma EventThrowsIff(exits: seq<Exit>, e: IgraEvent)
    requires LedgerOk(exits)
    ensures ApplyEvent(exits, e).Thrown? <==> match e
      case ExitRequested(_, _, _, id, _, recipient) => id == "" || recipient == "" || Elsewhere(exits, e)
      case ExitProcessed(_, _, _, id, txid) =>
        id == "" || ((exists k :: 0 <= k < |exits| && About(exits[k], e)) && (txid == "" || Elsewhere(exits, e)))
      case ExitRefunded(_, _, _, id) => id == ""
      case OtherEvent(_, _, _) => false
  {
    hide LedgerOk, Elsewhere, ApplyEvent;
    match e {
      case ExitRequested(_, _, _, _, _, _) => RequestThrowsIff(exits, e);
      case ExitProcessed(_, _, _, _, _) => ProcessedThrowsIff(exits, e);
      case ExitRefunded(_, _, _, _) => RefundThrowsIff(exits, e);
      case OtherEvent(_, _, _) => OtherApplies(exits, e);
    }
  }

  // ---- One spend ----

  /** A spend releases the one exit it may pay, with its txid and height unless the exit has them, and changes no other. */
  lemma SpendMoves(exits: seq<Exit>, sp: ReserveSpend)
    requires LedgerOk(exits)
    ensures ApplySpend(exits, sp).Ok?
    ensures var exits' := ApplySpend(exits, sp).value;
      && |exits'| == |exits|
      && forall k :: 0 <= k < |exits| ==>
           if Pays(sp) && OneFits(exits, sp, k) && TxidFree(exits, k, sp.spendTxid) then
             && exits'[k] == exits[k].(status := Released, releaseTxid := exits'[k].releaseTxid, releaseBlock := exits'[k].releaseBlock)
             && exits'[k].releaseTxid == (if exits[k].releaseTxid.Some? then exits[k].releaseTxid else Some(sp.spendTxid))
             && exits'[k].releaseBlock ==
                  (if exits[k].releaseBlock.Some? || (exits[k].status == Released && exits[k].releaseTxid == Some(sp.spendTxid))
                   then exits[k].releaseBlock else Some(sp.height))
           else exits'[k] == exits[k]
  {
    hide TxidFree, OneFits, MatchSpend, LedgerOk, Pays, NormalizeTxid, Conflicts, MatchExact;
    ApplySpendKeepsLedger(exits, sp);
    var i := MatchedOnly(exits, sp);
  }

  /** The exit a spend matches is the one it may pay. */
  lemma MatchedOnly(exits: seq<Exit>, sp: ReserveSpend) returns (i: nat)
    requires LedgerOk(exits)
    ensures MatchSpend(sp, exits).Matched? ==>
      i < |exits| && exits[i].exitId == MatchSpend(sp, exits).exitId && IndexOf(exits, exits[i].exitId) == i && Payable(exits[i])
      && !Conflicts(exits, ReleasedBy(exits[i], sp))
    ensures forall k :: 0 <= k < |exits| ==>
      (Pays(sp) && OneFits(exits, sp, k) && TxidFree(exits, k, sp.spendTxid) <==> MatchSpend(sp, exits).Matched? && k == i)
  {
    hide TxidFree, OneFits, MatchSpend, LedgerOk, Pays, NormalizeTxid, Conflicts, MatchExact;
    i := 0;
    MatchIff(exits, sp);
    if MatchSpend(sp, exits).Matched? {
      i := MatchedExit(exits, sp);
      ReleaseFits(exits, sp, i);
      var j :| 0 <= j < |exits| && exits[j].exitId == MatchSpend(sp, exits).exitId && OneFits(exits, sp, j) && TxidFree(exits, j, sp.spendTxid);
      if i != j { AreDistinct(exits, i, j); }
      forall k | 0 <= k < |exits| && k != i
        ensures !OneFits(exits, sp, k)
      {
        OnlyOne(exits, sp, i, k);
      }
    } else {
      forall k | 0 <= k < |exits|
        ensures !(Pays(sp) && OneFits(exits, sp, k) && TxidFree(exits, k, sp.spendTxid))
      {
        var matched := Matched(exits[k].exitId);
      }
    }
  }

  lemma OnlyOne(exits: seq<Exit>, sp: ReserveSpend, i: nat, k: nat)
    requires i < |exits| && k < |exits| && i != k && OneFits(exits, sp, i)
    ensures !OneFits(exits, sp, k)
  {
  }

  // ---- One poll ----

  /** A poll asks from the checkpoint, or the start block, to the last safe block, but for at most `maxRange` blocks; if it
      completes the checkpoint is the block after, and otherwise it stays. */
  lemma PollRange(b: Bridge, startBlock: nat, a: Attempt)
    requires a.maxRange > 0
    ensures var (b', outcome) := Poll(b, startBlock, a.latestSafe, a.maxRange, a.answer, a.crash);
      var from := if b.checkpoint.Some? then b.checkpoint.value else startBlock;
      && (outcome == Idle <==> a.latestSafe < from)
      && (outcome.Completed? ==>
            && outcome.fromBlock == from && outcome.toBlock <= a.latestSafe && outcome.toBlock < from + a.maxRange
            && (outcome.toBlock == a.latestSafe || outcome.toBlock == from + a.maxRange - 1)
            && b'.checkpoint == Some(outcome.toBlock + 1))
      && (!outcome.Completed? ==> b'.checkpoint == b.checkpoint)
  {
    hide Process, Sort;
    ProcessKeepsCheckpoint(b, Sort(a.answer, LogKey), 0, a.crash);
  }

  /** Logs are in order by block and, within one, by log index. */
  predicate InOrder(logs: seq<IgraEvent>) {
    forall i, j :: 0 <= i < j < |logs| ==>
      logs[i].block < logs[j].block || (logs[i].block == logs[j].block && logs[i].logIndex < logs[j].logIndex)
  }

  /** Whatever order the node answers in, the poll applies the logs in the order of the chain. */
  lemma AppliesInOrder(answer: seq<IgraEvent>, logs: seq<IgraEvent>)
    requires InOrder(logs) && multiset(answer) == multiset(logs)
    ensures Sort(answer, LogKey) == logs
  {
    assert forall i, j :: 0 <= i < j < |logs| ==> Less(LogKey(logs[i]), LogKey(logs[j]));
    SortOfStrict(answer, logs, LogKey);
  }

  /** Every stored event is under its own transaction hash, whatever its case, and log index. */
  predicate StoredById(events: map<(string, nat), IgraEvent>) {
    forall k :: k in events ==> k == (Lower(events[k].txHash), events[k].logIndex)
  }

  predicate SameLog(e: IgraEvent, f: IgraEvent) {
    Lower(e.txHash) == Lower(f.txHash) && e.logIndex == f.logIndex
  }

  /** Saving stores an event unless one of its transaction hash and log index is stored, and changes no stored one. */
  lemma SavesOnce(events: map<(string, nat), IgraEvent>, e: IgraEvent)
    requires StoredById(events)
    ensures var events' := SaveEvent(events, e);
      && StoredById(events')
      && (forall k :: k in events ==> k in events' && events'[k] == events[k])
      && (forall k :: k in events' && k !in events ==> events'[k] == e && forall j :: j in events ==> !SameLog(events[j], e))
      && (exists k :: k in events' && SameLog(events'[k], e))
  {
    assert EventId(e) in SaveEvent(events, e);
  }

  lemma {:induction false} ProcessKeepsCheckpoint(b: Bridge, logs: seq<IgraEvent>, n: nat, crash: Crash)
    requires n <= |logs|
    ensures Process(b, logs, n, crash).0.checkpoint == b.checkpoint
    decreases |logs| - n
  {
    hide ApplyEvent, SaveEvent;
    if n < |logs| && ApplyEvent(b.exits, logs[n]).Ok? {
      ProcessKeepsCheckpoint(Bridge(SaveEvent(b.events, logs[n]), ApplyEvent(b.exits, logs[n]).value, b.checkpoint), logs, n + 1, crash);
    }
  }

  // ---- Runs ----

  /** The spend pays an exit of the amount and recipient. */
  predicate PaysFor(sp: ReserveSpend, x: Exit) {
    Pays(sp) && RightAmount(x, sp) && RightRecipient(x, sp)
  }

  /** A log up to here, or a spend before here, says what the exit has. */
  ghost predicate LogSays(logs: seq<IgraEvent>, x: Exit) {
    && (x.status == Processed ==> exists l :: 0 <= l < |logs| && logs[l].ExitProcessed? && logs[l].exitId == x.exitId)
    && (x.status == Refunded ==> exists l :: 0 <= l < |logs| && logs[l].ExitRefunded? && logs[l].exitId == x.exitId)
    && (x.status != Cancelled && x.status != Unknown)
  }

  predicate Reported(logs: seq<IgraEvent>, x: Exit) {
    exists l :: 0 <= l < |logs| && logs[l].ExitProcessed? && logs[l].exitId == x.exitId
      && x.releaseTxid == Some(NormalizeTxid(logs[l].releaseTxid))
  }

  /** At one of the first `n` steps a spend was applied that pays for the exit; with its txid, if `own`. */
  ghost predicate PaidAt(steps: seq<Step>, n: nat, x: Exit, own: bool)
    requires n <= |steps|
  {
    exists m, k :: 0 <= m < n && steps[m].Applied? && 0 <= k < |steps[m].spends|
      && PaysFor(steps[m].spends[k], x) && (own ==> x.releaseTxid == Some(steps[m].spends[k].spendTxid))
  }

  ghost predicate History(logs: seq<IgraEvent>, steps: seq<Step>, n: nat, x: Exit)
    requires n <= |steps|
  {
    && LogSays(logs, x)
    && (x.status == Released ==> PaidAt(steps, n, x, false))
    && (x.releaseTxid.Some? ==> Reported(logs, x) || PaidAt(steps, n, x, true))
  }

  ghost predicate Histories(logs: seq<IgraEvent>, steps: seq<Step>, n: nat, exits: seq<Exit>)
    requires n <= |steps|
  {
    forall i :: 0 <= i < |exits| ==> History(logs, steps, n, exits[i])
  }

  /** The exit keeps its id, amount and recipient. */
  predicate SameAsked(x: Exit, x': Exit) {
    x'.exitId == x.exitId && x'.amountGrains == x.amountGrains && x'.recipient == x.recipient
  }

  lemma PaidStays(steps: seq<Step>, n: nat, n': nat, x: Exit, x': Exit, own: bool)
    requires n <= n' <= |steps| && PaidAt(steps, n, x, own) && SameAsked(x, x') && (own ==> x'.releaseTxid == x.releaseTxid)
    ensures PaidAt(steps, n', x', own)
  {
    var m, k :| 0 <= m < n && steps[m].Applied? && 0 <= k < |steps[m].spends|
      && PaysFor(steps[m].spends[k], x) && (own ==> x.releaseTxid == Some(steps[m].spends[k].spendTxid));
    assert PaysFor(steps[m].spends[k], x');
  }

  lemma HistoryStays(logs: seq<IgraEvent>, steps: seq<Step>, n: nat, n': nat, x: Exit)
    requires n <= n' <= |steps| && History(logs, steps, n, x)
    ensures History(logs, steps, n', x)
  {
    hide PaidAt, LogSays, Reported;
    if x.status == Released { PaidStays(steps, n, n', x, x, false); }
    if PaidAt(steps, n, x, true) { PaidStays(steps, n, n', x, x, true); }
  }

  lemma SameMaker(x: Exit, x': Exit, logs: seq<IgraEvent>)
    requires Proper(logs) && Made(x, logs) && Made(x', logs) && x'.exitId == x.exitId
    ensures SameAsked(x, x')
  {
    hide Proper;
    var l :| 0 <= l < |logs| && MadeBy(x, logs[l]);
    var l' :| 0 <= l' < |logs| && MadeBy(x', logs[l']);
    OneRequest(logs, l, l');
  }

  lemma LogKeepsHistory(logs: seq<IgraEvent>, steps: seq<Step>, n: nat, x: Exit, x': Exit, j: nat)
    requires j < |logs| && n <= |steps| && History(logs, steps, n, x) && SameAsked(x, x')
    requires x' == if About(x, logs[j]) then After(x, logs[j]) else x
    ensures History(logs, steps, n, x')
  {
    hide PaidAt, NormalizeTxid;
    if x.status == Released { PaidStays(steps, n, n, x, x', false); }
    if PaidAt(steps, n, x, true) && x'.releaseTxid == x.releaseTxid { PaidStays(steps, n, n, x, x', true); }
    if About(x, logs[j]) && x'.releaseTxid != x.releaseTxid {
      assert Reported(logs, x');
    }
  }

  lemma StemsIs(exits: seq<Exit>, logs: seq<IgraEvent>, c: nat)
    requires c <= |logs| && Stems(exits, logs, c)
    ensures LedgerOk(exits) && forall i :: 0 <= i < |exits| ==> Made(exits[i], logs)
  {
  }

  lemma EventKeepsHistories(logs: seq<IgraEvent>, steps: seq<Step>, n: nat, exits: seq<Exit>, j: nat, c: nat)
    requires Proper(logs) && j < |logs| && c <= |logs| && n <= |steps| && Stems(exits, logs, c) && Histories(logs, steps, n, exits)
    requires ApplyEvent(exits, logs[j]).Ok?
    ensures Histories(logs, steps, n, ApplyEvent(exits, logs[j]).value)
  {
    hide Proper, Stems, ApplyEvent, LedgerOk, History, Made, NormalizeTxid, About;
    var exits' := ApplyEvent(exits, logs[j]).value;
    StemsIs(exits, logs, c);
    LogKeepsStems(exits, logs, j, c);
    StemsIs(exits', logs, c);
    EventMoves(exits, logs[j]);
    forall i | 0 <= i < |exits'|
      ensures History(logs, steps, n, exits'[i])
    {
      if i < |exits| {
        AfterId(exits[i], logs[j]);
        SameMaker(exits[i], exits'[i], logs);
        LogKeepsHistory(logs, steps, n, exits[i], exits'[i], j);
      } else {
        NewHistory(logs, steps, n, exits'[i]);
      }
    }
  }

  lemma AfterId(x: Exit, e: IgraEvent)
    ensures After(x, e).exitId == x.exitId
  {
  }

  lemma NewHistory(logs: seq<IgraEvent>, steps: seq<Step>, n: nat, x: Exit)
    requires n <= |steps| && x.status == Pending && x.releaseTxid.None?
    ensures History(logs, steps, n, x)
  {
  }

  lemma {:induction false} ProcessKeepsHistories(
    b: Bridge, logs: seq<IgraEvent>, lo: nat, hi: nat, k: nat, c: nat, crash: Crash, steps: seq<Step>, n: nat)
    requires Orderly(logs) && lo <= hi <= |logs| && k <= hi - lo && lo + k <= c <= |logs| && n <= |steps|
    requires Stems(b.exits, logs, c) && Histories(logs, steps, n, b.exits)
    ensures Histories(logs, steps, n, Process(b, logs[lo..hi], k, crash).0.exits)
    decreases hi - lo - k
  {
    hide Proper, RequestsFirst, Stems, ApplyEvent, SaveEvent, Histories;
    var j := lo + k;
    if crash != CrashAt(k, false) && crash != CrashAt(k, true) && k < hi - lo {
      assert logs[lo..hi][k] == logs[j];
      if ApplyEvent(b.exits, logs[j]).Ok? {
        LogKeepsStems(b.exits, logs, j, c);
        EventKeepsHistories(logs, steps, n, b.exits, j, c);
        var b1 := Bridge(SaveEvent(b.events, logs[j]), ApplyEvent(b.exits, logs[j]).value, b.checkpoint);
        ProcessKeepsHistories(b1, logs, lo, hi, k + 1, if c == j then c + 1 else c, crash, steps, n);
      }
    }
  }

  lemma PollKeepsHistories(logs: seq<IgraEvent>, b: Bridge, startBlock: nat, a: Attempt, steps: seq<Step>, n: nat)
    requires Orderly(logs) && MixedInv(b, logs, startBlock) && HonestAnswer(logs, b, startBlock, a) && n <= |steps|
    requires Histories(logs, steps, n, b.exits)
    ensures a.maxRange > 0
    ensures Histories(logs, steps, n, Poll(b, startBlock, a.latestSafe, a.maxRange, a.answer, a.crash).0.exits)
  {
    hide Proper, RequestsFirst, Stems, Process, Sort, StrictlySorted, CountBelow, Histories;
    if NextBlock(b, startBlock) <= a.latestSafe {
      var lo, hi := RangeStart(logs, b, startBlock), RangeEnd(logs, b, startBlock, a);
      StretchSorted(logs, lo, hi);
      SortOfStrict(a.answer, logs[lo..hi], LogKey);
      ProcessKeepsHistories(b, logs, lo, hi, 0, lo, a.crash, steps, n);
    }
  }

  lemma SpendKeepsHistory(logs: seq<IgraEvent>, steps: seq<Step>, n: nat, k: nat, x: Exit, x': Exit, moved: bool)
    requires n < |steps| && steps[n].Applied? && k < |steps[n].spends| && History(logs, steps, n + 1, x)
    requires moved ==> (
        && PaysFor(steps[n].spends[k], x)
        && x' == x.(status := Released, releaseTxid := x'.releaseTxid, releaseBlock := x'.releaseBlock)
        && x'.releaseTxid == (if x.releaseTxid.Some? then x.releaseTxid else Some(steps[n].spends[k].spendTxid)))
    requires !moved ==> x' == x
    ensures History(logs, steps, n + 1, x')
  {
    if moved {
      var sp := steps[n].spends[k];
      assert PaysFor(sp, x');
      assert PaidAt(steps, n + 1, x', false);
      if x.releaseTxid.None? {
        assert PaidAt(steps, n + 1, x', true);
      } else if PaidAt(steps, n + 1, x, true) {
        hide PaidAt;
        PaidStays(steps, n + 1, n + 1, x, x', true);
      }
    }
  }

  lemma {:induction false} SpendsKeepHistories(logs: seq<IgraEvent>, steps: seq<Step>, n: nat, exits: seq<Exit>, k: nat)
    requires n < |steps| && steps[n].Applied? && k <= |steps[n].spends| && LedgerOk(exits) && Histories(logs, steps, n + 1, exits)
    ensures ApplySpends(exits, steps[n].spends[..k]).Ok? && LedgerOk(ApplySpends(exits, steps[n].spends[..k]).value)
    ensures Histories(logs, steps, n + 1, ApplySpends(exits, steps[n].spends[..k]).value)
  {
    hide LedgerOk, ApplySpend, History, OneFits, TxidFree;
    ApplierNeverThrows(exits, steps[n].spends[..k]);
    if k > 0 {
      var spends := steps[n].spends;
      SpendsKeepHistories(logs, steps, n, exits, k - 1);
      assert spends[..k][..k - 1] == spends[..k - 1];
      var before := ApplySpends(exits, spends[..k - 1]).value;
      SpendMoves(before, spends[k - 1]);
      var after := ApplySpend(before, spends[k - 1]).value;
      forall i | 0 <= i < |after|
        ensures History(logs, steps, n + 1, after[i])
      {
        var moved := Pays(spends[k - 1]) && OneFits(before, spends[k - 1], i) && TxidFree(before, i, spends[k - 1].spendTxid);
        if moved { FitsPays(before, spends[k - 1], i); }
        SpendKeepsHistory(logs, steps, n, k - 1, before[i], after[i], moved);
      }
    }
  }

  lemma FitsPays(exits: seq<Exit>, sp: ReserveSpend, i: nat)
    requires i < |exits| && Pays(sp) && OneFits(exits, sp, i)
    ensures PaysFor(sp, exits[i])
  {
  }

  lemma StepKeepsHistories(logs: seq<IgraEvent>, b: Bridge, startBlock: nat, steps: seq<Step>, n: nat)
    requires n < |steps| && Orderly(logs) && MixedInv(b, logs, startBlock) && HonestStep(logs, b, startBlock, steps[n])
    requires Histories(logs, steps, n, b.exits)
    ensures steps[n].Polled? ==> steps[n].attempt.maxRange > 0
    ensures Histories(logs, steps, n + 1, Take(b, startBlock, steps[n]).0.exits)
  {
    hide Orderly, Stems, Poll, CountBelow, HonestAnswer, History, LedgerOk, ApplySpends;
    forall i | 0 <= i < |b.exits|
      ensures History(logs, steps, n + 1, b.exits[i])
    {
      HistoryStays(logs, steps, n, n + 1, b.exits[i]);
    }
    match steps[n] {
      case Polled(a) => PollKeepsHistories(logs, b, startBlock, a, steps, n + 1);
      case Applied(spends) =>
        StemsIs(b.exits, logs, RangeStart(logs, b, startBlock));
        SpendsKeepHistories(logs, steps, n, b.exits, |spends|);
        assert spends[..|spends|] == spends;
    }
  }

  /**
   In every run of polls and spends each exit has the burn, amount and recipient of its request in the log.  It is
   released only if a spend was applied that pays that amount to that recipient, processed or refunded only if the log
   says so, and its txid is one that the log reports for it or that of such a spend.
   */
  lemma {:induction false} ExitHistory(logs: seq<IgraEvent>, startBlock: nat, trace: seq<Bridge>, steps: seq<Step>, outcomes: seq<Outcome>, n: nat)
    requires RunFromEmpty(logs, startBlock, trace, steps, outcomes) && n <= |steps|
    ensures n < |trace|
    ensures forall i :: 0 <= i < |trace[n].exits| ==> Made(trace[n].exits[i], logs) && History(logs, steps, n, trace[n].exits[i])
  {
    hide Orderly, MixedInv, Take, HonestStep, CountBelow, MixedRun, History, Made;
    RunSize(logs, startBlock, trace, steps, outcomes);
    RunKeepsMixedInv(logs, startBlock, trace, steps, outcomes, n);
    MixedIs(trace[n], logs, startBlock);
    if n > 0 {
      ExitHistory(logs, startBlock, trace, steps, outcomes, n - 1);
      StepIs(logs, startBlock, trace, steps, outcomes, n - 1);
      RunKeepsMixedInv(logs, startBlock, trace, steps, outcomes, n - 1);
      StepKeepsHistories(logs, trace[n - 1], startBlock, steps, n - 1);
    }
  }

  lemma MixedIs(b: Bridge, logs: seq<IgraEvent>, startBlock: nat)
    requires MixedInv(b, logs, startBlock)
    ensures forall i :: 0 <= i < |b.exits| ==> Made(b.exits[i], logs)
  {
    hide Made, LedgerOk;
  }
}
