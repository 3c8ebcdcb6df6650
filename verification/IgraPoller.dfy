/**
 The checkpointed poller of the bridge: services/bridge-service/src/igra-poller.ts over the ledger of
 `BridgeExits`.  A poll may crash after any log, and its range may change between tries.

 Main results: `RunEqualsFold`, and `RequestsFirstIff`, which says that its condition on the log is exactly that
 replaying any log changes nothing.
 */
module IgraPoller {
  import opened Wrappers
  import opened Sorting
  import opened BridgeExits

  // ---- The log ----

  function LogKey(e: IgraEvent): Key {
    Key(e.block, e.logIndex, 0)
  }

  function EventId(e: IgraEvent): (string, nat) {
    (Lower(e.txHash), e.logIndex)
  }

  /** The number of logs in blocks below `block`. */
  function CountBelow(logs: seq<IgraEvent>, block: nat): (n: nat)
    ensures n <= |logs|
    ensures forall k :: 0 <= k < n ==> logs[k].block < block
    ensures n < |logs| ==> logs[n].block >= block
  {
    if logs == [] || logs[0].block >= block then 0 else 1 + CountBelow(logs[1..], block)
  }

  function Lifecycle(e: IgraEvent): Option<string> {
    match e
    case ExitProcessed(_, _, _, id, _) => Some(id)
    case ExitRefunded(_, _, _, id) => Some(id)
    case _ => None
  }

  predicate WellFormedLog(e: IgraEvent) {
    match e
    case ExitRequested(_, _, _, id, _, recipient) => id != "" && recipient != ""
    case ExitProcessed(_, _, _, id, txid) => id != "" && txid != ""
    case ExitRefunded(_, _, _, id) => id != ""
    case OtherEvent(_, _, _) => true
  }

  /** Each exit is requested once, by its own burn; release txids are not shared. */
  predicate ProperPair(e: IgraEvent, f: IgraEvent) {
    && (e.ExitRequested? && f.ExitRequested? ==>
          e.exitId != f.exitId && (e.txHash != f.txHash || e.logIndex != f.logIndex))
    && (e.ExitProcessed? && f.ExitProcessed? && e.exitId != f.exitId ==>
          NormalizeTxid(e.releaseTxid) != NormalizeTxid(f.releaseTxid))
  }

  predicate Proper(logs: seq<IgraEvent>) {
    && StrictlySorted(logs, LogKey)
    && (forall k :: 0 <= k < |logs| ==> WellFormedLog(logs[k]))
    && (forall i, j :: 0 <= i < j < |logs| ==> ProperPair(logs[i], logs[j]))
  }

  /** No exit's lifecycle event comes before its request. */
  predicate RequestsFirst(logs: seq<IgraEvent>) {
    forall i, j :: 0 <= i < j < |logs| && logs[j].ExitRequested? ==> Lifecycle(logs[i]) != Some(logs[j].exitId)
  }

  predicate Orderly(logs: seq<IgraEvent>) {
    Proper(logs) && RequestsFirst(logs)
  }

  // ---- What a prefix of the log makes of the ledger ----

  /** One in-order pass over the logs. */
  function Fold(logs: seq<IgraEvent>): seq<Exit> {
    if logs == [] then [] else LedgerStep(Fold(logs[..|logs| - 1]), Igra(logs[|logs| - 1]))
  }

  /** The exit is the one its request created, moved on by its lifecycle events only. */
  predicate CameFrom(x: Exit, e: IgraEvent) {
    && e.ExitRequested?
    && x == RequestedExit(e).(status := x.status, releaseTxid := x.releaseTxid)
    && (x.status == Pending || x.status == Processed || x.status == Refunded)
  }

  predicate TookTxid(x: Exit, e: IgraEvent) {
    e.ExitProcessed? && e.exitId == x.exitId && x.releaseTxid == Some(NormalizeTxid(e.releaseTxid))
  }

  predicate RefundedBy(x: Exit, e: IgraEvent) {
    e.ExitRefunded? && e.exitId == x.exitId
  }

  /** The event has left its mark on the exit. */
  predicate Marked(x: Exit, e: IgraEvent) {
    Lifecycle(e) == Some(x.exitId) ==>
      && (e.ExitProcessed? ==> x.status != Pending && x.releaseTxid.Some?)
      && (e.ExitRefunded? ==> x.status == Refunded)
  }

  predicate Has(exits: seq<Exit>, exitId: string) {
    IndexOf(exits, exitId) < |exits|
  }

  /** The exit is what its request, at `l`, and the lifecycle events after it, before `m`, make of it. */
  ghost predicate Traced(x: Exit, logs: seq<IgraEvent>, l: nat, m: nat)
    requires m <= |logs|
  {
    && l < m && CameFrom(x, logs[l])
    && (forall k :: l < k < m ==> Marked(x, logs[k]))
    && (x.releaseTxid.Some? ==> exists k :: l < k < m && TookTxid(x, logs[k]))
    && (x.status == Refunded ==> exists k :: l < k < m && RefundedBy(x, logs[k]))
  }

  ghost predicate HasOrigin(x: Exit, logs: seq<IgraEvent>, m: nat)
    requires m <= |logs|
  {
    exists l: nat :: Traced(x, logs, l, m)
  }

  ghost predicate Reflects(exits: seq<Exit>, logs: seq<IgraEvent>, m: nat)
    requires m <= |logs|
  {
    && LedgerOk(exits)
    && (forall i :: 0 <= i < |exits| ==> HasOrigin(exits[i], logs, m))
    && (forall k :: 0 <= k < m && logs[k].ExitRequested? ==> Has(exits, logs[k].exitId))
  }

  lemma NormalizeIdempotent(txid: string)
    ensures NormalizeTxid(NormalizeTxid(txid)) == NormalizeTxid(txid)
  {
    var l := Lower(txid);
    assert forall i :: 0 <= i < |l| ==> LowerChar(l[i]) == l[i];
    assert Lower(l) == l;
    if |l| == 66 { assert Lower(l[2..]) == l[2..]; }
  }

  lemma ProperAt(logs: seq<IgraEvent>, i: nat, j: nat)
    requires Proper(logs) && i < |logs| && j < |logs| && i != j
    ensures ProperPair(logs[if i < j then i else j], logs[if i < j then j else i])
    ensures WellFormedLog(logs[i])
  {
    hide WellFormedLog, ProperPair;
  }

  lemma OriginOf(exits: seq<Exit>, logs: seq<IgraEvent>, m: nat, i: nat) returns (l: nat)
    requires m <= |logs| && Reflects(exits, logs, m) && i < |exits|
    ensures Traced(exits[i], logs, l, m)
  {
    hide Traced, LedgerOk;
    assert HasOrigin(exits[i], logs, m);
    l :| Traced(exits[i], logs, l, m);
  }

  lemma TxidOf(exits: seq<Exit>, logs: seq<IgraEvent>, m: nat, i: nat) returns (k: nat)
    requires m <= |logs| && Reflects(exits, logs, m) && i < |exits| && exits[i].releaseTxid.Some?
    ensures k < m && TookTxid(exits[i], logs[k])
  {
    hide TookTxid, CameFrom, Marked, Reflects;
    var l := OriginOf(exits, logs, m, i);
    k :| l < k < m && TookTxid(exits[i], logs[k]);
  }

  /** The exit an event names: its write conflicts with no other exit. */
  lemma LifecycleFits(exits: seq<Exit>, logs: seq<IgraEvent>, m: nat, k: nat, i: nat, next: Exit)
    requires Proper(logs) && m <= |logs| && k < |logs| && Reflects(exits, logs, m) && i < |exits|
    requires Lifecycle(logs[k]) == Some(exits[i].exitId)
    requires next.exitId == exits[i].exitId && next.burnTxid == exits[i].burnTxid && next.burnLogIndex == exits[i].burnLogIndex
    requires next.releaseTxid == exits[i].releaseTxid
      || (logs[k].ExitProcessed? && next.releaseTxid == Some(NormalizeTxid(logs[k].releaseTxid)))
    ensures !Conflicts(exits, next)
  {
    hide NormalizeTxid, Reflects, Proper;
    forall j | 0 <= j < |exits|
      ensures !BurnConflict(exits[j], next) && !ReleaseConflict(exits[j], next)
    {
      if j != i {
        ReflectedLedger(exits, logs, m);
        AreDistinct(exits, i, j);
        if exits[j].releaseTxid.Some? && next.releaseTxid != exits[i].releaseTxid {
          var l := TxidOf(exits, logs, m, j);
          ProperAt(logs, l, k);
          NormalizeIdempotent(logs[l].releaseTxid);
          NormalizeIdempotent(logs[k].releaseTxid);
        }
      }
    }
  }

  lemma ReflectedLedger(exits: seq<Exit>, logs: seq<IgraEvent>, m: nat)
    requires m <= |logs| && Reflects(exits, logs, m)
    ensures LedgerOk(exits)
    ensures forall k :: 0 <= k < m && logs[k].ExitRequested? ==> Has(exits, logs[k].exitId)
  {
    hide LedgerOk, Traced;
  }

  function LifecycleWrite(x: Exit, e: IgraEvent): Exit
    requires Lifecycle(e).Some?
  {
    if e.ExitProcessed? then
      x.(status := Processed, releaseTxid := Some(NormalizeTxid(e.releaseTxid)), releaseBlock := None)
    else x.(status := Refunded)
  }

  lemma ApplyLifecycle(exits: seq<Exit>, logs: seq<IgraEvent>, m: nat, k: nat)
    requires Proper(logs) && m <= |logs| && k < |logs| && Reflects(exits, logs, m) && Lifecycle(logs[k]).Some?
    ensures var i := IndexOf(exits, Lifecycle(logs[k]).value);
      ApplyEvent(exits, logs[k]) ==
        if i < |exits| then Ok(exits[i := MergeExit(exits[i], LifecycleWrite(exits[i], logs[k]))]) else Ok(exits)
  {
    assert WellFormedLog(logs[k]);
    var i := IndexOf(exits, Lifecycle(logs[k]).value);
    if i < |exits| {
      hide Reflects, Proper, Conflicts, NormalizeTxid;
      LifecycleFits(exits, logs, m, k, i, LifecycleWrite(exits[i], logs[k]));
    }
  }

  lemma OneRequest(logs: seq<IgraEvent>, l: nat, k: nat)
    requires Proper(logs) && l < |logs| && k < |logs| && logs[l].ExitRequested? && logs[k].ExitRequested?
    requires logs[l].exitId == logs[k].exitId
    ensures l == k
  {
    hide Proper;
    if l != k { ProperAt(logs, l, k); }
  }

  // ---- Replaying a log ----

  predicate SameLifecycle(e: IgraEvent, f: IgraEvent) {
    Lifecycle(e).Some? && Lifecycle(e) == Lifecycle(f) && (e.ExitProcessed? <==> f.ExitProcessed?)
  }

  predicate RequestOf(e: IgraEvent, f: IgraEvent) {
    e.ExitRequested? && Lifecycle(f) == Some(e.exitId)
  }

  /** The log is no lifecycle event that came before its exit's request, unless one of its kind followed the request. */
  ghost predicate Settled(logs: seq<IgraEvent>, m: nat, k: nat)
    requires k < m <= |logs|
  {
    forall l :: k < l < m && RequestOf(logs[l], logs[k]) ==> exists h :: l < h < m && SameLifecycle(logs[h], logs[k])
  }

  /** A request is absorbed by the exit it made. */
  lemma RequestAbsorbed(exits: seq<Exit>, logs: seq<IgraEvent>, m: nat, k: nat)
    requires Proper(logs) && m <= |logs| && k < m && Reflects(exits, logs, m) && logs[k].ExitRequested?
    ensures ApplyEvent(exits, logs[k]) == Ok(exits)
  {
    hide Reflects, Proper, Marked, NormalizeTxid;
    var e := logs[k];
    ReflectedLedger(exits, logs, m);
    assert WellFormedLog(e) by { WellFormedAt(logs, k); }
    assert Has(exits, e.exitId);
    var i := IndexOf(exits, e.exitId);
    var l := OriginOf(exits, logs, m, i);
    OneRequest(logs, l, k);
    forall j | 0 <= j < |exits|
      ensures !BurnConflict(exits[j], RequestedExit(e))
    {
      if j != i { AreDistinct(exits, i, j); }
    }
    assert exits[i := MergeExit(exits[i], RequestedExit(e))] == exits;
  }

  lemma WellFormedAt(logs: seq<IgraEvent>, k: nat)
    requires Proper(logs) && k < |logs|
    ensures WellFormedLog(logs[k])
  {
  }

  /** What a lifecycle event does to an exit again: nothing, if it left its mark, and something if no event of its kind did. */
  lemma MergedAgain(x: Exit, logs: seq<IgraEvent>, l: nat, m: nat, e: IgraEvent)
    requires m <= |logs| && Traced(x, logs, l, m) && Lifecycle(e) == Some(x.exitId)
    ensures MergeExit(x, LifecycleWrite(x, e)) == x <==> exists h :: l < h < m && SameLifecycle(logs[h], e)
  {
    hide NormalizeTxid;
    if exists h :: l < h < m && SameLifecycle(logs[h], e) {
      var h :| l < h < m && SameLifecycle(logs[h], e);
      assert Marked(x, logs[h]);
    }
    if MergeExit(x, LifecycleWrite(x, e)) == x {
      if e.ExitProcessed? {
        var h :| l < h < m && TookTxid(x, logs[h]);
        assert SameLifecycle(logs[h], e);
      } else {
        var h :| l < h < m && RefundedBy(x, logs[h]);
        assert SameLifecycle(logs[h], e);
      }
    }
  }

  /** Over a proper log, applying a log of the prefix again changes nothing exactly when it is settled. */
  lemma AbsorbedIff(exits: seq<Exit>, logs: seq<IgraEvent>, m: nat, k: nat)
    requires Proper(logs) && m <= |logs| && k < m && Reflects(exits, logs, m)
    ensures ApplyEvent(exits, logs[k]) == Ok(exits) <==> Settled(logs, m, k)
  {
    hide Reflects, Proper, Traced, MergeExit, SameLifecycle, LedgerOk;
    var e := logs[k];
    if e.ExitRequested? {
      RequestAbsorbed(exits, logs, m, k);
    } else if Lifecycle(e).Some? {
      ApplyLifecycle(exits, logs, m, k);
      ReflectedLedger(exits, logs, m);
      var i := IndexOf(exits, Lifecycle(e).value);
      if i < |exits| {
        var l := OriginOf(exits, logs, m, i);
        TracedRequest(exits[i], logs, l, m, e);
        MergedAgain(exits[i], logs, l, m, e);
        Writes(exits, i, MergeExit(exits[i], LifecycleWrite(exits[i], e)));
        OnlyRequest(logs, m, k, l);
        SettledOn(logs, m, k, l);
      }
    }
  }

  lemma Writes(exits: seq<Exit>, i: nat, x: Exit)
    requires i < |exits|
    ensures exits[i := x] == exits <==> x == exits[i]
  {
    if exits[i := x] == exits {
      assert exits[i := x][i] == x;
    }
  }

  lemma TracedRequest(x: Exit, logs: seq<IgraEvent>, l: nat, m: nat, e: IgraEvent)
    requires m <= |logs| && Traced(x, logs, l, m) && Lifecycle(e) == Some(x.exitId)
    ensures l < m && RequestOf(logs[l], e)
  {
  }

  lemma OnlyRequest(logs: seq<IgraEvent>, m: nat, k: nat, l: nat)
    requires Proper(logs) && k < m <= |logs| && l < m && RequestOf(logs[l], logs[k])
    ensures forall j :: 0 <= j < m && RequestOf(logs[j], logs[k]) ==> j == l
  {
    hide Proper;
    forall j | 0 <= j < m && RequestOf(logs[j], logs[k])
      ensures j == l
    {
      OneRequest(logs, j, l);
    }
  }

  lemma SettledOn(logs: seq<IgraEvent>, m: nat, k: nat, l: nat)
    requires k < m <= |logs| && l < m && RequestOf(logs[l], logs[k])
    requires forall j :: 0 <= j < m && RequestOf(logs[j], logs[k]) ==> j == l
    ensures Settled(logs, m, k) <==> exists h :: l < h < m && SameLifecycle(logs[h], logs[k])
  {
    if k > l {
      assert SameLifecycle(logs[k], logs[k]);
    }
  }

  /** Applying a log of an orderly log's prefix again changes nothing. */
  lemma Absorbs(exits: seq<Exit>, logs: seq<IgraEvent>, m: nat, k: nat)
    requires Orderly(logs) && m <= |logs| && k < m && Reflects(exits, logs, m)
    ensures ApplyEvent(exits, logs[k]) == Ok(exits)
  {
    hide Reflects, Proper, ApplyEvent;
    AbsorbedIff(exits, logs, m, k);
  }

  // ---- The next log ----

  lemma StillTraced(x: Exit, logs: seq<IgraEvent>, l: nat, m: nat)
    requires m < |logs| && Traced(x, logs, l, m) && Lifecycle(logs[m]) != Some(x.exitId)
    ensures Traced(x, logs, l, m + 1)
  {
    hide CameFrom, TookTxid, RefundedBy;
  }

  lemma AllTraced(exits: seq<Exit>, logs: seq<IgraEvent>, m: nat, exits': seq<Exit>)
    requires m <= |logs| && LedgerOk(exits')
    requires forall i :: 0 <= i < |exits'| ==> HasOrigin(exits'[i], logs, m)
    requires forall k :: 0 <= k < m && logs[k].ExitRequested? ==> Has(exits', logs[k].exitId)
    ensures Reflects(exits', logs, m)
  {
    hide Traced, LedgerOk, Has;
  }

  lemma HasIndex(exits: seq<Exit>, exitId: string, i: nat)
    requires i < |exits| && exits[i].exitId == exitId
    ensures Has(exits, exitId)
  {
  }

  lemma RequestFits(exits: seq<Exit>, logs: seq<IgraEvent>, m: nat)
    requires Proper(logs) && m < |logs| && Reflects(exits, logs, m) && logs[m].ExitRequested?
    ensures ApplyEvent(exits, logs[m]) == Ok(exits + [RequestedExit(logs[m])])
    ensures LedgerOk(exits + [RequestedExit(logs[m])])
  {
    hide Reflects, Proper, Marked, TookTxid, RefundedBy;
    var e, x := logs[m], RequestedExit(logs[m]);
    WellFormedAt(logs, m);
    ReflectedLedger(exits, logs, m);
    forall i | 0 <= i < |exits|
      ensures exits[i].exitId != e.exitId && !BurnConflict(exits[i], x)
    {
      var l := OriginOf(exits, logs, m, i);
      ProperAt(logs, l, m);
    }
    UpsertKeepsLedger(exits, x);
  }

  lemma AppendsRequest(exits: seq<Exit>, logs: seq<IgraEvent>, m: nat)
    requires Proper(logs) && m < |logs| && Reflects(exits, logs, m) && logs[m].ExitRequested?
    ensures ApplyEvent(exits, logs[m]) == Ok(exits + [RequestedExit(logs[m])])
    ensures Reflects(exits + [RequestedExit(logs[m])], logs, m + 1)
  {
    hide Reflects, Proper, LedgerOk, Traced, ApplyEvent, Has;
    var x := RequestedExit(logs[m]);
    var exits' := exits + [x];
    RequestFits(exits, logs, m);
    ReflectedLedger(exits, logs, m);
    forall i | 0 <= i < |exits'|
      ensures HasOrigin(exits'[i], logs, m + 1)
    {
      if i < |exits| {
        var l := OriginOf(exits, logs, m, i);
        StillTraced(exits[i], logs, l, m);
      } else {
        NewlyTraced(logs, m);
      }
    }
    forall k | 0 <= k < m + 1 && logs[k].ExitRequested?
      ensures Has(exits', logs[k].exitId)
    {
      if k < m { HasStays(exits, x, logs[k].exitId); } else { HasIndex(exits', logs[k].exitId, |exits|); }
    }
    AllTraced(exits, logs, m + 1, exits');
  }

  lemma NewlyTraced(logs: seq<IgraEvent>, m: nat)
    requires m < |logs| && logs[m].ExitRequested?
    ensures Traced(RequestedExit(logs[m]), logs, m, m + 1)
  {
  }

  lemma HasStays(exits: seq<Exit>, x: Exit, exitId: string)
    requires Has(exits, exitId)
    ensures Has(exits + [x], exitId)
  {
    HasIndex(exits + [x], exitId, IndexOf(exits, exitId));
  }

  /** A lifecycle write leaves its own mark and keeps the earlier ones. */
  lemma MergeMarks(x: Exit, e: IgraEvent, earlier: IgraEvent)
    requires Lifecycle(e) == Some(x.exitId)
    requires x.status == Pending || x.status == Processed || x.status == Refunded
    ensures Marked(MergeExit(x, LifecycleWrite(x, e)), e)
    ensures Marked(x, earlier) ==> Marked(MergeExit(x, LifecycleWrite(x, e)), earlier)
  {
    hide NormalizeTxid;
  }

  lemma MergeTraced(x: Exit, logs: seq<IgraEvent>, l: nat, m: nat)
    requires m < |logs| && Traced(x, logs, l, m) && Lifecycle(logs[m]) == Some(x.exitId)
    ensures Traced(MergeExit(x, LifecycleWrite(x, logs[m])), logs, l, m + 1)
  {
    hide NormalizeTxid, Marked;
    var x' := MergeExit(x, LifecycleWrite(x, logs[m]));
    forall k | l < k < m + 1
      ensures Marked(x', logs[k])
    {
      MergeMarks(x, logs[m], logs[k]);
    }
    if x.releaseTxid.Some? {
      var k :| l < k < m && TookTxid(x, logs[k]);
      assert TookTxid(x', logs[k]);
    } else if x'.releaseTxid.Some? {
      assert TookTxid(x', logs[m]);
    }
    if x.status == Refunded {
      var k :| l < k < m && RefundedBy(x, logs[k]);
      assert RefundedBy(x', logs[k]);
    } else if x'.status == Refunded {
      assert RefundedBy(x', logs[m]);
    }
  }

  lemma MarksLifecycle(exits: seq<Exit>, logs: seq<IgraEvent>, m: nat)
    requires Proper(logs) && m < |logs| && Reflects(exits, logs, m) && Lifecycle(logs[m]).Some?
    ensures ApplyEvent(exits, logs[m]).Ok? && Reflects(ApplyEvent(exits, logs[m]).value, logs, m + 1)
  {
    hide Reflects, Proper, LedgerOk, Traced, ApplyEvent, Has, MergeExit, LifecycleWrite;
    ApplyLifecycle(exits, logs, m, m);
    ReflectedLedger(exits, logs, m);
    var exits' := ApplyEvent(exits, logs[m]).value;
    EventKeepsLedger(exits, logs[m]);
    var n := IndexOf(exits, Lifecycle(logs[m]).value);
    forall i | 0 <= i < |exits'|
      ensures HasOrigin(exits'[i], logs, m + 1)
    {
      var l := OriginOf(exits, logs, m, i);
      if i == n {
        MergeTraced(exits[i], logs, l, m);
      } else {
        IndexOfIs(exits, i);
        StillTraced(exits[i], logs, l, m);
      }
    }
    forall k | 0 <= k < m + 1 && logs[k].ExitRequested?
      ensures Has(exits', logs[k].exitId)
    {
      HasAfterWrite(exits, exits', logs[k].exitId, n);
    }
    AllTraced(exits, logs, m + 1, exits');
  }

  lemma HasAfterWrite(exits: seq<Exit>, exits': seq<Exit>, exitId: string, n: nat)
    requires Has(exits, exitId) && |exits'| == |exits|
    requires forall i :: 0 <= i < |exits| && i != n ==> exits'[i] == exits[i]
    requires n < |exits| ==> exits'[n].exitId == exits[n].exitId
    ensures Has(exits', exitId)
  {
    HasIndex(exits', exitId, IndexOf(exits, exitId));
  }

  /** The next log moves the ledger to the next fold. */
  lemma Advances(exits: seq<Exit>, logs: seq<IgraEvent>, m: nat)
    requires Proper(logs) && m < |logs| && Reflects(exits, logs, m)
    ensures ApplyEvent(exits, logs[m]).Ok? && Reflects(ApplyEvent(exits, logs[m]).value, logs, m + 1)
  {
    hide Reflects, Proper, Traced;
    if logs[m].ExitRequested? {
      AppendsRequest(exits, logs, m);
    } else if Lifecycle(logs[m]).Some? {
      MarksLifecycle(exits, logs, m);
    } else {
      OtherChangesNothing(exits, logs, m);
    }
  }

  lemma OtherChangesNothing(exits: seq<Exit>, logs: seq<IgraEvent>, m: nat)
    requires m < |logs| && Reflects(exits, logs, m) && logs[m].OtherEvent?
    ensures Reflects(exits, logs, m + 1)
  {
    hide Reflects, LedgerOk, Traced, Has;
    ReflectedLedger(exits, logs, m);
    forall i | 0 <= i < |exits|
      ensures HasOrigin(exits[i], logs, m + 1)
    {
      var l := OriginOf(exits, logs, m, i);
      StillTraced(exits[i], logs, l, m);
    }
    AllTraced(exits, logs, m + 1, exits);
  }

  lemma {:induction false} FoldReflects(logs: seq<IgraEvent>, m: nat)
    requires Proper(logs) && m <= |logs|
    ensures Reflects(Fold(logs[..m]), logs, m)
  {
    hide Proper, ApplyEvent, Traced;
    if m == 0 {
      assert logs[..0] == [];
    } else {
      FoldReflects(logs, m - 1);
      FoldStep(logs, m - 1);
      Advances(Fold(logs[..m - 1]), logs, m - 1);
      StepIsApply(Fold(logs[..m - 1]), logs[m - 1]);
    }
  }

  lemma AbsorbedByFold(logs: seq<IgraEvent>, m: nat, k: nat)
    requires Proper(logs) && k < m <= |logs|
    ensures ApplyEvent(Fold(logs[..m]), logs[k]) == Ok(Fold(logs[..m])) <==> Settled(logs, m, k)
  {
    hide Reflects, Proper, ApplyEvent, Fold, Settled;
    FoldReflects(logs, m);
    AbsorbedIff(Fold(logs[..m]), logs, m, k);
  }

  /** Replaying any log on any later fold changes nothing exactly when no lifecycle event comes before its request. */
  lemma RequestsFirstIff(logs: seq<IgraEvent>)
    requires Proper(logs)
    ensures RequestsFirst(logs) <==>
      forall m, k :: 0 <= k < m <= |logs| ==> Replays(logs, m, k)
  {
    hide Proper, ApplyEvent, Fold;
    forall m, k | 0 <= k < m <= |logs|
      ensures Replays(logs, m, k) <==> Settled(logs, m, k)
    {
      AbsorbedByFold(logs, m, k);
    }
    if !RequestsFirst(logs) {
      var k, l :| 0 <= k < l < |logs| && logs[l].ExitRequested? && Lifecycle(logs[k]) == Some(logs[l].exitId);
      assert RequestOf(logs[l], logs[k]);
      assert !Settled(logs, l + 1, k);
    }
  }

  predicate Replays(logs: seq<IgraEvent>, m: nat, k: nat)
    requires k < m <= |logs|
  {
    ApplyEvent(Fold(logs[..m]), logs[k]) == Ok(Fold(logs[..m]))
  }

  // ---- The poller ----

  datatype Bridge = Bridge(events: map<(string, nat), IgraEvent>, exits: seq<Exit>, checkpoint: Option<nat>)

  /** Where a try stops short: after `applied` logs, or after saving one more event without applying it. */
  datatype Crash = NoCrash | CrashAt(applied: nat, eventSaved: bool)

  datatype Outcome = Idle | Aborted | Completed(fromBlock: nat, toBlock: nat)

  function SaveEvent(events: map<(string, nat), IgraEvent>, e: IgraEvent): map<(string, nat), IgraEvent> {
    if EventId(e) in events then events else events[EventId(e) := e]
  }

  /** The loop over the sorted logs, from log `n` on; the flag says whether it reached the end. */
  function Process(b: Bridge, logs: seq<IgraEvent>, n: nat, crash: Crash): (Bridge, bool)
    requires n <= |logs|
    decreases |logs| - n
  {
    if crash == CrashAt(n, false) then (b, false)
    else if n == |logs| then (b, true)
    else
      var b1 := b.(events := SaveEvent(b.events, logs[n]));
      if crash == CrashAt(n, true) then (b1, false)
      else
        match ApplyEvent(b.exits, logs[n])
        case Thrown => (b1, false)
        case Ok(exits') => Process(b1.(exits := exits'), logs, n + 1, crash)
  }

  function NextBlock(b: Bridge, startBlock: nat): nat {
    b.checkpoint.GetOr(startBlock)
  }

  function ToBlock(b: Bridge, startBlock: nat, latestSafe: int, maxRange: nat): int {
    var last := NextBlock(b, startBlock) + maxRange - 1;
    if latestSafe < last then latestSafe else last
  }

  /** One `pollOnce`; `answer` is what the node returns for the range, in any order. */
  function Poll(b: Bridge, startBlock: nat, latestSafe: int, maxRange: nat, answer: seq<IgraEvent>, crash: Crash): (Bridge, Outcome)
    requires maxRange > 0
  {
    var from := NextBlock(b, startBlock);
    if latestSafe < from then (b, Idle)
    else
      var to := ToBlock(b, startBlock, latestSafe, maxRange);
      var (b', done) := Process(b, Sort(answer, LogKey), 0, crash);
      if done then (b'.(checkpoint := Some(to + 1)), Completed(from, to)) else (b', Aborted)
  }

  // ---- Runs ----

  datatype Attempt = Attempt(latestSafe: int, maxRange: nat, answer: seq<IgraEvent>, crash: Crash)

  /** The node answers with the logs of the asked blocks, in any order. */
  predicate HonestAnswer(logs: seq<IgraEvent>, b: Bridge, startBlock: nat, a: Attempt) {
    && a.maxRange > 0
    && var from, to := NextBlock(b, startBlock), ToBlock(b, startBlock, a.latestSafe, a.maxRange);
       from <= a.latestSafe ==>
         CountBelow(logs, from) <= CountBelow(logs, to + 1)
         && multiset(a.answer) == multiset(logs[CountBelow(logs, from)..CountBelow(logs, to + 1)])
  }

  ghost predicate Run(logs: seq<IgraEvent>, startBlock: nat, trace: seq<Bridge>, attempts: seq<Attempt>, outcomes: seq<Outcome>) {
    && |trace| == |attempts| + 1 && |outcomes| == |attempts|
    && forall i :: 0 <= i < |attempts| ==>
         && HonestAnswer(logs, trace[i], startBlock, attempts[i])
         && (trace[i + 1], outcomes[i]) == Poll(trace[i], startBlock, attempts[i].latestSafe, attempts[i].maxRange,
                                                attempts[i].answer, attempts[i].crash)
  }

  /** The completed ranges follow each other from `next` without gap or overlap; the result is the block after them. */
  function TiledUpTo(next: nat, outcomes: seq<Outcome>): Option<nat> {
    if outcomes == [] then Some(next)
    else
      match TiledUpTo(next, outcomes[..|outcomes| - 1])
      case None => None
      case Some(n) =>
        match outcomes[|outcomes| - 1]
        case Completed(from, to) => if n == from <= to then Some(to + 1) else None
        case _ => Some(n)
  }

  function EventIds(logs: seq<IgraEvent>): set<(string, nat)> {
    set e | e in logs :: EventId(e)
  }

  /** The ledger is the fold of the first `m` logs, the event store holds the first `n`, and the checkpoint is behind both. */
  ghost predicate Inv(b: Bridge, logs: seq<IgraEvent>, startBlock: nat, m: nat, n: nat) {
    && CountBelow(logs, NextBlock(b, startBlock)) <= m <= n <= |logs|
    && n <= m + 1
    && b.exits == Fold(logs[..m]) && Reflects(b.exits, logs, m)
    && b.events.Keys == EventIds(logs[..n])
  }

  lemma FoldStep(logs: seq<IgraEvent>, m: nat)
    requires m < |logs|
    ensures Fold(logs[..m + 1]) == LedgerStep(Fold(logs[..m]), Igra(logs[m]))
  {
    assert logs[..m + 1][..m] == logs[..m];
  }

  lemma SavedIds(events: map<(string, nat), IgraEvent>, logs: seq<IgraEvent>, n: nat, k: nat)
    requires k < |logs| && k <= n <= |logs| && events.Keys == EventIds(logs[..n])
    ensures SaveEvent(events, logs[k]).Keys == EventIds(logs[..if k < n then n else n + 1])
  {
    if k < n {
      assert logs[..n][k] == logs[k];
    } else {
      assert logs[..n + 1] == logs[..n] + [logs[n]];
    }
  }

  /** Saving and applying the log at `j`, seen before or next, moves the ledger on by at most one log. */
  lemma LogKeepsInv(b: Bridge, logs: seq<IgraEvent>, startBlock: nat, m: nat, n: nat, j: nat)
    requires Orderly(logs) && Inv(b, logs, startBlock, m, n) && j <= m && j < |logs|
    ensures ApplyEvent(b.exits, logs[j]).Ok?
    ensures var events, n' := SaveEvent(b.events, logs[j]), if j < n then n else n + 1;
      && Inv(b.(events := events), logs, startBlock, m, n')
      && Inv(Bridge(events, ApplyEvent(b.exits, logs[j]).value, b.checkpoint), logs, startBlock, if j < m then m else m + 1, n')
  {
    hide Reflects, Proper, RequestsFirst, ApplyEvent, Fold, EventIds, SaveEvent, CountBelow;
    SavedIds(b.events, logs, n, j);
    if j < m {
      Absorbs(b.exits, logs, m, j);
    } else {
      Advances(b.exits, logs, m);
      FoldStep(logs, m);
      StepIsApply(b.exits, logs[m]);
    }
  }

  lemma StepIsApply(exits: seq<Exit>, e: IgraEvent)
    requires ApplyEvent(exits, e).Ok?
    ensures LedgerStep(exits, Igra(e)) == ApplyEvent(exits, e).value
  {
    hide ApplyEvent;
  }

  /** Processing any stretch of the log that starts at or before `m`, crash or not, leaves a fold again. */
  lemma ProcessKeepsInv(b: Bridge, logs: seq<IgraEvent>, startBlock: nat, m: nat, n: nat, lo: nat, hi: nat, k: nat, crash: Crash)
    returns (m': nat, n': nat)
    requires Orderly(logs) && Inv(b, logs, startBlock, m, n)
    requires lo <= hi <= |logs| && k <= hi - lo && lo + k <= m
    ensures var (b', done) := Process(b, logs[lo..hi], k, crash);
      Inv(b', logs, startBlock, m', n') && b'.checkpoint == b.checkpoint && m <= m' && (done ==> hi <= m')
    decreases hi - lo - k
  {
    hide Inv, Orderly, ApplyEvent, SaveEvent;
    m', n' := m, n;
    var stretch := logs[lo..hi];
    if crash != CrashAt(k, false) && k < hi - lo {
      var e := logs[lo + k];
      assert stretch[k] == e;
      LogKeepsInv(b, logs, startBlock, m, n, lo + k);
      n' := if lo + k < n then n else n + 1;
      if crash != CrashAt(k, true) {
        m' := if lo + k < m then m else m + 1;
        var b1 := Bridge(SaveEvent(b.events, e), ApplyEvent(b.exits, e).value, b.checkpoint);
        m', n' := ProcessKeepsInv(b1, logs, startBlock, m', n', lo, hi, k + 1, crash);
      }
    }
  }

  lemma StretchSorted(logs: seq<IgraEvent>, lo: nat, hi: nat)
    requires Orderly(logs) && lo <= hi <= |logs|
    ensures StrictlySorted(logs[lo..hi], LogKey)
  {
    hide LogKey, ProperPair, WellFormedLog;
  }

  lemma BehindInv(b: Bridge, logs: seq<IgraEvent>, startBlock: nat, m: nat, n: nat)
    requires Inv(b, logs, startBlock, m, n)
    ensures CountBelow(logs, NextBlock(b, startBlock)) <= m
  {
  }

  lemma Checkpointed(b: Bridge, logs: seq<IgraEvent>, startBlock: nat, m: nat, n: nat, next: nat)
    requires Inv(b, logs, startBlock, m, n) && CountBelow(logs, next) <= m
    ensures Inv(b.(checkpoint := Some(next)), logs, startBlock, m, n)
  {
  }

  lemma PollKeepsInv(b: Bridge, logs: seq<IgraEvent>, startBlock: nat, m: nat, n: nat, a: Attempt) returns (m': nat, n': nat)
    requires Orderly(logs) && Inv(b, logs, startBlock, m, n) && HonestAnswer(logs, b, startBlock, a)
    ensures Inv(Poll(b, startBlock, a.latestSafe, a.maxRange, a.answer, a.crash).0, logs, startBlock, m', n') && m <= m'
  {
    hide Inv, Orderly, Process, Sort, StrictlySorted, LogKey, CountBelow;
    m', n' := m, n;
    var from := NextBlock(b, startBlock);
    if from <= a.latestSafe {
      var to := ToBlock(b, startBlock, a.latestSafe, a.maxRange);
      var lo, hi := CountBelow(logs, from), CountBelow(logs, to + 1);
      StretchSorted(logs, lo, hi);
      SortOfStrict(a.answer, logs[lo..hi], LogKey);
      BehindInv(b, logs, startBlock, m, n);
      m', n' := ProcessKeepsInv(b, logs, startBlock, m, n, lo, hi, 0, a.crash);
      var (b', done) := Process(b, logs[lo..hi], 0, a.crash);
      if done { Checkpointed(b', logs, startBlock, m', n', to + 1); }
    }
  }

  lemma RunPrefix(logs: seq<IgraEvent>, startBlock: nat, trace: seq<Bridge>, attempts: seq<Attempt>, outcomes: seq<Outcome>)
    requires Run(logs, startBlock, trace, attempts, outcomes) && attempts != []
    ensures var k := |attempts| - 1;
      && Run(logs, startBlock, trace[..k + 1], attempts[..k], outcomes[..k])
      && HonestAnswer(logs, trace[k], startBlock, attempts[k])
      && (trace[k + 1], outcomes[k]) == Poll(trace[k], startBlock, attempts[k].latestSafe, attempts[k].maxRange,
                                             attempts[k].answer, attempts[k].crash)
  {
    hide HonestAnswer, Poll;
  }

  lemma {:induction false} RunTiles(logs: seq<IgraEvent>, startBlock: nat, trace: seq<Bridge>, attempts: seq<Attempt>, outcomes: seq<Outcome>)
    requires Run(logs, startBlock, trace, attempts, outcomes) && trace[0].checkpoint.None?
    ensures TiledUpTo(startBlock, outcomes) == Some(NextBlock(trace[|attempts|], startBlock))
    decreases |attempts|
  {
    hide Run, Process, HonestAnswer, Sort;
    RunLengths(logs, startBlock, trace, attempts, outcomes);
    if attempts != [] {
      var k := |attempts| - 1;
      RunPrefix(logs, startBlock, trace, attempts, outcomes);
      RunTiles(logs, startBlock, trace[..k + 1], attempts[..k], outcomes[..k]);
      HonestRange(logs, trace[k], startBlock, attempts[k]);
      ProcessKeepsCheckpoint(trace[k], Sort(attempts[k].answer, LogKey), 0, attempts[k].crash);
    }
  }

  lemma RunLengths(logs: seq<IgraEvent>, startBlock: nat, trace: seq<Bridge>, attempts: seq<Attempt>, outcomes: seq<Outcome>)
    requires Run(logs, startBlock, trace, attempts, outcomes)
    ensures |trace| == |attempts| + 1 && |outcomes| == |attempts|
  {
  }

  lemma HonestRange(logs: seq<IgraEvent>, b: Bridge, startBlock: nat, a: Attempt)
    requires HonestAnswer(logs, b, startBlock, a)
    ensures a.maxRange > 0
  {
  }

  lemma {:induction false} RunKeepsInv(logs: seq<IgraEvent>, startBlock: nat, trace: seq<Bridge>, attempts: seq<Attempt>, outcomes: seq<Outcome>)
    returns (m: nat, n: nat)
    requires Orderly(logs) && Run(logs, startBlock, trace, attempts, outcomes)
    requires trace[0] == Bridge(map[], [], None) && CountBelow(logs, startBlock) == 0
    ensures Inv(trace[|attempts|], logs, startBlock, m, n)
    decreases |attempts|
  {
    hide Run, Inv, Orderly, Poll, CountBelow, HonestAnswer;
    RunLengths(logs, startBlock, trace, attempts, outcomes);
    m, n := 0, 0;
    if attempts != [] {
      var k := |attempts| - 1;
      RunPrefix(logs, startBlock, trace, attempts, outcomes);
      HonestRange(logs, trace[k], startBlock, attempts[k]);
      m, n := RunKeepsInv(logs, startBlock, trace[..k + 1], attempts[..k], outcomes[..k]);
      m, n := PollKeepsInv(trace[k], logs, startBlock, m, n, attempts[k]);
    } else {
      StartsInv(logs, startBlock);
    }
  }

  /**
   For any run of polls, whatever crashes, whatever the safe tip does between tries and however the
   node orders its answers: the exits are one in-order fold over the first `m` logs, the event store
   holds the first `n` of them, everything below the checkpoint is among them, and the completed ranges
   tile the blocks up to the checkpoint.
   */
  lemma RunEqualsFold(logs: seq<IgraEvent>, startBlock: nat, trace: seq<Bridge>, attempts: seq<Attempt>, outcomes: seq<Outcome>)
    returns (m: nat, n: nat)
    requires Orderly(logs) && Run(logs, startBlock, trace, attempts, outcomes)
    requires trace[0] == Bridge(map[], [], None) && CountBelow(logs, startBlock) == 0
    ensures Inv(trace[|attempts|], logs, startBlock, m, n)
    ensures TiledUpTo(startBlock, outcomes) == Some(NextBlock(trace[|attempts|], startBlock))
  {
    hide Inv, Orderly, CountBelow, TiledUpTo;
    RunTiles(logs, startBlock, trace, attempts, outcomes);
    m, n := RunKeepsInv(logs, startBlock, trace, attempts, outcomes);
  }

  lemma StartsInv(logs: seq<IgraEvent>, startBlock: nat)
    requires CountBelow(logs, startBlock) == 0
    ensures Inv(Bridge(map[], [], None), logs, startBlock, 0, 0)
  {
    assert logs[..0] == [];
  }

  lemma ProcessKeepsCheckpoint(b: Bridge, logs: seq<IgraEvent>, n: nat, crash: Crash)
    requires n <= |logs|
    ensures Process(b, logs, n, crash).0.checkpoint == b.checkpoint
    decreases |logs| - n
  {
  }

  // ---- Every run ----

  const START := Bridge(map[], [], None)

  ghost predicate IsFold(b: Bridge, logs: seq<IgraEvent>, startBlock: nat) {
    exists m, n :: Inv(b, logs, startBlock, m, n)
  }

  ghost predicate RunFromStart(logs: seq<IgraEvent>, startBlock: nat, trace: seq<Bridge>, attempts: seq<Attempt>, outcomes: seq<Outcome>) {
    |trace| == |attempts| + 1 && trace[0] == START && Run(logs, startBlock, trace, attempts, outcomes)
  }

  ghost predicate EveryRunFolds(logs: seq<IgraEvent>, startBlock: nat) {
    forall trace, attempts, outcomes :: RunFromStart(logs, startBlock, trace, attempts, outcomes) ==>
      IsFold(trace[|attempts|], logs, startBlock)
  }

  /** A transaction hash and log index name one log. */
  predicate DistinctIds(logs: seq<IgraEvent>) {
    forall i, j :: 0 <= i < j < |logs| ==> EventId(logs[i]) != EventId(logs[j])
  }

  /** A try over the whole log that crashes after its first `n` logs. */
  function WholeTry(logs: seq<IgraEvent>, startBlock: nat, n: nat): Attempt
    requires logs != [] && logs[|logs| - 1].block >= startBlock
  {
    var last := logs[|logs| - 1].block;
    Attempt(last, last - startBlock + 1, logs, CrashAt(n, false))
  }

  lemma WholeTryIs(logs: seq<IgraEvent>, startBlock: nat, n: nat, b: Bridge)
    requires Proper(logs) && logs != [] && CountBelow(logs, startBlock) == 0 && b.checkpoint.None?
    ensures logs[|logs| - 1].block >= startBlock
    ensures var a := WholeTry(logs, startBlock, n);
      && HonestAnswer(logs, b, startBlock, a)
      && (!Process(b, logs, 0, a.crash).1 ==>
            Poll(b, startBlock, a.latestSafe, a.maxRange, a.answer, a.crash) == (Process(b, logs, 0, a.crash).0, Aborted))
  {
    hide Process, Sort, Proper, StrictlySorted, CountBelow;
    BlocksRise(logs);
    assert logs[0].block >= startBlock;
    SortOfStrict(logs, logs, LogKey);
    assert logs[0..|logs|] == logs;
  }

  lemma BlocksRise(logs: seq<IgraEvent>)
    requires Proper(logs) && logs != []
    ensures StrictlySorted(logs, LogKey) && logs[0].block <= logs[|logs| - 1].block
    ensures CountBelow(logs, logs[|logs| - 1].block + 1) == |logs|
  {
    hide ProperPair, WellFormedLog;
    var n := |logs| - 1;
    assert forall i :: 0 <= i < n ==> Less(LogKey(logs[i]), LogKey(logs[n]));
    var k := CountBelow(logs, logs[n].block + 1);
  }

  /** A first try leaves the fold of the logs before its crash. */
  lemma {:induction false} FirstTry(b: Bridge, logs: seq<IgraEvent>, j: nat, c: nat)
    requires Proper(logs) && j <= c <= |logs| && b.exits == Fold(logs[..j]) && b.events.Keys == EventIds(logs[..j])
    ensures var (b', done) := Process(b, logs, j, CrashAt(c, false));
      !done && b'.exits == Fold(logs[..c]) && b'.events.Keys == EventIds(logs[..c]) && b'.checkpoint == b.checkpoint
    decreases c - j
  {
    hide Proper, ApplyEvent, Fold, EventIds, SaveEvent, Reflects;
    if j < c {
      FoldReflects(logs, j);
      Advances(b.exits, logs, j);
      FoldStep(logs, j);
      StepIsApply(b.exits, logs[j]);
      SavedIds(b.events, logs, j, j);
      FirstTry(Bridge(SaveEvent(b.events, logs[j]), ApplyEvent(b.exits, logs[j]).value, b.checkpoint), logs, j + 1, c);
    }
  }

  /** A second try over settled logs changes nothing until it reaches `c`. */
  lemma {:induction false} SecondTry(b: Bridge, logs: seq<IgraEvent>, m: nat, j: nat, c: nat)
    requires Proper(logs) && j <= c < m <= |logs| && b.exits == Fold(logs[..m]) && b.events.Keys == EventIds(logs[..m])
    requires forall i :: j <= i < c ==> Settled(logs, m, i)
    requires ApplyEvent(b.exits, logs[c]).Ok?
    ensures var (b', done) := Process(b, logs, j, CrashAt(c + 1, false));
      !done && b'.exits == ApplyEvent(b.exits, logs[c]).value && b'.events.Keys == EventIds(logs[..m]) && b'.checkpoint == b.checkpoint
    decreases c - j
  {
    hide Proper, ApplyEvent, Fold, EventIds, SaveEvent, Settled;
    SavedIds(b.events, logs, m, j);
    if j < c {
      AbsorbedByFold(logs, m, j);
      SecondTry(Bridge(SaveEvent(b.events, logs[j]), b.exits, b.checkpoint), logs, m, j + 1, c);
    }
  }

  lemma FirstUnsettled(logs: seq<IgraEvent>, m: nat, k: nat) returns (c: nat)
    requires k < m <= |logs| && !Settled(logs, m, k)
    ensures c <= k && !Settled(logs, m, c) && forall i :: 0 <= i < c ==> Settled(logs, m, i)
  {
    hide Settled;
    c := 0;
    while Settled(logs, m, c)
      invariant c <= k && forall i :: 0 <= i < c ==> Settled(logs, m, i)
      decreases k - c
    {
      c := c + 1;
    }
  }

  /** Replaying an unsettled log changes the exits, but not their number. */
  lemma UnsettledChanges(logs: seq<IgraEvent>, l: nat, c: nat)
    requires Proper(logs) && c <= l < |logs| && logs[l].ExitRequested? && !Settled(logs, l + 1, c)
    ensures var exits := Fold(logs[..l + 1]);
      && ApplyEvent(exits, logs[c]).Ok? && ApplyEvent(exits, logs[c]).value != exits
      && |ApplyEvent(exits, logs[c]).value| == |exits| == |Fold(logs[..l])| + 1
  {
    hide Proper, ApplyEvent, Fold, Reflects;
    AbsorbedByFold(logs, l + 1, c);
    FoldReflects(logs, l + 1);
    ApplyLifecycle(Fold(logs[..l + 1]), logs, l + 1, c);
    FoldReflects(logs, l);
    AppendsRequest(Fold(logs[..l]), logs, l);
    FoldStep(logs, l);
    StepIsApply(Fold(logs[..l]), logs[l]);
  }

  lemma StoredCount(logs: seq<IgraEvent>, m: nat, n: nat)
    requires DistinctIds(logs) && m <= |logs| && n <= |logs| && EventIds(logs[..m]) == EventIds(logs[..n])
    ensures m == n
  {
    if m < n {
      IdIsNew(logs, m, n);
    } else if n < m {
      IdIsNew(logs, n, m);
    }
  }

  lemma IdIsNew(logs: seq<IgraEvent>, m: nat, n: nat)
    requires DistinctIds(logs) && m < n <= |logs|
    ensures EventId(logs[m]) in EventIds(logs[..n]) && EventId(logs[m]) !in EventIds(logs[..m])
  {
    hide EventId;
    assert logs[..n][m] == logs[m];
  }

  lemma NotAFold(b: Bridge, logs: seq<IgraEvent>, startBlock: nat, l: nat)
    requires DistinctIds(logs) && l < |logs| && b.events.Keys == EventIds(logs[..l + 1])
    requires b.exits != Fold(logs[..l + 1]) && |b.exits| == |Fold(logs[..l])| + 1
    ensures !IsFold(b, logs, startBlock)
  {
    hide DistinctIds, EventIds, Reflects, Fold, CountBelow;
    forall m, n
      ensures !Inv(b, logs, startBlock, m, n)
    {
      if Inv(b, logs, startBlock, m, n) {
        StoredCount(logs, n, l + 1);
      }
    }
  }

  /** Where a lifecycle event comes before its request, a first try that stops after the request and a second that stops at
      the first unsettled log leave no fold. */
  lemma UnorderlyRun(logs: seq<IgraEvent>, startBlock: nat, k: nat, l: nat)
    returns (trace: seq<Bridge>, attempts: seq<Attempt>, outcomes: seq<Outcome>)
    requires Proper(logs) && DistinctIds(logs) && CountBelow(logs, startBlock) == 0
    requires k < l < |logs| && RequestOf(logs[l], logs[k])
    ensures Run(logs, startBlock, trace, attempts, outcomes) && trace[0] == START
    ensures !IsFold(trace[|attempts|], logs, startBlock)
  {
    hide Proper, DistinctIds, CountBelow, Process, ApplyEvent, Fold, EventIds, IsFold, Poll, HonestAnswer;
    assert !Settled(logs, l + 1, k);
    var c := FirstUnsettled(logs, l + 1, k);
    UnsettledChanges(logs, l, c);
    NothingYet(logs);
    FirstTry(START, logs, 0, l + 1);
    var b1 := Process(START, logs, 0, CrashAt(l + 1, false)).0;
    SecondTry(b1, logs, l + 1, 0, c);
    var b2 := Process(b1, logs, 0, CrashAt(c + 1, false)).0;
    WholeTryIs(logs, startBlock, l + 1, START);
    WholeTryIs(logs, startBlock, c + 1, b1);
    trace, outcomes := [START, b1, b2], [Aborted, Aborted];
    attempts := [WholeTry(logs, startBlock, l + 1), WholeTry(logs, startBlock, c + 1)];
    NotAFold(b2, logs, startBlock, l);
  }

  lemma NothingYet(logs: seq<IgraEvent>)
    ensures START.exits == Fold(logs[..0]) && START.events.Keys == EventIds(logs[..0])
  {
    assert logs[..0] == [];
  }

  lemma RequestedAt(e: IgraEvent, f: IgraEvent)
    requires e.ExitRequested? && Lifecycle(f) == Some(e.exitId)
    ensures RequestOf(e, f)
  {
  }

  /** Every run of polls, with crashes wherever they fall, leaves a fold of the log exactly when no lifecycle event of the
      log comes before its exit's request. */
  lemma EveryRunFoldsIff(logs: seq<IgraEvent>, startBlock: nat)
    requires Proper(logs) && DistinctIds(logs) && CountBelow(logs, startBlock) == 0
    ensures EveryRunFolds(logs, startBlock) <==> RequestsFirst(logs)
  {
    hide Proper, DistinctIds, CountBelow, Inv, Run, RequestOf;
    if RequestsFirst(logs) {
      forall trace, attempts, outcomes | RunFromStart(logs, startBlock, trace, attempts, outcomes)
        ensures IsFold(trace[|attempts|], logs, startBlock)
      {
        var m, n := RunEqualsFold(logs, startBlock, trace, attempts, outcomes);
      }
    } else {
      var k, l :| 0 <= k < l < |logs| && logs[l].ExitRequested? && Lifecycle(logs[k]) == Some(logs[l].exitId);
      RequestedAt(logs[l], logs[k]);
      var trace, attempts, outcomes := UnorderlyRun(logs, startBlock, k, l);
      RunLengths(logs, startBlock, trace, attempts, outcomes);
      assert RunFromStart(logs, startBlock, trace, attempts, outcomes);
    }
  }

  // ---- A run over a log that is not orderly ----

  const EARLY := ExitProcessed(1, 0, "0xb", "x", "t")
  const LATE := ExitRequested(2, 0, "0xa", "x", 5, "r")
  const EARLY_LOG: seq<IgraEvent> := [EARLY, LATE]

  lemma EarlyLogIs()
    ensures Proper(EARLY_LOG) && !RequestsFirst(EARLY_LOG)
    ensures CountBelow(EARLY_LOG, 1) == 0 && CountBelow(EARLY_LOG, 3) == 2
    ensures StrictlySorted(EARLY_LOG, LogKey) && EARLY_LOG[0..2] == EARLY_LOG
  {
    assert EARLY_LOG[1].ExitRequested? && Lifecycle(EARLY_LOG[0]) == Some(EARLY_LOG[1].exitId);
    assert EARLY_LOG[1..] == [LATE] && [LATE][1..] == [];
  }

  lemma EarlyFolds()
    ensures Fold(EARLY_LOG[..0]) == [] && Fold(EARLY_LOG[..1]) == []
    ensures Fold(EARLY_LOG[..2]) == [RequestedExit(LATE)]
    ensures ApplyEvent([], EARLY) == Ok([]) && ApplyEvent([], LATE) == Ok([RequestedExit(LATE)])
  {
    assert EARLY_LOG[..0] == [] && EARLY_LOG[..1][..0] == [] && EARLY_LOG[..2][..1] == EARLY_LOG[..1];
    assert [] + [RequestedExit(LATE)] == [RequestedExit(LATE)];
  }

  /** The exit the replay leaves: its early event, skipped at first, is applied after all. */
  const REPLAYED := RequestedExit(LATE).(status := Processed, releaseTxid := Some("t"))

  lemma EarlyReplays()
    ensures NormalizeTxid("t") == "t"
    ensures ApplyEvent([RequestedExit(LATE)], EARLY) == Ok([REPLAYED])
    ensures ApplyEvent([REPLAYED], LATE) == Ok([REPLAYED])
  {
    assert Lower("t") == "t";
    var x := RequestedExit(LATE);
    assert IndexOf([x], "x") == 0 && IndexOf([REPLAYED], "x") == 0;
    assert [x][0 := REPLAYED] == [REPLAYED] && [REPLAYED][0 := REPLAYED] == [REPLAYED];
  }

  /** Both tries ask for the same two blocks; the first crashes after its last log and before the checkpoint. */
  const TRIES: seq<Attempt> := [Attempt(2, 10, EARLY_LOG, CrashAt(2, false)), Attempt(2, 10, EARLY_LOG, NoCrash)]

  lemma EarlyTries() returns (b1: Bridge, b2: Bridge)
    ensures Process(Bridge(map[], [], None), EARLY_LOG, 0, CrashAt(2, false)) == (b1, false)
    ensures Process(b1, EARLY_LOG, 0, NoCrash) == (b2, true)
    ensures b1.checkpoint.None? && b2.checkpoint.None? && b1.exits == [RequestedExit(LATE)] && b2.exits == [REPLAYED]
  {
    hide ApplyEvent, EventId;
    EarlyFolds();
    EarlyReplays();
    var start := Bridge(map[], [], None);
    var e1 := SaveEvent(map[], EARLY);
    var e2 := SaveEvent(e1, LATE);
    b1 := Bridge(e2, [RequestedExit(LATE)], None);
    assert Process(b1, EARLY_LOG, 2, CrashAt(2, false)) == (b1, false);
    assert Process(Bridge(e1, [], None), EARLY_LOG, 1, CrashAt(2, false)) == (b1, false);
    var e3 := SaveEvent(e2, EARLY);
    var e4 := SaveEvent(e3, LATE);
    b2 := Bridge(e4, [REPLAYED], None);
    assert Process(b2, EARLY_LOG, 2, NoCrash) == (b2, true);
    assert Process(Bridge(e3, [REPLAYED], None), EARLY_LOG, 1, NoCrash) == (b2, true);
  }

  /** Where an event comes before its exit's request, a run that crashes once and then completes can leave exits that are
      no fold of the log. */
  lemma EarlyLifecycleBreaksReplay() returns (trace: seq<Bridge>, outcomes: seq<Outcome>)
    ensures Proper(EARLY_LOG) && !RequestsFirst(EARLY_LOG) && CountBelow(EARLY_LOG, 1) == 0
    ensures Run(EARLY_LOG, 1, trace, TRIES, outcomes) && trace[0] == Bridge(map[], [], None)
    ensures outcomes == [Aborted, Completed(1, 2)]
    ensures forall m :: 0 <= m <= 2 ==> trace[2].exits != Fold(EARLY_LOG[..m])
  {
    hide Process, ApplyEvent, Sort, Proper, RequestsFirst, StrictlySorted, CountBelow, Fold;
    EarlyLogIs();
    EarlyFolds();
    SortOfStrict(EARLY_LOG, EARLY_LOG, LogKey);
    var b1, b2 := EarlyTries();
    trace := [Bridge(map[], [], None), b1, b2.(checkpoint := Some(3))];
    outcomes := [Aborted, Completed(1, 2)];
  }
}
