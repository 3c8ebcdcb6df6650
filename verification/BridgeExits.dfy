/**
 The exit ledger of the bridge (services/bridge-service/src): the store of repository.ts, the Igra
 events of igra-events.ts, the matcher of reserve-spend-matcher.ts and the applier of
 reserve-spend-applier.ts.

 Main results: `LedgerSafety` (uniqueness and write-once over every interleaving) and
 `ApplierNeverThrows`.
 */
module BridgeExits {
  import opened Wrappers

  // ---- Identifiers ----

  predicate HexDigit(c: char) {
    '0' <= c <= '9' || 'a' <= c <= 'f'
  }

  /** Lower case, without the `0x` of a 32-byte hex string. */
  function NormalizeTxid(txid: string): string {
    var l := Lower(txid);
    if |l| == 66 && l[..2] == "0x" && forall i | 2 <= i < 66 :: HexDigit(l[i]) then l[2..] else l
  }

  // ---- The exit store ----

  datatype ExitStatus = Pending | Processed | Released | Refunded | Cancelled | Unknown

  datatype Exit = Exit(
    exitId: string, burnTxid: string, burnLogIndex: nat, amountGrains: nat, recipient: string,
    status: ExitStatus, releaseTxid: Option<string>, releaseBlock: Option<int>)

  predicate Terminal(s: ExitStatus) {
    s == Released || s == Refunded || s == Cancelled
  }

  function First<T>(a: Option<T>, b: Option<T>): Option<T> {
    if a.Some? then a else b
  }

  function MergeExit(existing: Exit, next: Exit): Exit {
    next.(
      status := if Terminal(existing.status) || (existing.status == Processed && next.status == Pending)
                then existing.status else next.status,
      releaseTxid := First(existing.releaseTxid, next.releaseTxid),
      releaseBlock := First(existing.releaseBlock, next.releaseBlock))
  }

  predicate BurnConflict(e: Exit, next: Exit) {
    e.exitId != next.exitId && e.burnTxid == next.burnTxid && e.burnLogIndex == next.burnLogIndex
  }

  predicate ReleaseConflict(e: Exit, next: Exit) {
    && next.releaseTxid.Some? && next.releaseTxid.value != ""
    && e.exitId != next.exitId && e.releaseTxid.Some?
    && NormalizeTxid(e.releaseTxid.value) == NormalizeTxid(next.releaseTxid.value)
  }

  predicate Conflicts(exits: seq<Exit>, next: Exit) {
    exists k :: 0 <= k < |exits| && (BurnConflict(exits[k], next) || ReleaseConflict(exits[k], next))
  }

  /** The index of the exit with this id, or the length of the list. */
  function IndexOf(exits: seq<Exit>, exitId: string): (i: nat)
    ensures i <= |exits|
    ensures i < |exits| ==> exits[i].exitId == exitId
    ensures forall k :: 0 <= k < i ==> exits[k].exitId != exitId
  {
    if exits == [] || exits[0].exitId == exitId then 0 else 1 + IndexOf(exits[1..], exitId)
  }

  function Upsert(exits: seq<Exit>, next: Exit): Result<seq<Exit>> {
    if Conflicts(exits, next) then Thrown
    else
      var i := IndexOf(exits, next.exitId);
      if i < |exits| then Ok(exits[i := MergeExit(exits[i], next)]) else Ok(exits + [next])
  }

  // ---- Igra events ----

  datatype IgraEvent =
    | ExitRequested(block: nat, logIndex: nat, txHash: string, exitId: string, amountGrains: nat, recipient: string)
    | ExitProcessed(block: nat, logIndex: nat, txHash: string, exitId: string, releaseTxid: string)
    | ExitRefunded(block: nat, logIndex: nat, txHash: string, exitId: string)
    | OtherEvent(block: nat, logIndex: nat, txHash: string)

  function RequestedExit(e: IgraEvent): Exit
    requires e.ExitRequested?
  {
    Exit(e.exitId, e.txHash, e.logIndex, e.amountGrains, e.recipient, Pending, None, None)
  }

  function ApplyEvent(exits: seq<Exit>, e: IgraEvent): Result<seq<Exit>> {
    match e
    case OtherEvent(_, _, _) => Ok(exits)
    case ExitRequested(_, _, _, exitId, _, recipient) =>
      if exitId == "" || recipient == "" then Thrown else Upsert(exits, RequestedExit(e))
    case ExitProcessed(_, _, _, exitId, txid) =>
      if exitId == "" then Thrown
      else
        var i := IndexOf(exits, exitId);
        if i == |exits| then Ok(exits)
        else if txid == "" then Thrown
        else Upsert(exits, exits[i].(status := Processed, releaseTxid := Some(NormalizeTxid(txid)), releaseBlock := None))
    case ExitRefunded(_, _, _, exitId) =>
      if exitId == "" then Thrown
      else
        var i := IndexOf(exits, exitId);
        if i == |exits| then Ok(exits) else Upsert(exits, exits[i].(status := Refunded))
  }

  // ---- Matching a reserve spend to an exit ----

  datatype ReserveSpend = ReserveSpend(
    spendTxid: string, height: int, isExitRelease: bool, amountGrains: Option<nat>, recipient: Option<string>)

  datatype Match =
    | Matched(exitId: string)
    | UnknownSpend
    | AmountMismatch
    | RecipientMismatch
    | DuplicateReleaseTxid

  predicate Candidate(e: Exit) {
    e.status == Pending || e.status == Processed || e.status == Released
  }

  predicate Exact(e: Exit, sp: ReserveSpend)
    requires sp.amountGrains.Some? && sp.recipient.Some?
  {
    Candidate(e) && e.amountGrains == sp.amountGrains.value && Lower(e.recipient) == Lower(sp.recipient.value)
  }

  function NextExact(exits: seq<Exit>, sp: ReserveSpend, from: nat): (i: nat)
    requires sp.amountGrains.Some? && sp.recipient.Some? && from <= |exits|
    ensures from <= i <= |exits| && (i < |exits| ==> Exact(exits[i], sp))
    ensures forall k :: from <= k < i ==> !Exact(exits[k], sp)
    decreases |exits| - from
  {
    if from == |exits| || Exact(exits[from], sp) then from else NextExact(exits, sp, from + 1)
  }

  /** The release txid as the matcher compares it; the empty string counts as absent. */
  function ReleaseOf(e: Exit): Option<string> {
    if e.releaseTxid.Some? && e.releaseTxid.value != "" then Some(NormalizeTxid(e.releaseTxid.value)) else None
  }

  predicate TxidUsed(exits: seq<Exit>, txid: string) {
    exists k :: 0 <= k < |exits| && exits[k].releaseTxid.Some? && NormalizeTxid(exits[k].releaseTxid.value) == txid
  }

  /** The verdict once one exit is the exact match. */
  function MatchExact(exact: Exit, exits: seq<Exit>, txid: string): Match {
    if exact.status == Processed && ReleaseOf(exact).Some? && ReleaseOf(exact) != Some(txid) then DuplicateReleaseTxid
    else if exact.status == Released then
      if ReleaseOf(exact) == Some(txid) then Matched(exact.exitId) else DuplicateReleaseTxid
    else if TxidUsed(exits, txid) && ReleaseOf(exact) != Some(txid) then DuplicateReleaseTxid
    else Matched(exact.exitId)
  }

  function MatchSpend(sp: ReserveSpend, exits: seq<Exit>): Match {
    if !sp.isExitRelease || sp.amountGrains.None? || sp.recipient.None? || sp.recipient.value == "" then UnknownSpend
    else
      var i := NextExact(exits, sp, 0);
      if i < |exits| && NextExact(exits, sp, i + 1) < |exits| then UnknownSpend
      else if i < |exits| then MatchExact(exits[i], exits, NormalizeTxid(sp.spendTxid))
      else if exists k :: 0 <= k < |exits| && Candidate(exits[k]) && exits[k].amountGrains == sp.amountGrains.value
        then RecipientMismatch
      else if exists k :: 0 <= k < |exits| && Candidate(exits[k]) && Lower(exits[k].recipient) == Lower(sp.recipient.value)
        then AmountMismatch
      else UnknownSpend
  }

  // ---- Applying a spend ----

  function ReleasedBy(e: Exit, sp: ReserveSpend): Exit {
    e.(status := Released, releaseTxid := Some(sp.spendTxid), releaseBlock := Some(sp.height))
  }

  /** One turn of the applier's loop, with the listed exits equal to the stored ones. */
  function ApplySpend(exits: seq<Exit>, sp: ReserveSpend): Result<seq<Exit>> {
    match MatchSpend(sp, exits)
    case Matched(exitId) =>
      var i := IndexOf(exits, exitId);
      if i == |exits| then Ok(exits)
      else if exits[i].status == Released && exits[i].releaseTxid == Some(sp.spendTxid) then Ok(exits)
      else Upsert(exits, ReleasedBy(exits[i], sp))
    case _ => Ok(exits)
  }

  function ApplySpends(exits: seq<Exit>, spends: seq<ReserveSpend>): Result<seq<Exit>> {
    if spends == [] then Ok(exits)
    else
      match ApplySpends(exits, spends[..|spends| - 1])
      case Thrown => Thrown
      case Ok(exits') => ApplySpend(exits', spends[|spends| - 1])
  }

  // ---- Ledger invariant ----

  predicate DistinctExits(a: Exit, b: Exit) {
    && a.exitId != b.exitId
    && (a.burnTxid != b.burnTxid || a.burnLogIndex != b.burnLogIndex)
    && (a.releaseTxid.Some? && b.releaseTxid.Some? ==>
          NormalizeTxid(a.releaseTxid.value) != NormalizeTxid(b.releaseTxid.value))
  }

  /** Ids, burns and release txids each belong to one exit. */
  predicate LedgerOk(exits: seq<Exit>) {
    forall i, j :: 0 <= i < j < |exits| ==> DistinctExits(exits[i], exits[j])
  }

  function Rank(s: ExitStatus): nat {
    if Terminal(s) then 2 else if s == Processed then 1 else 0
  }

  /** What may happen to one exit: terminal statuses stay, ranks never drop, a release txid and its block are kept. */
  predicate Later(e: Exit, e': Exit) {
    && e'.exitId == e.exitId
    && (Terminal(e.status) ==> e'.status == e.status)
    && Rank(e.status) <= Rank(e'.status)
    && (e.releaseTxid.Some? ==> e'.releaseTxid == e.releaseTxid)
    && (e.releaseBlock.Some? ==> e'.releaseBlock == e.releaseBlock)
  }

  predicate Evolves(exits: seq<Exit>, exits': seq<Exit>) {
    |exits| <= |exits'| && forall i :: 0 <= i < |exits| ==> Later(exits[i], exits'[i])
  }

  lemma IndexOfIs(exits: seq<Exit>, i: nat)
    requires LedgerOk(exits) && i < |exits|
    ensures IndexOf(exits, exits[i].exitId) == i
  {
    var k := IndexOf(exits, exits[i].exitId);
    assert k <= i;
    assert k < i ==> DistinctExits(exits[k], exits[i]);
  }

  /** The exit would take an empty release txid. */
  predicate TakesEmpty(exits: seq<Exit>, next: Exit) {
    var i := IndexOf(exits, next.exitId);
    next.releaseTxid == Some("") && (i < |exits| ==> exits[i].releaseTxid.None?)
  }

  predicate OtherHasEmpty(exits: seq<Exit>, next: Exit) {
    exists k :: 0 <= k < |exits| && exits[k].exitId != next.exitId && exits[k].releaseTxid == Some("")
  }

  lemma NormalizesToEmpty(txid: string)
    ensures NormalizeTxid(txid) == "" <==> txid == ""
  {
  }

  lemma AreDistinct(exits: seq<Exit>, i: nat, j: nat)
    requires LedgerOk(exits) && i < |exits| && j < |exits| && i != j
    ensures DistinctExits(exits[i], exits[j]) && DistinctExits(exits[j], exits[i])
  {
    if i < j {
      assert DistinctExits(exits[i], exits[j]);
    } else {
      assert DistinctExits(exits[j], exits[i]);
    }
  }

  /** Where a conflict-free write lands: it conflicts with no other exit unless both have the empty txid. */
  lemma UpsertedFits(exits: seq<Exit>, next: Exit, k: nat)
    requires LedgerOk(exits) && Upsert(exits, next).Ok? && k < |exits| && k != IndexOf(exits, next.exitId)
    ensures var i := IndexOf(exits, next.exitId);
      var x := if i < |exits| then MergeExit(exits[i], next) else next;
      && (DistinctExits(exits[k], x) <==> DistinctExits(x, exits[k]))
      && (DistinctExits(exits[k], x) <==> !(TakesEmpty(exits, next) && exits[k].releaseTxid == Some("")))
      && exits[k].exitId != next.exitId
  {
    hide NormalizeTxid;
    var i := IndexOf(exits, next.exitId);
    assert !BurnConflict(exits[k], next) && !ReleaseConflict(exits[k], next);
    if i < |exits| { AreDistinct(exits, k, i); }
    if exits[k].releaseTxid.Some? { NormalizesToEmpty(exits[k].releaseTxid.value); }
    NormalizesToEmpty("");
  }

  /** A successful upsert keeps the ledger's uniqueness, but for one case: the conflict check ignores an empty txid, so
      two exits can both take it. */
  lemma UpsertKeepsLedger(exits: seq<Exit>, next: Exit)
    requires LedgerOk(exits) && Upsert(exits, next).Ok?
    ensures LedgerOk(Upsert(exits, next).value) <==> !(TakesEmpty(exits, next) && OtherHasEmpty(exits, next))
  {
    hide DistinctExits, Conflicts, MergeExit;
    var exits' := Upsert(exits, next).value;
    var i := IndexOf(exits, next.exitId);
    forall k | 0 <= k < |exits| && k != i
      ensures DistinctExits(exits'[k], exits'[i]) <==> DistinctExits(exits'[i], exits'[k])
      ensures DistinctExits(exits'[k], exits'[i]) <==> !(TakesEmpty(exits, next) && exits[k].releaseTxid == Some(""))
      ensures exits[k].exitId != next.exitId
    {
      UpsertedFits(exits, next, k);
    }
    if TakesEmpty(exits, next) && OtherHasEmpty(exits, next) {
      var k :| 0 <= k < |exits| && exits[k].exitId != next.exitId && exits[k].releaseTxid == Some("");
      assert !DistinctExits(exits'[k], exits'[i]) && !DistinctExits(exits'[i], exits'[k]);
    }
  }

  lemma EventKeepsLedger(exits: seq<Exit>, e: IgraEvent)
    requires LedgerOk(exits) && ApplyEvent(exits, e).Ok?
    ensures LedgerOk(ApplyEvent(exits, e).value)
    ensures Evolves(exits, ApplyEvent(exits, e).value)
  {
    if ApplyEvent(exits, e).value != exits {
      var next := if e.ExitRequested? then RequestedExit(e)
                  else
                    var x := exits[IndexOf(exits, e.exitId)];
                    if e.ExitProcessed? then
                      x.(status := Processed, releaseTxid := Some(NormalizeTxid(e.releaseTxid)), releaseBlock := None)
                    else x.(status := Refunded);
      assert ApplyEvent(exits, e) == Upsert(exits, next);
      if e.ExitRefunded? {
        var i := IndexOf(exits, e.exitId);
        assert forall k :: 0 <= k < |exits| && k != i ==> DistinctExits(exits[k], exits[i]) || DistinctExits(exits[i], exits[k]);
      }
      UpsertKeepsLedger(exits, next);
    }
  }

  /** What a match tells about the exit: it is the only exact one and may take the spend's txid. */
  lemma MatchedExit(exits: seq<Exit>, sp: ReserveSpend) returns (i: nat)
    requires LedgerOk(exits) && MatchSpend(sp, exits).Matched?
    ensures i < |exits| && exits[i].exitId == MatchSpend(sp, exits).exitId && IndexOf(exits, exits[i].exitId) == i
    ensures sp.amountGrains.Some? && sp.recipient.Some? && Exact(exits[i], sp)
    ensures forall k :: 0 <= k < |exits| && k != i ==> !Exact(exits[k], sp)
    ensures MatchExact(exits[i], exits, NormalizeTxid(sp.spendTxid)).Matched?
  {
    i := NextExact(exits, sp, 0);
    IndexOfIs(exits, i);
  }

  /** The released exit takes no txid or burn that another exit has. */
  lemma ReleaseFits(exits: seq<Exit>, sp: ReserveSpend, i: nat)
    requires LedgerOk(exits) && i < |exits|
    requires MatchExact(exits[i], exits, NormalizeTxid(sp.spendTxid)).Matched?
    ensures !Conflicts(exits, ReleasedBy(exits[i], sp))
    ensures sp.spendTxid == "" ==> forall k :: 0 <= k < |exits| && k != i ==> exits[k].releaseTxid != Some("")
  {
    var next, txid := ReleasedBy(exits[i], sp), NormalizeTxid(sp.spendTxid);
    forall k | 0 <= k < |exits|
      ensures !BurnConflict(exits[k], next) && !ReleaseConflict(exits[k], next)
      ensures k != i ==> exits[k].releaseTxid.Some? ==> NormalizeTxid(exits[k].releaseTxid.value) != txid
    {
      assert k == i || DistinctExits(exits[k], exits[i]) || DistinctExits(exits[i], exits[k]);
      if k != i && exits[k].releaseTxid.Some? && NormalizeTxid(exits[k].releaseTxid.value) == txid {
        assert TxidUsed(exits, txid);
      }
    }
  }

  /** Applying a spend never meets a conflict, and changes at most the matched exit. */
  lemma ApplySpendKeepsLedger(exits: seq<Exit>, sp: ReserveSpend)
    requires LedgerOk(exits)
    ensures ApplySpend(exits, sp).Ok?
    ensures var exits' := ApplySpend(exits, sp).value;
      LedgerOk(exits') && Evolves(exits, exits') && |exits'| == |exits|
  {
    if MatchSpend(sp, exits).Matched? {
      var i := MatchedExit(exits, sp);
      ReleaseFits(exits, sp, i);
      if ApplySpend(exits, sp) != Ok(exits) {
        UpsertKeepsLedger(exits, ReleasedBy(exits[i], sp));
      }
    }
  }

  lemma {:induction false} ApplierNeverThrows(exits: seq<Exit>, spends: seq<ReserveSpend>)
    requires LedgerOk(exits)
    ensures ApplySpends(exits, spends).Ok?
    ensures var exits' := ApplySpends(exits, spends).value;
      LedgerOk(exits') && Evolves(exits, exits') && |exits'| == |exits|
  {
    if spends != [] {
      var rest := spends[..|spends| - 1];
      ApplierNeverThrows(exits, rest);
      ApplySpendKeepsLedger(ApplySpends(exits, rest).value, spends[|spends| - 1]);
    }
  }

  // ---- Every interleaving ----

  datatype LedgerOp = Igra(event: IgraEvent) | ReserveSpends(spends: seq<ReserveSpend>)

  /** An event whose upsert throws leaves the store as it was. */
  function LedgerStep(exits: seq<Exit>, op: LedgerOp): seq<Exit> {
    var r := match op case Igra(e) => ApplyEvent(exits, e) case ReserveSpends(ss) => ApplySpends(exits, ss);
    if r.Ok? then r.value else exits
  }

  predicate LedgerRun(trace: seq<seq<Exit>>, ops: seq<LedgerOp>) {
    |trace| == |ops| + 1 && forall i :: 0 <= i < |ops| ==> trace[i + 1] == LedgerStep(trace[i], ops[i])
  }

  /**
   Over any interleaving of Igra events and applier runs, in every later state: ids, burns and release
   txids belong to one exit, terminal statuses are absorbing, a processed exit is never pending again
   and a release txid or block once written stays.
   */
  lemma {:induction false} LedgerSafety(trace: seq<seq<Exit>>, ops: seq<LedgerOp>, i: nat, j: nat)
    requires LedgerRun(trace, ops) && trace[0] == [] && i <= j <= |ops|
    ensures LedgerOk(trace[j]) && Evolves(trace[i], trace[j])
    decreases j
  {
    hide LedgerStep, LedgerOk, Evolves;
    if j == 0 {
      EmptyLedger();
    } else {
      LedgerSafety(trace, ops, if i < j then i else j - 1, j - 1);
      assert trace[j - 1 + 1] == LedgerStep(trace[j - 1], ops[j - 1]);
      StepKeepsLedger(trace[j - 1], ops[j - 1]);
      EvolvesOn(trace[if i < j then i else j - 1], trace[j - 1], trace[j]);
      EvolvesOn(trace[j], trace[j], trace[j]);
    }
  }

  lemma EmptyLedger()
    ensures LedgerOk([]) && Evolves([], [])
  {
  }

  lemma EvolvesOn(a: seq<Exit>, b: seq<Exit>, c: seq<Exit>)
    ensures Evolves(a, b) && Evolves(b, c) ==> Evolves(a, c)
    ensures Evolves(a, a)
  {
  }

  lemma StepKeepsLedger(exits: seq<Exit>, op: LedgerOp)
    requires LedgerOk(exits)
    ensures LedgerOk(LedgerStep(exits, op)) && Evolves(exits, LedgerStep(exits, op))
  {
    hide ApplyEvent, ApplySpends, LedgerOk, Evolves;
    EvolvesOn(exits, exits, exits);
    match op {
      case Igra(event) =>
        if ApplyEvent(exits, event).Ok? { EventKeepsLedger(exits, event); }
      case ReserveSpends(spends) =>
        ApplierNeverThrows(exits, spends);
    }
  }
}
