/**
 Reserve accounting across the applier: the snapshot sums of services/bridge-service/src/
 reconciliation.ts before and after reserve-spend-applier.ts has run.

 Main results: `UnknownStaysUnknown`, `KnownStaysKnownIff` and `ReserveExactIff`.
 */
module BridgeReconciliation {
  import opened Wrappers
  import opened BridgeExits

  // ---- The snapshot ----

  predicate Known(sp: ReserveSpend, exits: seq<Exit>) {
    MatchSpend(sp, exits).Matched?
  }

  predicate Open(e: Exit) {
    e.status == Pending || e.status == Processed
  }

  function KnownSpendGrains(spends: seq<ReserveSpend>, exits: seq<Exit>): int {
    if spends == [] then 0
    else
      var sp := spends[|spends| - 1];
      KnownSpendGrains(spends[..|spends| - 1], exits)
      + if Known(sp, exits) && sp.amountGrains.Some? then sp.amountGrains.value else 0
  }

  function PendingExitGrains(exits: seq<Exit>): int {
    if exits == [] then 0
    else
      var e := exits[|exits| - 1];
      PendingExitGrains(exits[..|exits| - 1]) + if Open(e) then e.amountGrains else 0
  }

  function ReserveAvailable(confirmedReserveGrains: int, spends: seq<ReserveSpend>, exits: seq<Exit>): int {
    confirmedReserveGrains - KnownSpendGrains(spends, exits) - PendingExitGrains(exits)
  }

  /** The requested amounts of the exits that were pending or processed before and are released after. */
  function MovedGrains(exits: seq<Exit>, exits': seq<Exit>): int
    requires |exits| == |exits'|
  {
    if exits == [] then 0
    else
      var n := |exits| - 1;
      MovedGrains(exits[..n], exits'[..n])
      + if (exits[n].status == Pending || exits[n].status == Processed) && exits'[n].status == Released then exits[n].amountGrains else 0
  }

  // ---- What applying spends does to the list ----

  /** One exit across applied spends: it may be released, and may take a txid if it had none. */
  predicate Applied(e: Exit, e': Exit) {
    && e'.exitId == e.exitId && e'.amountGrains == e.amountGrains && e'.recipient == e.recipient
    && e'.burnTxid == e.burnTxid && e'.burnLogIndex == e.burnLogIndex
    && (e'.status == e.status || (Candidate(e) && e'.status == Released))
    && (e.releaseTxid.Some? ==> e'.releaseTxid == e.releaseTxid)
    && (e.status == Released ==> e'.releaseTxid == e.releaseTxid)
  }

  predicate AppliedAll(exits: seq<Exit>, exits': seq<Exit>) {
    |exits'| == |exits| && forall i :: 0 <= i < |exits| ==> Applied(exits[i], exits'[i])
  }

  /** A spend changes at most the exit it matches, and releases it. */
  lemma ApplySpendShape(exits: seq<Exit>, sp: ReserveSpend) returns (i: nat)
    requires LedgerOk(exits)
    ensures ApplySpend(exits, sp).Ok? && LedgerOk(ApplySpend(exits, sp).value)
    ensures var exits' := ApplySpend(exits, sp).value;
      && AppliedAll(exits, exits')
      && (!Known(sp, exits) ==> exits' == exits)
      && (Known(sp, exits) ==>
            && i < |exits| && exits[i].exitId == MatchSpend(sp, exits).exitId
            && exits'[i].status == Released
            && exits'[i].releaseTxid == First(exits[i].releaseTxid, Some(sp.spendTxid))
            && MatchExact(exits[i], exits, NormalizeTxid(sp.spendTxid)).Matched?
            && forall k :: 0 <= k < |exits| && k != i ==> exits'[k] == exits[k])
  {
    i := 0;
    ApplySpendKeepsLedger(exits, sp);
    if Known(sp, exits) {
      i := MatchedExit(exits, sp);
    }
  }

  lemma SameNextExact(exits: seq<Exit>, exits': seq<Exit>, sp: ReserveSpend, from: nat)
    requires AppliedAll(exits, exits') && from <= |exits|
    requires sp.amountGrains.Some? && sp.recipient.Some?
    ensures NextExact(exits', sp, from) == NextExact(exits, sp, from)
    decreases |exits| - from
  {
    if from < |exits| {
      assert Applied(exits[from], exits'[from]);
      SameNextExact(exits, exits', sp, from + 1);
    }
  }

  /** The exact exit of a spend is the same before and after; only the verdict about it can change. */
  lemma SameExact(exits: seq<Exit>, exits': seq<Exit>, sp: ReserveSpend) returns (i: nat)
    requires AppliedAll(exits, exits') && (Known(sp, exits) || Known(sp, exits'))
    ensures i < |exits| && exits'[i].exitId == exits[i].exitId && Candidate(exits[i])
    ensures MatchSpend(sp, exits) == MatchExact(exits[i], exits, NormalizeTxid(sp.spendTxid))
    ensures MatchSpend(sp, exits') == MatchExact(exits'[i], exits', NormalizeTxid(sp.spendTxid))
  {
    i := NextExact(exits, sp, 0);
    SameNextExact(exits, exits', sp, 0);
    if i < |exits| { SameNextExact(exits, exits', sp, i + 1); }
  }

  lemma UsedStaysUsed(exits: seq<Exit>, exits': seq<Exit>, txid: string)
    requires AppliedAll(exits, exits') && TxidUsed(exits, txid)
    ensures TxidUsed(exits', txid)
  {
    var k :| 0 <= k < |exits| && exits[k].releaseTxid.Some? && NormalizeTxid(exits[k].releaseTxid.value) == txid;
    assert Applied(exits[k], exits'[k]);
  }

  lemma UnknownStaysUnknownOne(exits: seq<Exit>, a: ReserveSpend, sp: ReserveSpend)
    requires LedgerOk(exits) && ApplySpend(exits, a).Ok?
    requires Known(sp, ApplySpend(exits, a).value)
    ensures MatchSpend(sp, exits) == MatchSpend(sp, ApplySpend(exits, a).value)
  {
    var exits', txid := ApplySpend(exits, a).value, NormalizeTxid(sp.spendTxid);
    var j := ApplySpendShape(exits, a);
    var i := SameExact(exits, exits', sp);
    if TxidUsed(exits, txid) { UsedStaysUsed(exits, exits', txid); }
  }

  /** Applying spends never turns an unknown reserve spend into a known one, nor moves a known one to another exit. */
  lemma {:induction false} UnknownStaysUnknown(exits: seq<Exit>, applied: seq<ReserveSpend>, sp: ReserveSpend)
    requires LedgerOk(exits)
    ensures ApplySpends(exits, applied).Ok? && LedgerOk(ApplySpends(exits, applied).value)
    ensures Known(sp, ApplySpends(exits, applied).value) ==>
      MatchSpend(sp, exits) == MatchSpend(sp, ApplySpends(exits, applied).value)
  {
    ApplierNeverThrows(exits, applied);
    if applied != [] && Known(sp, ApplySpends(exits, applied).value) {
      var rest := applied[..|applied| - 1];
      UnknownStaysUnknown(exits, rest, sp);
      UnknownStaysUnknownOne(ApplySpends(exits, rest).value, applied[|applied| - 1], sp);
    }
  }

  // ---- Conservation ----

  /** What runs of the ledger establish: an exit without a verdict has no txid, and no txid is empty. */
  predicate TxidsOk(exits: seq<Exit>) {
    forall i :: 0 <= i < |exits| ==>
      exits[i].releaseTxid != Some("") && (Rank(exits[i].status) == 0 ==> exits[i].releaseTxid.None?)
  }

  lemma AppliedTrans(a: seq<Exit>, b: seq<Exit>, c: seq<Exit>)
    requires AppliedAll(a, b) && AppliedAll(b, c)
    ensures AppliedAll(a, c)
  {
    forall i | 0 <= i < |a|
      ensures Applied(a[i], c[i])
    {
      assert Applied(a[i], b[i]) && Applied(b[i], c[i]);
    }
  }

  lemma {:induction false} SpendsApply(exits: seq<Exit>, applied: seq<ReserveSpend>)
    requires LedgerOk(exits)
    ensures ApplySpends(exits, applied).Ok? && LedgerOk(ApplySpends(exits, applied).value)
    ensures AppliedAll(exits, ApplySpends(exits, applied).value)
  {
    hide LedgerOk, ApplySpend, AppliedAll;
    if applied != [] {
      var rest := applied[..|applied| - 1];
      SpendsApply(exits, rest);
      var mid := ApplySpends(exits, rest).value;
      var i := ApplySpendShape(mid, applied[|applied| - 1]);
      AppliedTrans(exits, mid, ApplySpends(exits, applied).value);
    } else {
      AppliedToItself(exits);
    }
  }

  lemma AppliedToItself(exits: seq<Exit>)
    ensures AppliedAll(exits, exits)
  {
  }

  /** The exit a spend would release, and the txid it would release it with. */
  datatype Claim = Claim(exitId: string, txid: string)

  function ClaimOf(sp: ReserveSpend, exits: seq<Exit>): Claim
    requires Known(sp, exits)
  {
    Claim(MatchSpend(sp, exits).exitId, NormalizeTxid(sp.spendTxid))
  }

  /** Two claims on one exit with different txids, or with one txid on different exits. */
  predicate Clash(a: Claim, b: Claim) {
    (a.exitId == b.exitId) != (a.txid == b.txid)
  }

  /** The claims that are granted, first come first served, as the exits stand before any is. */
  function Granted(applied: seq<ReserveSpend>, exits: seq<Exit>): set<Claim> {
    if applied == [] then {}
    else
      var before, a := Granted(applied[..|applied| - 1], exits), applied[|applied| - 1];
      if Known(a, exits) && Free(ClaimOf(a, exits), before) then before + {ClaimOf(a, exits)} else before
  }

  predicate Free(claim: Claim, granted: set<Claim>) {
    forall c :: c in granted ==> !Clash(c, claim)
  }

  lemma SameExitStays(exits: seq<Exit>, exits': seq<Exit>, i: nat, released: string, txid: string)
    requires TxidsOk(exits) && i < |exits| == |exits'| && Candidate(exits[i]) && released != ""
    requires MatchExact(exits[i], exits, NormalizeTxid(released)).Matched? && MatchExact(exits[i], exits, txid).Matched?
    requires exits'[i].status == Released && exits'[i].releaseTxid == First(exits[i].releaseTxid, Some(released))
    ensures MatchExact(exits'[i], exits', txid).Matched? <==> NormalizeTxid(released) == txid
  {
    hide NormalizeTxid, TxidUsed;
  }

  lemma OtherExitStays(exits: seq<Exit>, exits': seq<Exit>, i: nat, j: nat, released: string, txid: string)
    requires LedgerOk(exits) && TxidsOk(exits) && AppliedAll(exits, exits') && i < |exits| && j < |exits| && i != j
    requires forall k :: 0 <= k < |exits| && k != j ==> exits'[k] == exits[k]
    requires MatchExact(exits[j], exits, NormalizeTxid(released)).Matched? && MatchExact(exits[i], exits, txid).Matched? && released != ""
    requires Candidate(exits[j])
    requires exits'[j].releaseTxid == First(exits[j].releaseTxid, Some(released))
    ensures MatchExact(exits'[i], exits', txid).Matched? <==> NormalizeTxid(released) != txid
  {
    hide NormalizeTxid, TxidUsed, AppliedAll;
    AreDistinct(exits, i, j);
    UsedNext(exits, exits', j, txid);
    UsedBy(exits, i);
    UsedBy(exits, j);
  }

  lemma UsedBy(exits: seq<Exit>, i: nat)
    requires i < |exits|
    ensures exits[i].releaseTxid.Some? ==> TxidUsed(exits, NormalizeTxid(exits[i].releaseTxid.value))
  {
  }

  /** After one applied spend another known one stays known exactly when their claims do not clash. */
  lemma StaysKnownIffOne(exits: seq<Exit>, a: ReserveSpend, sp: ReserveSpend)
    requires LedgerOk(exits) && TxidsOk(exits) && a.spendTxid != "" && Known(sp, exits) && Known(a, exits)
    ensures ApplySpend(exits, a).Ok?
    ensures Known(sp, ApplySpend(exits, a).value) <==> !Clash(ClaimOf(a, exits), ClaimOf(sp, exits))
  {
    hide NormalizeTxid, MatchExact, ApplySpend, MatchSpend, TxidsOk;
    var j := ApplySpendShape(exits, a);
    var exits', txid := ApplySpend(exits, a).value, NormalizeTxid(sp.spendTxid);
    var i := SameExact(exits, exits', sp);
    var ja := SameExact(exits, exits, a);
    MatchesItsExit(exits, i, txid);
    MatchesItsExit(exits, ja, NormalizeTxid(a.spendTxid));
    MatchesItsExit(exits', i, txid);
    IndexOfIs(exits, i);
    IndexOfIs(exits, j);
    IndexOfIs(exits, ja);
    if i == j {
      SameExitStays(exits, exits', i, a.spendTxid, txid);
    } else {
      OtherExitStays(exits, exits', i, j, a.spendTxid, txid);
    }
  }

  lemma MatchesItsExit(exits: seq<Exit>, i: nat, txid: string)
    requires i < |exits|
    ensures MatchExact(exits[i], exits, txid).Matched? ==> MatchExact(exits[i], exits, txid) == Matched(exits[i].exitId)
  {
  }

  lemma UsedNext(exits: seq<Exit>, exits': seq<Exit>, j: nat, txid: string)
    requires AppliedAll(exits, exits') && j < |exits| && forall k :: 0 <= k < |exits| && k != j ==> exits'[k] == exits[k]
    ensures TxidUsed(exits', txid) <==>
      TxidUsed(exits, txid) || (exits'[j].releaseTxid.Some? && NormalizeTxid(exits'[j].releaseTxid.value) == txid)
  {
    if TxidUsed(exits, txid) { UsedStaysUsed(exits, exits', txid); }
  }

  lemma StaysKnownStep(exits: seq<Exit>, a: ReserveSpend, sp: ReserveSpend)
    requires LedgerOk(exits) && TxidsOk(exits) && a.spendTxid != ""
    ensures ApplySpend(exits, a).Ok?
    ensures Known(sp, ApplySpend(exits, a).value) <==>
      Known(sp, exits) && (Known(a, exits) ==> !Clash(ClaimOf(a, exits), ClaimOf(sp, exits)))
  {
    hide Clash, LedgerOk, TxidsOk, MatchSpend;
    var j := ApplySpendShape(exits, a);
    if Known(sp, ApplySpend(exits, a).value) { UnknownStaysUnknownOne(exits, a, sp); }
    if Known(sp, exits) && Known(a, exits) { StaysKnownIffOne(exits, a, sp); }
  }

  /** After any list of applied spends a spend is known exactly when it was known before and its claim clashes with none
      of the granted ones. */
  lemma {:induction false} KnownStaysKnownIff(exits: seq<Exit>, applied: seq<ReserveSpend>, sp: ReserveSpend)
    requires LedgerOk(exits) && TxidsOk(exits) && forall a :: a in applied ==> a.spendTxid != ""
    ensures ApplySpends(exits, applied).Ok? && LedgerOk(ApplySpends(exits, applied).value) && TxidsOk(ApplySpends(exits, applied).value)
    ensures Known(sp, ApplySpends(exits, applied).value) <==> Known(sp, exits) && Free(ClaimOf(sp, exits), Granted(applied, exits))
  {
    hide LedgerOk, TxidsOk, Clash, ApplySpend, MatchSpend;
    if applied != [] {
      var rest, a := applied[..|applied| - 1], applied[|applied| - 1];
      KnownStaysKnownIff(exits, rest, sp);
      KnownStaysKnownIff(exits, rest, a);
      var mid := ApplySpends(exits, rest).value;
      SameClaim(exits, rest, sp);
      SameClaim(exits, rest, a);
      TxidsStayOk(mid, a);
      var i := ApplySpendShape(mid, a);
      StaysKnownStep(mid, a, sp);
    }
  }

  lemma SameClaim(exits: seq<Exit>, applied: seq<ReserveSpend>, sp: ReserveSpend)
    requires LedgerOk(exits)
    ensures ApplySpends(exits, applied).Ok?
    ensures Known(sp, ApplySpends(exits, applied).value) ==>
      Known(sp, exits) && ClaimOf(sp, ApplySpends(exits, applied).value) == ClaimOf(sp, exits)
  {
    UnknownStaysUnknown(exits, applied, sp);
  }

  lemma TxidsStayOk(exits: seq<Exit>, a: ReserveSpend)
    requires LedgerOk(exits) && TxidsOk(exits) && a.spendTxid != ""
    ensures ApplySpend(exits, a).Ok? && TxidsOk(ApplySpend(exits, a).value)
  {
    var i := ApplySpendShape(exits, a);
  }

  /** A spend that counts before and not after. */
  predicate Lost(sp: ReserveSpend, exits: seq<Exit>, exits': seq<Exit>) {
    Known(sp, exits) && !Known(sp, exits') && sp.amountGrains.Some? && sp.amountGrains.value > 0
  }

  lemma {:induction false} KnownSums(spends: seq<ReserveSpend>, exits: seq<Exit>, exits': seq<Exit>)
    requires forall sp :: sp in spends && Known(sp, exits') ==> Known(sp, exits)
    ensures KnownSpendGrains(spends, exits') <= KnownSpendGrains(spends, exits)
    ensures KnownSpendGrains(spends, exits') == KnownSpendGrains(spends, exits) <==> forall sp :: sp in spends ==> !Lost(sp, exits, exits')
  {
    hide Known;
    if spends != [] {
      var n := |spends| - 1;
      KnownSums(spends[..n], exits, exits');
      assert spends == spends[..n] + [spends[n]];
      assert spends[n] in spends;
    }
  }

  lemma {:induction false} PendingMoves(exits: seq<Exit>, exits': seq<Exit>)
    requires AppliedAll(exits, exits')
    ensures PendingExitGrains(exits) == PendingExitGrains(exits') + MovedGrains(exits, exits')
  {
    if exits != [] {
      var n := |exits| - 1;
      PendingMoves(exits[..n], exits'[..n]);
      assert Applied(exits[n], exits'[n]);
    }
  }

  /**
   Applying spends raises the available reserve by at least the requested amounts of the exits it moves to released,
   and by exactly those if and only if every spend that counted, with a positive amount, still does.
   */
  lemma ReserveAvailableMoves(confirmed: int, spends: seq<ReserveSpend>, applied: seq<ReserveSpend>, exits: seq<Exit>)
    requires LedgerOk(exits)
    ensures ApplySpends(exits, applied).Ok?
    ensures var exits' := ApplySpends(exits, applied).value;
      && |exits'| == |exits|
      && var exact := ReserveAvailable(confirmed, spends, exits) + MovedGrains(exits, exits');
         && ReserveAvailable(confirmed, spends, exits') >= exact
         && (ReserveAvailable(confirmed, spends, exits') == exact <==> forall sp :: sp in spends ==> !Lost(sp, exits, exits'))
  {
    hide Known, LedgerOk, Lost, MovedGrains;
    SpendsApply(exits, applied);
    var exits' := ApplySpends(exits, applied).value;
    forall sp | sp in spends && Known(sp, exits')
      ensures Known(sp, exits)
    {
      StayedUnknown(exits, applied, sp);
    }
    KnownSums(spends, exits, exits');
    PendingMoves(exits, exits');
  }

  lemma StayedUnknown(exits: seq<Exit>, applied: seq<ReserveSpend>, sp: ReserveSpend)
    requires LedgerOk(exits)
    ensures ApplySpends(exits, applied).Ok?
    ensures Known(sp, ApplySpends(exits, applied).value) ==> Known(sp, exits)
  {
    UnknownStaysUnknown(exits, applied, sp);
  }

  /** The same in terms of the ledger before the call: the rise is exact if and only if no spend that counts, with a
      positive amount, clashes with a granted claim. */
  lemma ReserveExactIff(confirmed: int, spends: seq<ReserveSpend>, applied: seq<ReserveSpend>, exits: seq<Exit>)
    requires LedgerOk(exits) && TxidsOk(exits) && forall a :: a in applied ==> a.spendTxid != ""
    ensures ApplySpends(exits, applied).Ok? && |ApplySpends(exits, applied).value| == |exits|
    ensures var exits' := ApplySpends(exits, applied).value;
      ReserveAvailable(confirmed, spends, exits') == ReserveAvailable(confirmed, spends, exits) + MovedGrains(exits, exits') <==>
      forall sp :: sp in spends && Known(sp, exits) && sp.amountGrains.Some? && sp.amountGrains.value > 0 ==>
        Free(ClaimOf(sp, exits), Granted(applied, exits))
  {
    hide Known, LedgerOk, TxidsOk, MovedGrains, ReserveAvailable, Free, ClaimOf;
    ReserveAvailableMoves(confirmed, spends, applied, exits);
    var exits' := ApplySpends(exits, applied).value;
    forall sp | sp in spends
      ensures Lost(sp, exits, exits') <==>
        Known(sp, exits) && sp.amountGrains.Some? && sp.amountGrains.value > 0 && !Free(ClaimOf(sp, exits), Granted(applied, exits))
    {
      KnownStaysKnownIff(exits, applied, sp);
    }
  }

  /** Among the known spends, a txid belongs to one exit and an exit to one txid. */
  predicate OneToOne(spends: seq<ReserveSpend>, exits: seq<Exit>) {
    forall s, t :: s in spends && t in spends && Known(s, exits) && Known(t, exits) ==> !Clash(ClaimOf(s, exits), ClaimOf(t, exits))
  }

  lemma {:induction false} GrantedClaim(applied: seq<ReserveSpend>, exits: seq<Exit>, c: Claim) returns (a: ReserveSpend)
    requires c in Granted(applied, exits)
    ensures a in applied && Known(a, exits) && ClaimOf(a, exits) == c
  {
    hide Known, ClaimOf, Free;
    var rest := applied[..|applied| - 1];
    a := applied[|applied| - 1];
    if c in Granted(rest, exits) {
      a := GrantedClaim(rest, exits, c);
    }
  }

  /** In particular the rise is exact where matched txids and exits correspond one to one. */
  lemma OneToOneIsExact(confirmed: int, spends: seq<ReserveSpend>, applied: seq<ReserveSpend>, exits: seq<Exit>)
    requires LedgerOk(exits) && TxidsOk(exits) && OneToOne(spends + applied, exits)
    requires forall a :: a in applied ==> a.spendTxid != ""
    ensures ApplySpends(exits, applied).Ok? && |ApplySpends(exits, applied).value| == |exits|
    ensures var exits' := ApplySpends(exits, applied).value;
      ReserveAvailable(confirmed, spends, exits') == ReserveAvailable(confirmed, spends, exits) + MovedGrains(exits, exits')
  {
    hide Known, ClaimOf, Clash, LedgerOk, TxidsOk, Granted, ReserveAvailable, MovedGrains;
    ReserveExactIff(confirmed, spends, applied, exits);
    forall sp, c | sp in spends && Known(sp, exits) && c in Granted(applied, exits)
      ensures !Clash(c, ClaimOf(sp, exits))
    {
      var a := GrantedClaim(applied, exits, c);
      assert a in spends + applied && sp in spends + applied;
    }
  }

  /** Runs of the ledger keep the txid conditions, as long as no applied spend has an empty txid. */
  lemma {:induction false} RunKeepsTxids(trace: seq<seq<Exit>>, ops: seq<LedgerOp>)
    requires LedgerRun(trace, ops) && trace[0] == []
    requires forall i, sp :: 0 <= i < |ops| && ops[i].ReserveSpends? && sp in ops[i].spends ==> sp.spendTxid != ""
    ensures TxidsOk(trace[|ops|])
    decreases |ops|
  {
    if ops != [] {
      var n := |ops| - 1;
      RunKeepsTxids(trace[..n + 1], ops[..n]);
      LedgerSafety(trace, ops, n, n);
      assert trace[n + 1] == LedgerStep(trace[n], ops[n]);
      if ops[n].Igra? {
        EventKeepsTxids(trace[n], ops[n].event);
      } else {
        SpendsKeepTxids(trace[n], ops[n].spends);
      }
    }
  }

  lemma EventKeepsTxids(exits: seq<Exit>, e: IgraEvent)
    requires TxidsOk(exits)
    ensures TxidsOk(LedgerStep(exits, Igra(e)))
  {
    if e.ExitProcessed? && e.releaseTxid != "" {
      assert |NormalizeTxid(e.releaseTxid)| > 0;
    }
  }

  lemma {:induction false} SpendsKeepTxids(exits: seq<Exit>, spends: seq<ReserveSpend>)
    requires LedgerOk(exits) && TxidsOk(exits) && forall sp :: sp in spends ==> sp.spendTxid != ""
    ensures ApplySpends(exits, spends).Ok? && TxidsOk(ApplySpends(exits, spends).value)
  {
    ApplierNeverThrows(exits, spends);
    if spends != [] {
      var rest := spends[..|spends| - 1];
      SpendsKeepTxids(exits, rest);
      ApplierNeverThrows(exits, rest);
      TxidsStayOk(ApplySpends(exits, rest).value, spends[|spends| - 1]);
    }
  }

  lemma FirstSpendReleases(e: Exit, s: ReserveSpend)
    requires e == Exit("e", "burn", 0, 5, "r", Pending, None, None) && s == ReserveSpend("s", 1, true, Some(5), Some("r"))
    ensures MatchSpend(s, [e]) == Matched("e")
    ensures ApplySpend([e], s) == Ok([e.(status := Released, releaseTxid := Some("s"), releaseBlock := Some(1))])
  {
    var e' := e.(status := Released, releaseTxid := Some("s"), releaseBlock := Some(1));
    assert IndexOf([e], "e") == 0 && !Conflicts([e], ReleasedBy(e, s));
    assert [e][0 := e'] == [e'];
  }

  /** Where claims clash the rise is too high: two spends of one pending exit free both amounts at once. */
  lemma TwoSpendsOfOneExit()
    ensures var e := Exit("e", "burn", 0, 5, "r", Pending, None, None);
      var s := ReserveSpend("s", 1, true, Some(5), Some("r"));
      var t := ReserveSpend("t", 2, true, Some(5), Some("r"));
      && ApplySpends([e], [s, t]).Ok?
      && var exits' := ApplySpends([e], [s, t]).value;
      && |exits'| == 1 && MovedGrains([e], exits') == 5
      && ReserveAvailable(100, [s, t], exits') == ReserveAvailable(100, [s, t], [e]) + 10
  {
    var e := Exit("e", "burn", 0, 5, "r", Pending, None, None);
    var s := ReserveSpend("s", 1, true, Some(5), Some("r"));
    var t := ReserveSpend("t", 2, true, Some(5), Some("r"));
    assert Lower("s")[0] == 's' && Lower("t")[0] == 't';
    var e' := e.(status := Released, releaseTxid := Some("s"), releaseBlock := Some(1));
    FirstSpendReleases(e, s);
    assert MatchSpend(t, [e]) == Matched("e");
    assert MatchSpend(s, [e']) == Matched("e") && MatchSpend(t, [e']) == DuplicateReleaseTxid;
    assert [s, t][..1] == [s] && [s][..0] == [] && [e][..0] == [] && [e'][..0] == [];
    assert ApplySpends([e], [s]) == Ok([e']);
    assert ApplySpends([e], [s, t]) == Ok([e']);
    assert KnownSpendGrains([s], [e]) == 5 && KnownSpendGrains([s], [e']) == 5;
  }
}
