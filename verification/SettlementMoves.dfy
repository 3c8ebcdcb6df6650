/**
 What an iteration of the settlement worker does to a trade, in terms of what was seen of it: services/settlement-worker/src/
 settlement-loop.ts with the decisions of decision-engine.ts, after any run.

 `IterationMoves` gives the state each trade is left in, `IterationPrepares` what is handed to signer and broadcaster.
 */
module SettlementMoves {
  import opened Wrappers
  import opened TradeStates
  import opened Settlement
  import opened SettlementRuns

  // ---- What is due ----

  /** The worker does not list the trade any more. */
  predicate Closed(s: TradeState) {
    s in {TradeState.Released, TradeState.Refunded, TradeState.Cancelled, FailedManualReview}
  }

  /** State or observation is one only an operator resolves. */
  predicate MustReview(t: Trade, o: Observation) {
    || t.state in {LatePrlFunding, UsdcRefunded, PrlReleaseFailed, TradeState.AmountMismatch, TradeState.Reorged,
                   StaleIndexer, TradeState.UnknownSpend}
    || o.pearl.status in {PearlStatus.AmountMismatch, PearlStatus.Reorged, PearlStatus.UnknownSpend, Late}
    || (o.pearl.status in {Seen, Confirmed} && o.pearl.observedAt > t.deadlines.pearlFundingDeadline)
    || o.base.status in {BaseStatus.Reorged, Stale}
    || (o.base.status == BaseStatus.Released && o.pearl.status != PearlStatus.Released)
    || (o.base.status == BaseStatus.Refunded && o.pearl.status !in {PearlStatus.Refunded, Missing})
  }

  predicate ReviewDue(t: Trade, o: Observation) {
    !Closed(t.state) && MustReview(t, o)
  }

  predicate Workable(t: Trade, o: Observation) {
    !Closed(t.state) && t.state != QuoteExpired && !MustReview(t, o)
  }

  /** Both legs were seen released. */
  predicate ReleasedDue(t: Trade, o: Observation) {
    Workable(t, o) && o.pearl.status == PearlStatus.Released && o.base.status == BaseStatus.Released
  }

  /** The PRL was seen refunded. */
  predicate RefundedDue(t: Trade, o: Observation) {
    Workable(t, o) && o.pearl.status == PearlStatus.Refunded
  }

  /** The trade's USDC was confirmed, both legs are seen funded deep enough and in time, and the buyer has authorised the release. */
  predicate PrlReleaseDue(t: Trade, o: Observation) {
    && t.state == UsdcEscrowConfirmed && o.pearl.status == Confirmed && o.base.status == BaseStatus.Deposited
    && o.pearl.confirmations >= t.pearlConfirmations && o.base.confirmations >= t.baseConfirmations
    && o.pearl.observedAt <= t.deadlines.pearlFundingDeadline
    && (t.escrowMode == Some(Multisig) ==>
          t.signingMode == Some(PreauthorizeRelease) && t.presignature == Some(Presignature(false)))
  }

  /** The PRL is seen funded, the USDC never arrived, and refunds are open. */
  predicate PrlRefundDue(t: Trade, o: Observation, now: int) {
    && Workable(t, o) && o.pearl.status in {Seen, Confirmed}
    && o.base.status in {NoEscrow, BaseStatus.Created, BaseStatus.Cancelled} && t.deadlines.refundAvailableAt <= now
  }

  /** The PRL was seen released while the USDC is still held. */
  predicate UsdcReleaseDue(t: Trade, o: Observation) {
    Workable(t, o) && o.pearl.status == PearlStatus.Released && o.base.status == BaseStatus.Deposited
  }

  /** No decision of this kind was taken in this state on this observation. */
  ghost predicate New(w: World, action: Action, t: Trade, o: Observation) {
    Decision(action, Snapshot(t.tradeId, t.state, t.deadlines, o)) !in w.decisions
  }

  /** Each decision is taken exactly where it is due. */
  lemma DecideIs(t: Trade, o: Observation, now: int)
    requires !Closed(t.state)
    ensures Decide(t, o, now).ManualReview? <==> ReviewDue(t, o)
    ensures Decide(t, o, now).MarkReleased? <==> ReleasedDue(t, o)
    ensures Decide(t, o, now).MarkRefunded? <==> RefundedDue(t, o)
    ensures Decide(t, o, now).PreparePrlRelease? <==> PrlReleaseDue(t, o)
    ensures Decide(t, o, now).PreparePrlRefund? <==> PrlRefundDue(t, o, now)
    ensures Decide(t, o, now).PrepareUsdcRelease? <==> UsdcReleaseDue(t, o)
  {
    hide IsTerminal;
    TerminalStates(t.state);
  }

  // ---- One turn of the loop ----

  function Target(action: Action, s: TradeState): TradeState {
    match action
    case ManualReview => FailedManualReview
    case PreparePrlRelease => ReleasePending
    case PreparePrlRefund => RefundPending
    case MarkReleased => TradeState.Released
    case MarkRefunded => TradeState.Refunded
    case Wait => s
    case PrepareUsdcRelease => s
  }

  function Worked(decisions: set<Decision>, t: Trade, observe: string -> Observation, now: int): Trade {
    var d := DecisionOn(t, observe, now);
    if d in decisions then t else t.(state := Target(d.action, t.state))
  }

  predicate ForBroadcaster(d: Decision) {
    d.action.PrepareUsdcRelease?
  }

  lemma TurnIs(w: World, i: nat, observe: string -> Observation, now: int)
    requires DistinctTrades(w.trades) && i < |w.trades|
    ensures var t := w.trades[i];
      var d := DecisionOn(t, observe, now);
      var w' := WorkOn(w, t, observe(t.tradeId), now);
      && w'.trades == w.trades[i := Worked(w.decisions, t, observe, now)]
      && w'.decisions == w.decisions + {d}
      && w'.signer == (if ForSigner(d) && d !in w.decisions then w.signer + [d] else w.signer)
      && w'.broadcaster == (if ForBroadcaster(d) && d !in w.decisions then w.broadcaster + [d] else w.broadcaster)
  {
    hide Decide, FindTrade;
    FindIs(w.trades, i);
  }

  // ---- The loop ----

  ghost predicate DecidedFor(w: World, at: seq<nat>, observe: string -> Observation, now: int, d: Decision)
    requires forall k :: 0 <= k < |at| ==> at[k] < |w.trades|
  {
    exists k :: 0 <= k < |at| && d == DecisionOn(w.trades[at[k]], observe, now)
  }

  /** The entries a list gained are the new decisions for it. */
  ghost predicate Gained(before: seq<Decision>, after: seq<Decision>, w: World, at: seq<nat>, observe: string -> Observation, now: int,
                         kind: Decision -> bool)
    requires forall k :: 0 <= k < |at| ==> at[k] < |w.trades|
  {
    && before <= after
    && forall d :: d in after[|before|..] <==>
         d !in w.decisions && kind(d) && DecidedFor(w, at, observe, now, d)
  }

  /** Each listed trade was worked on once, as listed; the others are as they were. */
  ghost predicate AllWorked(w: World, w': World, at: seq<nat>, observe: string -> Observation, now: int)
    requires forall k :: 0 <= k < |at| ==> at[k] < |w.trades|
  {
    && |w'.trades| == |w.trades|
    && (forall j :: 0 <= j < |w.trades| ==>
          w'.trades[j] == if j in at then Worked(w.decisions, w.trades[j], observe, now) else w.trades[j])
    && (forall d :: d in w'.decisions <==> d in w.decisions || DecidedFor(w, at, observe, now, d))
    && Gained(w.signer, w'.signer, w, at, observe, now, ForSigner)
    && Gained(w.broadcaster, w'.broadcaster, w, at, observe, now, ForBroadcaster)
  }

  lemma GainedOne(before: seq<Decision>, mid: seq<Decision>, after: seq<Decision>, w: World, at: seq<nat>, observe: string -> Observation,
                  now: int, kind: Decision -> bool)
    requires at != [] && forall k :: 0 <= k < |at| ==> at[k] < |w.trades|
    requires Gained(before, mid, w, at[..|at| - 1], observe, now, kind)
    requires var d := DecisionOn(w.trades[at[|at| - 1]], observe, now);
      after == if kind(d) && d !in w.decisions then mid + [d] else mid
    ensures Gained(before, after, w, at, observe, now, kind)
  {
    hide DecisionFor;
    var n := |at| - 1;
    forall d
      ensures d in after[|before|..] <==>
        d in mid[|before|..] || (d == DecisionOn(w.trades[at[n]], observe, now) && kind(d) && d !in w.decisions)
    {
      assert after != mid ==> after[|before|..] == mid[|before|..] + [DecisionOn(w.trades[at[n]], observe, now)];
    }
    DecidedOneMore(w, at, observe, now);
  }

  lemma {:induction false} LoopIs(w: World, at: seq<nat>, observe: string -> Observation, now: int)
    requires DistinctTrades(w.trades)
    requires forall k :: 0 <= k < |at| ==> at[k] < |w.trades|
    requires forall k, l :: 0 <= k < l < |at| ==> at[k] < at[l]
    ensures AllWorked(w, WorkThrough(w, TradesAt(w.trades, at), observe, now), at, observe, now)
  {
    hide WorkOn, DecisionFor, Worked, Gained;
    if at != [] {
      var n := |at| - 1;
      var open := TradesAt(w.trades, at);
      assert open[..n] == TradesAt(w.trades, at[..n]);
      LoopIs(w, at[..n], observe, now);
      var w1 := WorkThrough(w, open[..n], observe, now);
      LoopStep(w, w1, at, observe, now);
    } else {
      NothingGained(w, observe, now);
    }
  }

  lemma NothingGained(w: World, observe: string -> Observation, now: int)
    ensures Gained(w.signer, w.signer, w, [], observe, now, ForSigner)
    ensures Gained(w.broadcaster, w.broadcaster, w, [], observe, now, ForBroadcaster)
  {
  }

  /** The decision for a trade the loop has not reached is as new as it was at the start. */
  lemma StillNew(w: World, w1: World, at: seq<nat>, observe: string -> Observation, now: int)
    requires at != [] && DistinctTrades(w.trades)
    requires forall k :: 0 <= k < |at| ==> at[k] < |w.trades|
    requires forall k, l :: 0 <= k < l < |at| ==> at[k] < at[l]
    requires AllWorked(w, w1, at[..|at| - 1], observe, now)
    ensures var d := DecisionOn(w.trades[at[|at| - 1]], observe, now); d in w1.decisions <==> d in w.decisions
  {
    hide DecisionFor, Gained, Worked;
    var n := |at| - 1;
    OnItsTrade(w.trades[at[n]], observe, now);
    forall k | 0 <= k < n
      ensures DecisionOn(w.trades[at[..n][k]], observe, now) != DecisionOn(w.trades[at[n]], observe, now)
    {
      OnItsTrade(w.trades[at[k]], observe, now);
    }
  }

  lemma LoopStep(w: World, w1: World, at: seq<nat>, observe: string -> Observation, now: int)
    requires at != [] && DistinctTrades(w.trades)
    requires forall k :: 0 <= k < |at| ==> at[k] < |w.trades|
    requires forall k, l :: 0 <= k < l < |at| ==> at[k] < at[l]
    requires AllWorked(w, w1, at[..|at| - 1], observe, now)
    ensures var t := w.trades[at[|at| - 1]]; AllWorked(w, WorkOn(w1, t, observe(t.tradeId), now), at, observe, now)
  {
    hide WorkOn, DecisionFor, Gained, ForSigner, ForBroadcaster;
    var n := |at| - 1;
    var t := w.trades[at[n]];
    var w' := WorkOn(w1, t, observe(t.tradeId), now);
    SameIdsDistinct(w, w1, at[..n], observe, now);
    assert w1.trades[at[n]] == t;
    TurnIs(w1, at[n], observe, now);
    StillNew(w, w1, at, observe, now);
    GainedOne(w.signer, w1.signer, w'.signer, w, at, observe, now, ForSigner);
    GainedOne(w.broadcaster, w1.broadcaster, w'.broadcaster, w, at, observe, now, ForBroadcaster);
    DecidedOneMore(w, at, observe, now);
    assert forall j :: j in at <==> j in at[..n] || j == at[n];
  }

  lemma SameIdsDistinct(w: World, w1: World, at: seq<nat>, observe: string -> Observation, now: int)
    requires DistinctTrades(w.trades) && forall k :: 0 <= k < |at| ==> at[k] < |w.trades|
    requires AllWorked(w, w1, at, observe, now)
    ensures DistinctTrades(w1.trades)
  {
    hide DecisionFor, Gained;
    assert forall j :: 0 <= j < |w.trades| ==> w1.trades[j].tradeId == w.trades[j].tradeId;
  }

  lemma DecidedOneMore(w: World, at: seq<nat>, observe: string -> Observation, now: int)
    requires at != [] && forall k :: 0 <= k < |at| ==> at[k] < |w.trades|
    ensures var n := |at| - 1;
      forall d :: DecidedFor(w, at, observe, now, d) <==>
        DecidedFor(w, at[..n], observe, now, d) || d == DecisionOn(w.trades[at[n]], observe, now)
  {
    hide DecisionFor;
    var n := |at| - 1;
    forall d | DecidedFor(w, at[..n], observe, now, d)
      ensures DecidedFor(w, at, observe, now, d)
    {
      var k :| 0 <= k < n && d == DecisionOn(w.trades[at[..n][k]], observe, now);
      assert d == DecisionOn(w.trades[at[k]], observe, now);
    }
    forall d | DecidedFor(w, at, observe, now, d) && d != DecisionOn(w.trades[at[n]], observe, now)
      ensures DecidedFor(w, at[..n], observe, now, d)
    {
      var k :| 0 <= k < |at| && d == DecisionOn(w.trades[at[k]], observe, now);
      assert d == DecisionOn(w.trades[at[..n][k]], observe, now);
    }
  }

  // ---- Main results ----

  lemma IterationIs(trades: seq<Trade>, events: seq<Event>, observe: string -> Observation, now: int) returns (at: seq<nat>)
    requires DistinctTrades(trades)
    ensures var w, w' := Run(trades, events), Run(trades, events + [Iteration(now, observe)]);
      && DistinctTrades(w.trades)
      && (forall k :: 0 <= k < |at| ==> at[k] < |w.trades|)
      && (forall i :: 0 <= i < |w.trades| ==> (i in at <==> !Closed(w.trades[i].state)))
      && AllWorked(w, w', at, observe, now)
  {
    hide AllWorked, WorkThrough, OpenTrades, Inv;
    var w := Run(trades, events);
    RunKeepsInv(trades, events);
    InvIs(w);
    assert (events + [Iteration(now, observe)])[..|events|] == events;
    at := OpenIndices(w.trades);
    LoopIs(w, at, observe, now);
  }

  /** After any run, an iteration leaves each trade in the state its legs call for, if that was not decided before in this
      state on this very observation, and otherwise as it was. */
  lemma IterationMoves(trades: seq<Trade>, events: seq<Event>, observe: string -> Observation, now: int, i: nat)
    requires DistinctTrades(trades) && i < |Run(trades, events).trades|
    ensures var w, w' := Run(trades, events), Run(trades, events + [Iteration(now, observe)]);
      var t, o := w.trades[i], observe(w.trades[i].tradeId);
      && i < |w'.trades|
      && w'.trades[i] == t.(state :=
           if ReviewDue(t, o) && New(w, ManualReview, t, o) then FailedManualReview
           else if ReleasedDue(t, o) && New(w, MarkReleased, t, o) then TradeState.Released
           else if RefundedDue(t, o) && New(w, MarkRefunded, t, o) then TradeState.Refunded
           else if PrlReleaseDue(t, o) && New(w, PreparePrlRelease, t, o) then ReleasePending
           else if PrlRefundDue(t, o, now) && New(w, PreparePrlRefund, t, o) then RefundPending
           else t.state)
  {
    hide Run, Gained, Decide, MustReview;
    var at := IterationIs(trades, events, observe, now);
    var t := Run(trades, events).trades[i];
    if !Closed(t.state) { DecideIs(t, observe(t.tradeId), now); }
    Excluded(t, observe(t.tradeId), now);
  }

  /** What is due excludes each other, and nothing is due on a closed trade. */
  lemma Excluded(t: Trade, o: Observation, now: int)
    ensures Closed(t.state) ==>
      !ReviewDue(t, o) && !ReleasedDue(t, o) && !RefundedDue(t, o) && !PrlReleaseDue(t, o) && !PrlRefundDue(t, o, now) && !UsdcReleaseDue(t, o)
  {
  }

  /** The list gained a decision of the kind for the trade. */
  ghost predicate Added(before: seq<Decision>, after: seq<Decision>, action: Action, tradeId: string) {
    exists n :: |before| <= n < |after| && after[n].action == action && after[n].snapshot.tradeId == tradeId
  }

  lemma AddedIff(w: World, before: seq<Decision>, after: seq<Decision>, at: seq<nat>, observe: string -> Observation, now: int,
                 kind: Decision -> bool, i: nat, action: Action)
    requires DistinctTrades(w.trades) && i < |w.trades|
    requires forall k :: 0 <= k < |at| ==> at[k] < |w.trades|
    requires Gained(before, after, w, at, observe, now, kind)
    requires forall d: Decision :: d.action == action ==> kind(d)
    ensures var d := DecisionOn(w.trades[i], observe, now);
      Added(before, after, action, w.trades[i].tradeId) <==> i in at && d.action == action && d !in w.decisions
  {
    hide DecisionFor;
    var d := DecisionOn(w.trades[i], observe, now);
    OnItsTrade(w.trades[i], observe, now);
    if Added(before, after, action, w.trades[i].tradeId) {
      var n :| |before| <= n < |after| && after[n].action == action && after[n].snapshot.tradeId == w.trades[i].tradeId;
      assert after[|before|..][n - |before|] == after[n];
      var k :| 0 <= k < |at| && after[n] == DecisionOn(w.trades[at[k]], observe, now);
      OnItsTrade(w.trades[at[k]], observe, now);
      assert at[k] == i;
    }
    if i in at && d.action == action && d !in w.decisions {
      assert d in after[|before|..];
      var m :| 0 <= m < |after[|before|..]| && after[|before|..][m] == d;
      assert after[m + |before|] == d;
    }
  }

  /** And it hands to the signer and the broadcaster what is due and new, for each trade and nothing else of it. */
  lemma IterationPrepares(trades: seq<Trade>, events: seq<Event>, observe: string -> Observation, now: int, i: nat)
    requires DistinctTrades(trades) && i < |Run(trades, events).trades|
    ensures var w, w' := Run(trades, events), Run(trades, events + [Iteration(now, observe)]);
      var t, o := w.trades[i], observe(w.trades[i].tradeId);
      && (Added(w.signer, w'.signer, PreparePrlRelease, t.tradeId) <==> PrlReleaseDue(t, o) && New(w, PreparePrlRelease, t, o))
      && (Added(w.signer, w'.signer, PreparePrlRefund, t.tradeId) <==> PrlRefundDue(t, o, now) && New(w, PreparePrlRefund, t, o))
      && (Added(w.broadcaster, w'.broadcaster, PrepareUsdcRelease, t.tradeId) <==> UsdcReleaseDue(t, o) && New(w, PrepareUsdcRelease, t, o))
  {
    hide Run, Gained, Decide, MustReview, Added, DistinctTrades;
    var at := IterationIs(trades, events, observe, now);
    var w, w' := Run(trades, events), Run(trades, events + [Iteration(now, observe)]);
    var t := w.trades[i];
    AddedIff(w, w.signer, w'.signer, at, observe, now, ForSigner, i, PreparePrlRelease);
    AddedIff(w, w.signer, w'.signer, at, observe, now, ForSigner, i, PreparePrlRefund);
    AddedIff(w, w.broadcaster, w'.broadcaster, at, observe, now, ForBroadcaster, i, PrepareUsdcRelease);
    if !Closed(t.state) { DecideIs(t, observe(t.tradeId), now); }
    Excluded(t, observe(t.tradeId), now);
  }
}
