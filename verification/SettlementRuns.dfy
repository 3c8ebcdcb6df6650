/**
 Runs of the settlement worker: services/settlement-worker/src/settlement-loop.ts over the decision store
 of decision-engine.ts, mixed with transitions other actors make.

 `AtMostOneRelease`, `ReleaseExcludesRefund`, `RefundPreparedIff` and `RefundBound` are about every run;
 `BothPrepared` is the run that shows why the second needs a Base status that does not fall back,
 `RefundPreparedFiveTimes` the one that reaches the bound.
 */
module SettlementRuns {
  import opened Wrappers
  import opened Sorting
  import opened TradeStates
  import opened Settlement

  /** What `createSettlementSnapshotHash` and the sorted source event ids stand for. */
  datatype Snapshot = Snapshot(tradeId: string, tradeState: TradeState, deadlines: Deadlines, seen: Observation)

  /** The idempotency key of a decision. */
  datatype Decision = Decision(action: Action, snapshot: Snapshot)

  /** The trades, the decision store, and what the signer and the broadcaster were asked to prepare. */
  datatype World = World(trades: seq<Trade>, decisions: set<Decision>, signer: seq<Decision>, broadcaster: seq<Decision>)

  predicate IsOpen(t: Trade) {
    !(t.state.Released? || t.state.Refunded? || t.state.Cancelled? || t.state.FailedManualReview?)
  }

  function OpenTrades(trades: seq<Trade>): seq<Trade> {
    Filter(trades, IsOpen)
  }

  function FindTrade(trades: seq<Trade>, tradeId: string): (i: nat)
    ensures i <= |trades|
    ensures i < |trades| ==> trades[i].tradeId == tradeId
    ensures forall j :: 0 <= j < i ==> trades[j].tradeId != tradeId
  {
    if trades == [] || trades[0].tradeId == tradeId then 0 else 1 + FindTrade(trades[1..], tradeId)
  }

  function SetState(trades: seq<Trade>, tradeId: string, to: TradeState): seq<Trade> {
    var i := FindTrade(trades, tradeId);
    if i < |trades| then trades[i := trades[i].(state := to)] else trades
  }

  function DecisionFor(t: Trade, o: Observation, now: int): Decision {
    Decision(Decide(t, o, now), Snapshot(t.tradeId, t.state, t.deadlines, o))
  }

  function Execute(w: World, d: Decision): World {
    var id := d.snapshot.tradeId;
    match d.action
    case Wait => w
    case ManualReview => w.(trades := SetState(w.trades, id, FailedManualReview))
    case PreparePrlRelease => w.(trades := SetState(w.trades, id, ReleasePending), signer := w.signer + [d])
    case PreparePrlRefund => w.(trades := SetState(w.trades, id, RefundPending), signer := w.signer + [d])
    case PrepareUsdcRelease => w.(broadcaster := w.broadcaster + [d])
    case MarkReleased => w.(trades := SetState(w.trades, id, TradeState.Released))
    case MarkRefunded => w.(trades := SetState(w.trades, id, TradeState.Refunded))
  }

  function WorkOn(w: World, t: Trade, o: Observation, now: int): World {
    var d := DecisionFor(t, o, now);
    if d in w.decisions then w else Execute(w.(decisions := w.decisions + {d}), d)
  }

  function WorkThrough(w: World, open: seq<Trade>, observe: string -> Observation, now: int): World {
    if open == [] then w
    else
      var n := |open| - 1;
      WorkOn(WorkThrough(w, open[..n], observe, now), open[n], observe(open[n].tradeId), now)
  }

  /** `runSettlementWorkerIteration`. */
  function Iterate(w: World, observe: string -> Observation, now: int): World {
    WorkThrough(w, OpenTrades(w.trades), observe, now)
  }

  // ---- The loop over the stores ----

  class InMemorySettlementDecisionRepository {
    var decisions: set<Decision>

    constructor () ensures decisions == {} {
      decisions := {};
    }

    method SaveDecision(decision: Decision) returns (created: bool)
      modifies this
      ensures created <==> decision !in old(decisions)
      ensures decisions == old(decisions) + {decision}
    {
      created := decision !in decisions;
      if created {
        decisions := decisions + {decision};
      }
    }
  }

  class InMemorySettlementWorkerTradeSource {
    var trades: seq<Trade>

    constructor (trades: seq<Trade>) ensures this.trades == trades {
      this.trades := trades;
    }

    method ListOpenTrades() returns (open: seq<Trade>)
      ensures open == OpenTrades(trades)
    {
      open := OpenTrades(trades);
    }

    method ApplyTradeState(tradeId: string, to: TradeState)
      modifies this
      ensures trades == SetState(old(trades), tradeId, to)
    {
      var i := FindTrade(trades, tradeId);
      if i < |trades| {
        trades := trades[i := trades[i].(state := to)];
      }
    }
  }

  class PreparedActions {
    var prepared: seq<Decision>

    constructor () ensures prepared == [] {
      prepared := [];
    }

    method Prepare(d: Decision)
      modifies this
      ensures prepared == old(prepared) + [d]
    {
      prepared := prepared + [d];
    }
  }

  class SettlementWorker {
    const trades: InMemorySettlementWorkerTradeSource
    const decisions: InMemorySettlementDecisionRepository
    const signer: PreparedActions
    const broadcaster: PreparedActions

    constructor (
        trades: InMemorySettlementWorkerTradeSource, decisions: InMemorySettlementDecisionRepository,
        signer: PreparedActions, broadcaster: PreparedActions)
      requires signer != broadcaster
      ensures signer != broadcaster && Contents() == World(trades.trades, decisions.decisions, signer.prepared, broadcaster.prepared)
    {
      this.trades, this.decisions, this.signer, this.broadcaster := trades, decisions, signer, broadcaster;
    }

    ghost function Contents(): World
      reads trades, decisions, signer, broadcaster
    {
      World(trades.trades, decisions.decisions, signer.prepared, broadcaster.prepared)
    }

    method RunIteration(observe: string -> Observation, now: int) returns (made: seq<Decision>)
      requires signer != broadcaster
      modifies trades, decisions, signer, broadcaster
      ensures Contents() == Iterate(old(Contents()), observe, now)
      ensures |made| == |OpenTrades(old(trades.trades))|
      ensures forall n :: 0 <= n < |made| ==>
        made[n] == DecisionFor(OpenTrades(old(trades.trades))[n], observe(OpenTrades(old(trades.trades))[n].tradeId), now)
    {
      hide Decide, SetState, OpenTrades;
      ghost var w0 := Contents();
      var open := trades.ListOpenTrades();
      made := [];
      for n := 0 to |open|
        invariant |made| == n
        invariant forall k :: 0 <= k < n ==> made[k] == DecisionFor(open[k], observe(open[k].tradeId), now)
        invariant Contents() == WorkThrough(w0, open[..n], observe, now)
      {
        assert open[..n + 1][..n] == open[..n];
        var d := DecisionFor(open[n], observe(open[n].tradeId), now);
        var created := decisions.SaveDecision(d);
        made := made + [d];
        if created {
          ExecuteDecision(d);
        } else {
          assert decisions.decisions == WorkThrough(w0, open[..n], observe, now).decisions;
        }
      }
      assert open[..|open|] == open;
    }

    method ExecuteDecision(d: Decision)
      requires signer != broadcaster
      modifies trades, signer, broadcaster
      ensures Contents() == Execute(old(Contents()), d)
    {
      match d.action {
        case Wait =>
        case ManualReview => trades.ApplyTradeState(d.snapshot.tradeId, FailedManualReview);
        case PreparePrlRelease =>
          trades.ApplyTradeState(d.snapshot.tradeId, ReleasePending);
          signer.Prepare(d);
        case PreparePrlRefund =>
          trades.ApplyTradeState(d.snapshot.tradeId, RefundPending);
          signer.Prepare(d);
        case PrepareUsdcRelease => broadcaster.Prepare(d);
        case MarkReleased => trades.ApplyTradeState(d.snapshot.tradeId, TradeState.Released);
        case MarkRefunded => trades.ApplyTradeState(d.snapshot.tradeId, TradeState.Refunded);
      }
    }
  }

  // ---- Runs ----

  /** `Move` is another actor's checked transition, `Presign` a change of the buyer's authorisation. */
  datatype Event =
    | Iteration(now: int, observe: string -> Observation)
    | Move(tradeId: string, to: TradeState)
    | Presign(tradeId: string, signingMode: Option<SigningMode>, presignature: Option<Presignature>)

  function Apply(w: World, e: Event): World {
    match e
    case Iteration(now, observe) => Iterate(w, observe, now)
    case Move(tradeId, to) =>
      var i := FindTrade(w.trades, tradeId);
      if i < |w.trades| && to in AllowedTransitions(w.trades[i].state) then w.(trades := SetState(w.trades, tradeId, to)) else w
    case Presign(tradeId, signingMode, presignature) =>
      var i := FindTrade(w.trades, tradeId);
      if i < |w.trades| then
        w.(trades := w.trades[i := w.trades[i].(signingMode := signingMode, presignature := presignature)])
      else w
  }

  function Run(trades: seq<Trade>, events: seq<Event>): World {
    if events == [] then World(trades, {}, [], [])
    else Apply(Run(trades, events[..|events| - 1]), events[|events| - 1])
  }

  predicate DistinctTrades(trades: seq<Trade>) {
    forall i, j :: 0 <= i < j < |trades| ==> trades[i].tradeId != trades[j].tradeId
  }

  /** What a prepared decision says of the observation it was made on. */
  predicate Grounded(d: Decision) {
    && (d.action.PreparePrlRelease? ==> d.snapshot.seen.pearl.status.Confirmed? && d.snapshot.seen.base.status.Deposited?)
    && (d.action.PreparePrlRefund? ==>
          PearlFunded(d.snapshot.seen.pearl) && BaseEmpty(d.snapshot.seen.base)
          && !ReviewState(d.snapshot.tradeState) && !IsTerminal(d.snapshot.tradeState))
    && (d.action.PrepareUsdcRelease? ==> d.snapshot.seen.pearl.status.Released? && d.snapshot.seen.base.status.Deposited?)
  }

  predicate ForTrade(d: Decision, tradeId: string) {
    d.snapshot.tradeId == tradeId
  }

  predicate ForSigner(d: Decision) {
    d.action.PreparePrlRelease? || d.action.PreparePrlRefund?
  }

  /** The signer's list holds the signer's decisions, each once: only refunds follow the first preparation of a trade,
      all from committed states. */
  ghost predicate SignerOk(w: World) {
    && (forall n :: 0 <= n < |w.signer| ==> ForSigner(w.signer[n]) && Grounded(w.signer[n]) && w.signer[n] in w.decisions)
    && (forall d :: d in w.decisions && ForSigner(d) ==> d in w.signer)
    && (forall n, m :: 0 <= n < m < |w.signer| ==>
          w.signer[n] != w.signer[m]
          && (ForTrade(w.signer[n], w.signer[m].snapshot.tradeId) ==> Follows(w.signer[n], w.signer[m])))
  }

  predicate Follows(d: Decision, next: Decision) {
    next.action.PreparePrlRefund? && Committed(next.snapshot.tradeState) && next.snapshot.deadlines == d.snapshot.deadlines
  }

  ghost predicate BroadcasterOk(w: World) {
    && (forall n :: 0 <= n < |w.broadcaster| ==>
          w.broadcaster[n].action.PrepareUsdcRelease? && Grounded(w.broadcaster[n]) && w.broadcaster[n] in w.decisions)
    && (forall n, m :: 0 <= n < m < |w.broadcaster| ==> w.broadcaster[n] != w.broadcaster[m])
  }

  /** A trade with a preparation at the signer is past the state a release is decided from. */
  ghost predicate TradesCommitted(w: World) {
    forall n, i :: 0 <= n < |w.signer| && 0 <= i < |w.trades| && ForTrade(w.signer[n], w.trades[i].tradeId) ==>
      Committed(w.trades[i].state) && w.signer[n].snapshot.deadlines == w.trades[i].deadlines
  }

  ghost predicate Inv(w: World) {
    DistinctTrades(w.trades) && SignerOk(w) && BroadcasterOk(w) && TradesCommitted(w)
  }

  lemma FindIs(trades: seq<Trade>, i: nat)
    requires DistinctTrades(trades) && i < |trades|
    ensures FindTrade(trades, trades[i].tradeId) == i
  {
  }

  function Taken(w: World, d: Decision): World {
    Execute(w.(decisions := w.decisions + {d}), d)
  }

  predicate StandsFor(d: Decision, t: Trade) {
    d.snapshot.tradeId == t.tradeId && d.snapshot.tradeState == t.state && d.snapshot.deadlines == t.deadlines
  }

  lemma SignerStaysOk(w: World, i: nat, d: Decision)
    requires SignerOk(w) && TradesCommitted(w) && i < |w.trades|
    requires StandsFor(d, w.trades[i]) && Grounded(d) && d !in w.decisions
    requires d.action.PreparePrlRelease? ==> !Committed(w.trades[i].state)
    ensures SignerOk(Taken(w, d))
  {
    hide Grounded, Committed, SetState;
  }

  lemma ListsStayOk(w: World, i: nat, d: Decision)
    requires SignerOk(w) && BroadcasterOk(w) && TradesCommitted(w) && i < |w.trades|
    requires StandsFor(d, w.trades[i]) && Grounded(d) && d !in w.decisions
    requires d.action.PreparePrlRelease? ==> !Committed(w.trades[i].state)
    ensures SignerOk(Taken(w, d)) && BroadcasterOk(Taken(w, d))
    ensures Taken(w, d).signer == w.signer || Taken(w, d).signer == w.signer + [d]
  {
    hide Grounded, Committed, SetState, SignerOk, TradesCommitted;
    SignerStaysOk(w, i, d);
  }

  lemma TradesStayCommitted(w: World, i: nat, d: Decision)
    requires DistinctTrades(w.trades) && TradesCommitted(w) && i < |w.trades| && StandsFor(d, w.trades[i])
    ensures var w' := Taken(w, d);
      && TradesCommitted(w') && |w'.trades| == |w.trades| && w'.trades[i].tradeId == w.trades[i].tradeId
      && (forall j :: 0 <= j < |w.trades| && j != i ==> w'.trades[j] == w.trades[j])
  {
    hide Committed, FindTrade;
    FindIs(w.trades, i);
    assert SetState(w.trades, d.snapshot.tradeId, FailedManualReview) == w.trades[i := w.trades[i].(state := FailedManualReview)];
    CommittedEnds();
  }

  lemma CommittedEnds()
    ensures Committed(FailedManualReview) && Committed(ReleasePending) && Committed(RefundPending)
    ensures Committed(TradeState.Released) && Committed(TradeState.Refunded)
  {
  }

  /** Working on a trade as it stands keeps the invariant, and touches no other trade. */
  lemma WorkKeepsInv(w: World, i: nat, observe: string -> Observation, now: int)
    requires Inv(w) && i < |w.trades|
    ensures var d := DecisionOn(w.trades[i], observe, now);
      var w' := WorkOn(w, w.trades[i], observe(w.trades[i].tradeId), now);
      && Inv(w')
      && |w'.trades| == |w.trades| && w'.trades[i].tradeId == w.trades[i].tradeId
      && (forall j :: 0 <= j < |w.trades| && j != i ==> w'.trades[j] == w.trades[j])
      && (w'.signer == w.signer || w'.signer == w.signer + [d]) && (ForSigner(d) ==> d in w'.signer)
  {
    hide Decide, Inv, Grounded, SignerOk, BroadcasterOk, TradesCommitted, Execute, ForSigner, StandsFor;
    var d := DecisionOn(w.trades[i], observe, now);
    InvIs(w);
    OnItsTrade(w.trades[i], observe, now);
    if d !in w.decisions {
      ListsStayOk(w, i, d);
      TradesStayCommitted(w, i, d);
      InvIs(Taken(w, d));
    }
    HeldAtSigner(w, d);
    HeldAtSigner(WorkOn(w, w.trades[i], observe(w.trades[i].tradeId), now), d);
    Recorded(w, d);
  }

  lemma Recorded(w: World, d: Decision)
    ensures d in Taken(w, d).decisions
  {
  }

  lemma HeldAtSigner(w: World, d: Decision)
    ensures SignerOk(w) && d in w.decisions && ForSigner(d) ==> d in w.signer
  {
  }

  lemma InvIs(w: World)
    ensures Inv(w) <==> DistinctTrades(w.trades) && SignerOk(w) && BroadcasterOk(w) && TradesCommitted(w)
  {
  }

  /** Working through the trades at some indices leaves the others as they were. */
  ghost predicate TradesWorked(w: World, w': World, at: seq<nat>) {
    && |w'.trades| == |w.trades|
    && (forall j :: 0 <= j < |w.trades| ==> w'.trades[j].tradeId == w.trades[j].tradeId)
    && (forall j :: 0 <= j < |w.trades| && j !in at ==> w'.trades[j] == w.trades[j])
  }

  /** What it adds at the signer: at most one preparation for each of those trades, on what was observed of it. */
  ghost predicate SignerWorked(w: World, w': World, at: seq<nat>, observe: string -> Observation, now: int)
    requires forall k :: 0 <= k < |at| ==> at[k] < |w.trades|
  {
    && w.signer <= w'.signer
    && (forall n :: |w.signer| <= n < |w'.signer| ==>
          exists k :: 0 <= k < |at| && w'.signer[n] == DecisionOn(w.trades[at[k]], observe, now))
    && (forall k :: 0 <= k < |at| && ForSigner(DecisionOn(w.trades[at[k]], observe, now)) ==>
          DecisionOn(w.trades[at[k]], observe, now) in w'.signer)
    && (forall n, m :: |w.signer| <= n < m < |w'.signer| ==> !ForTrade(w'.signer[n], w'.signer[m].snapshot.tradeId))
  }

  function DecisionOn(t: Trade, observe: string -> Observation, now: int): Decision {
    DecisionFor(t, observe(t.tradeId), now)
  }

  lemma SignerStep(w: World, w1: World, w': World, at: seq<nat>, observe: string -> Observation, now: int)
    requires at != [] && DistinctTrades(w.trades)
    requires forall k :: 0 <= k < |at| ==> at[k] < |w.trades|
    requires forall k, l :: 0 <= k < l < |at| ==> at[k] < at[l]
    requires SignerWorked(w, w1, at[..|at| - 1], observe, now)
    requires var d := DecisionOn(w.trades[at[|at| - 1]], observe, now);
      (w'.signer == w1.signer || w'.signer == w1.signer + [d]) && (ForSigner(d) ==> d in w'.signer)
    ensures SignerWorked(w, w', at, observe, now)
  {
    hide DecisionFor, ForSigner;
    var n := |at| - 1;
    forall m | |w.signer| <= m < |w'.signer|
      ensures exists k :: 0 <= k < |at| && w'.signer[m] == DecisionOn(w.trades[at[k]], observe, now)
      ensures m < |w1.signer| ==> !ForTrade(w'.signer[m], w.trades[at[n]].tradeId)
    {
      if m < |w1.signer| {
        var k :| 0 <= k < |at[..n]| && w1.signer[m] == DecisionOn(w.trades[at[..n][k]], observe, now);
        OnItsTrade(w.trades[at[k]], observe, now);
        assert w'.signer[m] == DecisionOn(w.trades[at[k]], observe, now);
      } else {
        assert w'.signer[m] == DecisionOn(w.trades[at[n]], observe, now);
      }
    }
    OnItsTrade(w.trades[at[n]], observe, now);
    forall k | 0 <= k < |at| && ForSigner(DecisionOn(w.trades[at[k]], observe, now))
      ensures DecisionOn(w.trades[at[k]], observe, now) in w'.signer
    {
      if k < n {
        assert at[..n][k] == at[k];
      }
    }
  }

  lemma OnItsTrade(t: Trade, observe: string -> Observation, now: int)
    ensures StandsFor(DecisionOn(t, observe, now), t)
    ensures DecisionOn(t, observe, now).snapshot.seen == observe(t.tradeId)
    ensures Grounded(DecisionOn(t, observe, now))
    ensures DecisionOn(t, observe, now).action.PreparePrlRelease? ==> !Committed(t.state)
  {
  }

  /** The listed trades still stand as listed while the loop has not reached them. */
  lemma {:induction false} WorkThroughKeepsInv(w: World, at: seq<nat>, observe: string -> Observation, now: int)
    requires Inv(w)
    requires forall k :: 0 <= k < |at| ==> at[k] < |w.trades|
    requires forall k, l :: 0 <= k < l < |at| ==> at[k] < at[l]
    ensures var w' := WorkThrough(w, TradesAt(w.trades, at), observe, now);
      Inv(w') && TradesWorked(w, w', at) && SignerWorked(w, w', at, observe, now)
  {
    hide Inv, WorkOn, Decide, SignerWorked, ForSigner;
    if at != [] {
      var n := |at| - 1;
      var open := TradesAt(w.trades, at);
      assert open[..n] == TradesAt(w.trades, at[..n]);
      WorkThroughKeepsInv(w, at[..n], observe, now);
      var w1 := WorkThrough(w, open[..n], observe, now);
      assert w1.trades[at[n]] == open[n];
      WorkKeepsInv(w1, at[n], observe, now);
      InvIs(w);
      SignerStep(w, w1, WorkThrough(w, open, observe, now), at, observe, now);
    } else {
      NothingWorked(w, observe, now);
    }
  }

  lemma NothingWorked(w: World, observe: string -> Observation, now: int)
    ensures SignerWorked(w, w, [], observe, now)
  {
  }

  function TradesAt(trades: seq<Trade>, at: seq<nat>): seq<Trade>
    requires forall k :: 0 <= k < |at| ==> at[k] < |trades|
  {
    seq(|at|, k requires 0 <= k < |at| => trades[at[k]])
  }

  lemma {:induction false} OpenIndices(trades: seq<Trade>) returns (at: seq<nat>)
    ensures forall k :: 0 <= k < |at| ==> at[k] < |trades|
    ensures forall k, l :: 0 <= k < l < |at| ==> at[k] < at[l]
    ensures OpenTrades(trades) == TradesAt(trades, at)
    ensures forall i :: 0 <= i < |trades| ==> (i in at <==> IsOpen(trades[i]))
  {
    hide IsOpen;
    if trades == [] {
      at := [];
    } else {
      var n := |trades| - 1;
      at := OpenIndices(trades[..n]);
      FilterAppend(trades[..n], trades[n], IsOpen);
      assert trades == trades[..n] + [trades[n]];
      if IsOpen(trades[n]) {
        at := at + [n];
      }
    }
  }

  predicate SameIds(trades: seq<Trade>, trades': seq<Trade>) {
    |trades'| == |trades| && forall i :: 0 <= i < |trades| ==> trades'[i].tradeId == trades[i].tradeId
  }

  /** Every event keeps the invariant; what it adds at the signer is what an iteration saw, once for a trade. */
  lemma ApplyKeepsInv(w: World, e: Event)
    requires Inv(w)
    ensures Inv(Apply(w, e)) && w.signer <= Apply(w, e).signer && SameIds(w.trades, Apply(w, e).trades)
    ensures forall n :: |w.signer| <= n < |Apply(w, e).signer| ==>
      e.Iteration? && Apply(w, e).signer[n].snapshot.seen == e.observe(Apply(w, e).signer[n].snapshot.tradeId)
    ensures forall n, m :: |w.signer| <= n < m < |Apply(w, e).signer| ==>
      !ForTrade(Apply(w, e).signer[n], Apply(w, e).signer[m].snapshot.tradeId)
  {
    hide Inv, WorkThrough, OpenTrades, SignerOk, BroadcasterOk;
    if e.Iteration? {
      var at := OpenIndices(w.trades);
      WorkThroughKeepsInv(w, at, e.observe, e.now);
    } else {
      OthersKeepInv(w, e);
    }
  }

  lemma OthersKeepInv(w: World, e: Event)
    requires Inv(w) && !e.Iteration?
    ensures Inv(Apply(w, e)) && Apply(w, e).signer == w.signer && SameIds(w.trades, Apply(w, e).trades)
  {
    hide AllowedTransitions, Committed;
    var i := FindTrade(w.trades, e.tradeId);
    if e.Move? && i < |w.trades| && e.to in AllowedTransitions(w.trades[i].state) && Committed(w.trades[i].state) {
      CommittedStep(w.trades[i].state, e.to);
    }
  }

  lemma {:induction false} RunKeepsInv(trades: seq<Trade>, events: seq<Event>)
    requires DistinctTrades(trades)
    ensures Inv(Run(trades, events))
  {
    if events != [] {
      RunKeepsInv(trades, events[..|events| - 1]);
      ApplyKeepsInv(Run(trades, events[..|events| - 1]), events[|events| - 1]);
    }
  }

  // ---- Main results ----

  /** In every run a trade's PRL release is prepared at most once, on confirmed PRL and deposited USDC; a USDC
      release is prepared only when the PRL release is confirmed; and no decision is prepared twice. */
  lemma AtMostOneRelease(trades: seq<Trade>, events: seq<Event>)
    requires DistinctTrades(trades)
    ensures var w := Run(trades, events);
      && (forall n, m :: 0 <= n < m < |w.signer| && w.signer[n].action.PreparePrlRelease? && w.signer[m].action.PreparePrlRelease? ==>
            !ForTrade(w.signer[n], w.signer[m].snapshot.tradeId))
      && (forall n :: 0 <= n < |w.signer| ==> Grounded(w.signer[n]))
      && (forall n :: 0 <= n < |w.broadcaster| ==> w.broadcaster[n].action.PrepareUsdcRelease? && Grounded(w.broadcaster[n]))
      && (forall n, m :: 0 <= n < m < |w.signer| ==> w.signer[n] != w.signer[m])
      && (forall n, m :: 0 <= n < m < |w.broadcaster| ==> w.broadcaster[n] != w.broadcaster[m])
  {
    hide Run;
    RunKeepsInv(trades, events);
  }

  /** Where each preparation comes from, in order. */
  lemma {:induction false} PreparedFrom(trades: seq<Trade>, events: seq<Event>, n: nat, m: nat) returns (i: nat, j: nat)
    requires DistinctTrades(trades)
    requires n < m < |Run(trades, events).signer|
    requires ForTrade(Run(trades, events).signer[n], Run(trades, events).signer[m].snapshot.tradeId)
    ensures i < j < |events| && events[i].Iteration? && events[j].Iteration?
    ensures var w := Run(trades, events);
      w.signer[n].snapshot.seen == events[i].observe(w.signer[n].snapshot.tradeId)
      && w.signer[m].snapshot.seen == events[j].observe(w.signer[m].snapshot.tradeId)
  {
    hide Inv, Apply;
    var last := |events| - 1;
    var w1 := Run(trades, events[..last]);
    RunKeepsInv(trades, events[..last]);
    ApplyKeepsInv(w1, events[last]);
    if m < |w1.signer| {
      i, j := PreparedFrom(trades, events[..last], n, m);
    } else {
      i := PreparedAt(trades, events[..last], n);
      j := last;
    }
  }

  lemma {:induction false} PreparedAt(trades: seq<Trade>, events: seq<Event>, n: nat) returns (i: nat)
    requires DistinctTrades(trades)
    requires n < |Run(trades, events).signer|
    ensures i < |events| && events[i].Iteration?
    ensures var w := Run(trades, events); w.signer[n].snapshot.seen == events[i].observe(w.signer[n].snapshot.tradeId)
  {
    hide Inv, Apply;
    var last := |events| - 1;
    var w1 := Run(trades, events[..last]);
    RunKeepsInv(trades, events[..last]);
    ApplyKeepsInv(w1, events[last]);
    assert Run(trades, events) == Apply(w1, events[last]);
    if n < |w1.signer| {
      i := PreparedAt(trades, events[..last], n);
      assert Run(trades, events).signer[n] == w1.signer[n];
    } else {
      i := last;
      var d := Apply(w1, events[last]).signer[n];
    }
  }

  /** The trade's Base escrow, once seen deposited, is not seen empty later. */
  predicate NeverFallsBack(events: seq<Event>, tradeId: string) {
    forall i, j | 0 <= i < j < |events| && events[i].Iteration? && events[j].Iteration? ::
      events[i].observe(tradeId).base.status.Deposited? ==> !BaseEmpty(events[j].observe(tradeId).base)
  }

  predicate Prepared(w: World, action: Action, tradeId: string) {
    exists n :: 0 <= n < |w.signer| && w.signer[n].action == action && ForTrade(w.signer[n], tradeId)
  }

  /** In every run, no trade has both a PRL release and a PRL refund prepared, unless its Base escrow falls back. */
  lemma ReleaseExcludesRefund(trades: seq<Trade>, events: seq<Event>, tradeId: string)
    requires DistinctTrades(trades) && NeverFallsBack(events, tradeId)
    ensures !(Prepared(Run(trades, events), PreparePrlRelease, tradeId) && Prepared(Run(trades, events), PreparePrlRefund, tradeId))
  {
    hide Run, Inv, ReviewState, IsTerminal;
    var w := Run(trades, events);
    RunKeepsInv(trades, events);
    InvIs(w);
    if Prepared(w, PreparePrlRelease, tradeId) && Prepared(w, PreparePrlRefund, tradeId) {
      var n :| 0 <= n < |w.signer| && w.signer[n].action == PreparePrlRelease && ForTrade(w.signer[n], tradeId);
      var m :| 0 <= m < |w.signer| && w.signer[m].action == PreparePrlRefund && ForTrade(w.signer[m], tradeId);
      ReleaseComesFirst(w, n, m);
      var i, j := PreparedFrom(trades, events, n, m);
    }
  }

  lemma ReleaseComesFirst(w: World, n: nat, m: nat)
    requires SignerOk(w) && n < |w.signer| && m < |w.signer| && ForTrade(w.signer[n], w.signer[m].snapshot.tradeId)
    requires w.signer[n].action.PreparePrlRelease? && w.signer[m].action.PreparePrlRefund?
    ensures n < m && Grounded(w.signer[n]) && Grounded(w.signer[m])
  {
    hide Grounded, Committed;
  }

  // ---- How often a refund is prepared ----

  /** The iteration added a refund of the trade to what the signer was asked to prepare. */
  ghost predicate RefundAdded(w: World, w': World, tradeId: string) {
    exists n :: |w.signer| <= n < |w'.signer| && w'.signer[n].action.PreparePrlRefund? && ForTrade(w'.signer[n], tradeId)
  }

  /** The signer was already asked for a refund of the trade in this state, on this observation. */
  ghost predicate RefundKnown(w: World, t: Trade, o: Observation) {
    Decision(PreparePrlRefund, Snapshot(t.tradeId, t.state, t.deadlines, o)) in w.signer
  }

  lemma AddedOnDecision(w: World, w': World, n: nat, i: nat, j: nat, observe: string -> Observation, now: int)
    requires SignerOk(w') && DistinctTrades(w.trades) && i < |w.trades| && j < |w.trades|
    requires w.signer <= w'.signer && |w.signer| <= n < |w'.signer|
    requires ForTrade(w'.signer[n], w.trades[i].tradeId) && w'.signer[n] == DecisionOn(w.trades[j], observe, now)
    ensures j == i && w'.signer[n] !in w.signer
  {
    hide DecisionFor, Grounded, Follows, ForSigner;
    OnItsTrade(w.trades[j], observe, now);
    assert forall m :: 0 <= m < |w.signer| ==> w'.signer[m] == w.signer[m] && w'.signer[m] != w'.signer[n];
  }

  lemma RefundAddedIff(w: World, w': World, at: seq<nat>, i: nat, observe: string -> Observation, now: int)
    requires SignerOk(w') && DistinctTrades(w.trades) && i < |w.trades|
    requires forall k :: 0 <= k < |at| ==> at[k] < |w.trades|
    requires SignerWorked(w, w', at, observe, now)
    requires ForSigner(DecisionOn(w.trades[i], observe, now)) ==> i in at
    ensures var d := DecisionOn(w.trades[i], observe, now);
      RefundAdded(w, w', w.trades[i].tradeId) <==> d.action.PreparePrlRefund? && d !in w.signer
  {
    hide DecisionFor, SignerOk, DistinctTrades;
    var d := DecisionOn(w.trades[i], observe, now);
    if RefundAdded(w, w', w.trades[i].tradeId) {
      var n :| |w.signer| <= n < |w'.signer| && w'.signer[n].action.PreparePrlRefund? && ForTrade(w'.signer[n], w.trades[i].tradeId);
      var k :| 0 <= k < |at| && w'.signer[n] == DecisionOn(w.trades[at[k]], observe, now);
      AddedOnDecision(w, w', n, i, at[k], observe, now);
    }
    OnItsTrade(w.trades[i], observe, now);
    if d.action.PreparePrlRefund? && d !in w.signer {
      var n :| 0 <= n < |w'.signer| && w'.signer[n] == d;
    }
  }

  /** The trade at `i` is in no review or final state, is seen funded in time and with an empty Base escrow when refunds
      are open, and no refund was prepared in this state on this very observation before. */
  ghost predicate RefundDue(w: World, i: nat, e: Event)
    requires i < |w.trades|
  {
    && e.Iteration?
    && var t := w.trades[i];
       var o := e.observe(t.tradeId);
       && !ReviewState(t.state) && !IsTerminal(t.state)
       && PearlFunded(o.pearl) && BaseEmpty(o.base)
       && o.pearl.observedAt <= t.deadlines.pearlFundingDeadline && t.deadlines.refundAvailableAt <= e.now
       && !RefundKnown(w, t, o)
  }

  lemma RefundDueIff(w: World, i: nat, e: Event)
    requires Inv(w) && i < |w.trades|
    ensures RefundAdded(w, Apply(w, e), w.trades[i].tradeId) <==> RefundDue(w, i, e)
  {
    hide Inv, Decide, WorkThrough, ReviewState, IsTerminal, SignerWorked, OpenTrades, RefundAdded;
    if e.Iteration? {
      var t := w.trades[i];
      var at := OpenIndices(w.trades);
      WorkThroughKeepsInv(w, at, e.observe, e.now);
      InvIs(w);
      InvIs(Iterate(w, e.observe, e.now));
      Decisions(t, e.observe(t.tradeId), e.now);
      TerminalStates(t.state);
      if t.state.UsdcEscrowConfirmed? {
        assert IsOpen(t);
      }
      RefundAddedIff(w, Iterate(w, e.observe, e.now), at, i, e.observe, e.now);
    } else {
      OthersKeepInv(w, e);
      NothingAdded(w, Apply(w, e), w.trades[i].tradeId);
    }
  }

  lemma NothingAdded(w: World, w': World, tradeId: string)
    requires w'.signer == w.signer
    ensures !RefundAdded(w, w', tradeId)
  {
  }

  /** After any run, an event prepares a refund of a trade exactly when it is an iteration that finds one due. */
  lemma RefundPreparedIff(trades: seq<Trade>, events: seq<Event>, i: nat, e: Event)
    requires DistinctTrades(trades) && i < |Run(trades, events).trades|
    ensures var w := Run(trades, events);
      RefundAdded(w, Run(trades, events + [e]), w.trades[i].tradeId) <==> RefundDue(w, i, e)
  {
    hide Inv, Apply, RefundAdded, RefundDue;
    RunKeepsInv(trades, events);
    RefundDueIff(Run(trades, events), i, e);
    assert (events + [e])[..|events|] == events;
  }

  // ---- When a release and a refund are both prepared ----

  lemma {:induction false} RunKeepsIds(trades: seq<Trade>, events: seq<Event>)
    requires DistinctTrades(trades)
    ensures SameIds(trades, Run(trades, events).trades)
  {
    hide Inv, Apply;
    if events != [] {
      var n := |events| - 1;
      RunKeepsIds(trades, events[..n]);
      RunKeepsInv(trades, events[..n]);
      ApplyKeepsInv(Run(trades, events[..n]), events[n]);
    }
  }

  ghost predicate BothPreparedIn(w: World, tradeId: string) {
    Prepared(w, PreparePrlRelease, tradeId) && Prepared(w, PreparePrlRefund, tradeId)
  }

  /** One event has both prepared exactly if they were, or the release was and a refund is due. */
  lemma BothPreparedStep(w: World, i: nat, e: Event)
    requires Inv(w) && i < |w.trades|
    ensures var id := w.trades[i].tradeId;
      BothPreparedIn(Apply(w, e), id) <==> BothPreparedIn(w, id) || (Prepared(w, PreparePrlRelease, id) && RefundDue(w, i, e))
  {
    hide Inv, Apply, RefundDue, Grounded, Follows;
    var id, w' := w.trades[i].tradeId, Apply(w, e);
    ApplyKeepsInv(w, e);
    RefundDueIff(w, i, e);
    InvIs(w');
    AddedToPrepared(w, w', id);
    if BothPreparedIn(w', id) && !BothPreparedIn(w, id) {
      var n :| 0 <= n < |w'.signer| && w'.signer[n].action == PreparePrlRelease && ForTrade(w'.signer[n], id);
      var m :| 0 <= m < |w'.signer| && w'.signer[m].action == PreparePrlRefund && ForTrade(w'.signer[m], id);
      ReleaseComesFirst(w', n, m);
    }
  }

  lemma AddedToPrepared(w: World, w': World, id: string)
    requires w.signer <= w'.signer
    ensures Prepared(w', PreparePrlRefund, id) <==> Prepared(w, PreparePrlRefund, id) || RefundAdded(w, w', id)
    ensures Prepared(w, PreparePrlRelease, id) ==> Prepared(w', PreparePrlRelease, id)
  {
    if Prepared(w', PreparePrlRefund, id) {
      var n :| 0 <= n < |w'.signer| && w'.signer[n].action == PreparePrlRefund && ForTrade(w'.signer[n], id);
      assert n < |w.signer| ==> w.signer[n] == w'.signer[n];
    }
    if Prepared(w, PreparePrlRefund, id) {
      var n :| 0 <= n < |w.signer| && w.signer[n].action == PreparePrlRefund && ForTrade(w.signer[n], id);
      assert w.signer[n] == w'.signer[n];
    }
    if Prepared(w, PreparePrlRelease, id) {
      var n :| 0 <= n < |w.signer| && w.signer[n].action == PreparePrlRelease && ForTrade(w.signer[n], id);
      assert w.signer[n] == w'.signer[n];
    }
  }

  /** At event `n` the trade's release is prepared and a refund is due. */
  ghost predicate RefundDueAfterRelease(trades: seq<Trade>, events: seq<Event>, i: nat, n: nat)
    requires n < |events|
  {
    var w := Run(trades, events[..n]);
    i < |w.trades| && Prepared(w, PreparePrlRelease, w.trades[i].tradeId) && RefundDue(w, i, events[n])
  }

  /** A run has both a release and a refund of a trade prepared exactly when a refund is due at some event after the
      release was prepared. */
  lemma {:induction false} BothPreparedIff(trades: seq<Trade>, events: seq<Event>, i: nat)
    requires DistinctTrades(trades) && i < |trades|
    ensures BothPreparedIn(Run(trades, events), trades[i].tradeId) <==>
      exists n :: 0 <= n < |events| && RefundDueAfterRelease(trades, events, i, n)
  {
    hide Inv, Apply, RefundDue, Prepared;
    if events != [] {
      var last := |events| - 1;
      var w := Run(trades, events[..last]);
      BothPreparedIff(trades, events[..last], i);
      RunKeepsIds(trades, events[..last]);
      RunKeepsInv(trades, events[..last]);
      BothPreparedStep(w, i, events[last]);
      forall n | 0 <= n < last
        ensures RefundDueAfterRelease(trades, events[..last], i, n) <==> RefundDueAfterRelease(trades, events, i, n)
      {
        assert events[..last][..n] == events[..n];
      }
      assert RefundDueAfterRelease(trades, events, i, last) <==> Prepared(w, PreparePrlRelease, trades[i].tradeId) && RefundDue(w, i, events[last]);
    } else {
      NonePrepared(trades, trades[i].tradeId);
    }
  }

  lemma NonePrepared(trades: seq<Trade>, id: string)
    ensures !Prepared(Run(trades, []), PreparePrlRelease, id)
  {
  }

  // ---- How many refunds ----

  /** The observations of the trade, funded and with an empty Base escrow, that the iterations of a run made. */
  ghost function EmptySeen(events: seq<Event>, tradeId: string): (seen: set<Observation>) {
    set i | 0 <= i < |events| && events[i].Iteration? && RefundSeen(events[i].observe(tradeId)) :: events[i].observe(tradeId)
  }

  predicate RefundSeen(o: Observation) {
    PearlFunded(o.pearl) && BaseEmpty(o.base)
  }

  ghost function RefundsAt(w: World, tradeId: string): (at: set<nat>) {
    set n | 0 <= n < |w.signer| && w.signer[n].action.PreparePrlRefund? && ForTrade(w.signer[n], tradeId)
  }


  /** The states a further refund can be prepared in. */
  const REFUNDABLE_AGAIN: set<TradeState> := {ReleasePending, RefundAvailable, RefundPending, Disputed}

  function RefundOf(id: string, state: TradeState, deadlines: Deadlines, o: Observation): Decision {
    Decision(PreparePrlRefund, Snapshot(id, state, deadlines, o))
  }

  ghost function FurtherRefunds(id: string, deadlines: Deadlines, seen: set<Observation>): (ds: set<Decision>) {
    set s, o | s in REFUNDABLE_AGAIN && o in seen :: RefundOf(id, s, deadlines, o)
  }

  lemma {:induction false} FurtherRefundsSize(id: string, deadlines: Deadlines, seen: set<Observation>)
    ensures |FurtherRefunds(id, deadlines, seen)| <= 4 * |seen|
    decreases |seen|
  {
    if seen == {} {
      assert FurtherRefunds(id, deadlines, seen) == {};
    } else {
      var o :| o in seen;
      FurtherRefundsSize(id, deadlines, seen - {o});
      var before := FurtherRefunds(id, deadlines, seen - {o});
      var more := {RefundOf(id, ReleasePending, deadlines, o), RefundOf(id, RefundAvailable, deadlines, o),
                   RefundOf(id, RefundPending, deadlines, o), RefundOf(id, Disputed, deadlines, o)};
      assert FurtherRefunds(id, deadlines, seen) <= before + more;
      AtMost(FurtherRefunds(id, deadlines, seen), before + more);
    }
  }

  lemma AtMost(a: set<Decision>, b: set<Decision>)
    requires a <= b
    ensures |a| <= |b|
  {
    assert b == a + (b - a);
  }

  /** Positions holding distinct decisions of a set are at most as many as the set. */
  lemma {:induction false} Pigeonhole(ds: seq<Decision>, at: set<nat>, values: set<Decision>)
    requires forall n :: n in at ==> n < |ds| && ds[n] in values
    requires forall n, m :: n in at && m in at && n != m ==> ds[n] != ds[m]
    ensures |at| <= |values|
    decreases |at|
  {
    if at != {} {
      var n :| n in at;
      Pigeonhole(ds, at - {n}, values - {ds[n]});
    }
  }

  /** In every run a trade's refund is prepared at most once, and then at most once more for each observation and
      each of the four states a further refund can be prepared in. */
  lemma RefundBound(trades: seq<Trade>, events: seq<Event>, tradeId: string)
    requires DistinctTrades(trades)
    ensures |RefundsAt(Run(trades, events), tradeId)| <= 1 + 4 * |EmptySeen(events, tradeId)|
  {
    hide Inv, Run, ReviewState, IsTerminal, FurtherRefunds, EmptySeen;
    var w := Run(trades, events);
    var at := RefundsAt(w, tradeId);
    if at != {} {
      RunKeepsInv(trades, events);
      InvIs(w);
      var first := LeastOf(at);
      forall n | n in at && n != first
        ensures w.signer[n] in FurtherRefunds(tradeId, w.signer[first].snapshot.deadlines, EmptySeen(events, tradeId))
      {
        FurtherRefund(trades, events, first, n);
      }
      FurtherRefundsSize(tradeId, w.signer[first].snapshot.deadlines, EmptySeen(events, tradeId));
      Pigeonhole(w.signer, at - {first}, FurtherRefunds(tradeId, w.signer[first].snapshot.deadlines, EmptySeen(events, tradeId)));
    }
  }

  lemma {:induction false} LeastOf(s: set<nat>) returns (least: nat)
    requires s != {}
    ensures least in s && forall n :: n in s ==> least <= n
    decreases |s|
  {
    var one :| one in s;
    var rest := s - {one};
    assert s == rest + {one};
    if rest == {} {
      least := one;
    } else {
      var other := LeastOf(rest);
      least := if one < other then one else other;
    }
  }

  lemma FurtherRefund(trades: seq<Trade>, events: seq<Event>, first: nat, n: nat)
    requires DistinctTrades(trades) && first < n < |Run(trades, events).signer|
    requires var w := Run(trades, events);
      w.signer[n].action.PreparePrlRefund? && ForTrade(w.signer[first], w.signer[n].snapshot.tradeId)
    ensures var w := Run(trades, events);
      w.signer[n] in FurtherRefunds(w.signer[n].snapshot.tradeId, w.signer[first].snapshot.deadlines, EmptySeen(events, w.signer[n].snapshot.tradeId))
  {
    hide Inv, Run, ReviewState, IsTerminal;
    var d := Run(trades, events).signer[n];
    RunKeepsInv(trades, events);
    InvIs(Run(trades, events));
    var i := PreparedAt(trades, events, n);
    assert d.snapshot.seen in EmptySeen(events, d.snapshot.tradeId);
    AgainIn(d.snapshot.tradeState);
    assert d == RefundOf(d.snapshot.tradeId, d.snapshot.tradeState, d.snapshot.deadlines, d.snapshot.seen);
  }

  lemma AgainIn(s: TradeState)
    ensures s in REFUNDABLE_AGAIN <==> Committed(s) && !ReviewState(s) && !IsTerminal(s)
  {
    hide IsTerminal;
    TerminalStates(s);
  }

  // ---- Where the exclusion stops ----

  lemma AloneIsWorkedOn(w: World, t: Trade, observe: string -> Observation, now: int)
    requires w.trades == [t] && IsOpen(t)
    ensures Iterate(w, observe, now) == WorkOn(w, t, observe(t.tradeId), now)
  {
    FilterAppend([], t, IsOpen);
    assert w.trades == [] + [t];
    assert OpenTrades(w.trades) == [t];
    assert [t][..0] == [];
    assert WorkThrough(w, [t][..0], observe, now) == w;
  }

  lemma RunOfTwo(trades: seq<Trade>, e: Event, f: Event)
    ensures Run(trades, [e, f]) == Apply(Apply(World(trades, {}, [], []), e), f)
  {
    assert [e, f][..1] == [e] && [e][..0] == [];
    assert Run(trades, [e]) == Apply(World(trades, {}, [], []), e);
  }

  /** An iteration over one open trade whose decision is new. */
  lemma WorkedOnce(w: World, t: Trade, o: Observation, now: int)
    requires w.trades == [t] && IsOpen(t) && DecisionFor(t, o, now) !in w.decisions
    ensures var d := DecisionFor(t, o, now);
      Apply(w, Iteration(now, _ => o)) == Execute(w.(decisions := w.decisions + {d}), d)
  {
    hide Decide;
    AloneIsWorkedOn(w, t, _ => o, now);
  }

  lemma SetStateAlone(t: Trade, to: TradeState)
    ensures SetState([t], t.tradeId, to) == [t.(state := to)]
  {
  }

  const SOME_DEADLINES := Deadlines(0, 100, 0, 0, 200)
  const SOME_PEARL := Pearl(Confirmed, "p", None, None, 1, 50)

  /** A Base status that falls from deposited to cancelled has the refund prepared after the release. */
  lemma BothPrepared() returns (t: Trade, events: seq<Event>)
    ensures Prepared(Run([t], events), PreparePrlRelease, t.tradeId) && Prepared(Run([t], events), PreparePrlRefund, t.tradeId)
    ensures !NeverFallsBack(events, t.tradeId)
  {
    hide Decide, SetState, IsTerminal, Run;
    t := Trade("t", UsdcEscrowConfirmed, SOME_DEADLINES, 1, 1, None, None, None);
    var o1 := Observation(SOME_PEARL, Base(BaseStatus.Deposited, "b1", None, 1, 60));
    var o2 := Observation(SOME_PEARL, Base(BaseStatus.Cancelled, "b2", None, 1, 70));
    var e1, e2 := Iteration(300, _ => o1), Iteration(300, _ => o2);
    events := [e1, e2];
    RunOfTwo([t], e1, e2);
    var d1, d2 := DecisionFor(t, o1, 300), DecisionFor(t.(state := ReleasePending), o2, 300);
    Decisions(t, o1, 300);
    WorkedOnce(World([t], {}, [], []), t, o1, 300);
    var w1 := Apply(World([t], {}, [], []), e1);
    SetStateAlone(t, ReleasePending);
    AgainIn(ReleasePending);
    Decisions(t.(state := ReleasePending), o2, 300);
    WorkedOnce(w1, t.(state := ReleasePending), o2, 300);
    var w := Run([t], events);
    assert w.signer == [d1, d2];
    assert w.signer[0].action == PreparePrlRelease && ForTrade(w.signer[0], t.tradeId);
    assert w.signer[1].action == PreparePrlRefund && ForTrade(w.signer[1], t.tradeId);
    assert events[0].observe(t.tradeId) == o1 && events[1].observe(t.tradeId) == o2;
  }

  // ---- How often a refund is prepared in fact ----

  const REFUNDED_TRADE := Trade("t", PearlEscrowConfirmed, SOME_DEADLINES, 1, 1, None, None, None)
  const UNPAID := Observation(SOME_PEARL, Base(NoEscrow, "b", None, 0, 0))
  const SEEN_UNPAID := Iteration(300, _ => UNPAID)

  ghost function RefundIn(state: TradeState): Decision {
    DecisionFor(REFUNDED_TRADE.(state := state), UNPAID, 300)
  }

  /** The trade is in the given state after the events, refunded so far in the given states, on the one observation. */
  ghost predicate RefundedSoFar(events: seq<Event>, states: seq<TradeState>, now: TradeState) {
    var w := Run([REFUNDED_TRADE], events);
    && w.trades == [REFUNDED_TRADE.(state := now)] && |w.signer| == |states|
    && (forall k :: 0 <= k < |states| ==>
          w.signer[k] == RefundIn(states[k]) && w.signer[k].action.PreparePrlRefund? && ForTrade(w.signer[k], "t"))
    && (forall d :: d in w.decisions ==> d in w.signer)
    && (forall i :: 0 <= i < |events| && events[i].Iteration? ==> events[i] == SEEN_UNPAID)
  }

  lemma RunThen(trades: seq<Trade>, events: seq<Event>, e: Event)
    ensures Run(trades, events + [e]) == Apply(Run(trades, events), e)
  {
    assert (events + [e])[..|events|] == events;
  }

  lemma MovedTo(events: seq<Event>, states: seq<TradeState>, from: TradeState, to: TradeState)
    requires RefundedSoFar(events, states, from) && to in AllowedTransitions(from)
    ensures RefundedSoFar(events + [Move("t", to)], states, to)
  {
    hide Run, DecisionFor, Iterate;
    RunThen([REFUNDED_TRADE], events, Move("t", to));
    SetStateAlone(REFUNDED_TRADE.(state := from), to);
  }

  /** One more refund of the trade, in a state it was not refunded in before. */
  lemma RefundedIn(events: seq<Event>, states: seq<TradeState>, state: TradeState)
    requires RefundedSoFar(events, states, state) && state !in states
    requires state.PearlEscrowConfirmed? || state in REFUNDABLE_AGAIN
    ensures RefundedSoFar(events + [SEEN_UNPAID], states + [state], RefundPending)
  {
    hide Run, Decide, SetState, Apply;
    var t := REFUNDED_TRADE.(state := state);
    RunThen([REFUNDED_TRADE], events, SEEN_UNPAID);
    TerminalStates(state);
    Decisions(t, UNPAID, 300);
    WorkedOnce(Run([REFUNDED_TRADE], events), t, UNPAID, 300);
    SetStateAlone(t, RefundPending);
  }

  lemma TwiceUnpaid()
    ensures RefundedSoFar([SEEN_UNPAID] + [SEEN_UNPAID], [PearlEscrowConfirmed] + [RefundPending], RefundPending)
  {
    hide Decide, Apply;
    assert RefundedSoFar([], [], PearlEscrowConfirmed);
    RefundedIn([], [], PearlEscrowConfirmed);
    assert [] + [SEEN_UNPAID] == [SEEN_UNPAID] && [] + [PearlEscrowConfirmed] == [PearlEscrowConfirmed];
    RefundedIn([SEEN_UNPAID], [PearlEscrowConfirmed], RefundPending);
  }

  /** A refund, unlike a release, is prepared again on an unchanged observation: preparing it changes the trade's
      state, and the state is part of the decision's key. */
  lemma RefundPreparedTwice() returns (t: Trade, e: Event)
    ensures e.Iteration? && NeverFallsBack([e, e], t.tradeId)
    ensures var w := Run([t], [e, e]);
      |w.signer| == 2 && w.signer[0].action == w.signer[1].action == PreparePrlRefund
      && ForTrade(w.signer[0], t.tradeId) && ForTrade(w.signer[1], t.tradeId)
  {
    hide Run, Decide;
    t, e := REFUNDED_TRADE, SEEN_UNPAID;
    TwiceUnpaid();
    assert [e] + [e] == [e, e];
  }

  /** The bound is reached: iterations on one unchanged observation prepare five refunds of a trade. */
  lemma RefundPreparedFiveTimes() returns (t: Trade, events: seq<Event>)
    ensures |EmptySeen(events, t.tradeId)| == 1 && |RefundsAt(Run([t], events), t.tradeId)| == 5
  {
    hide RefundedSoFar, RefundsAt, EmptySeen, Run;
    t := REFUNDED_TRADE;
    TwiceUnpaid();
    var twice := [SEEN_UNPAID] + [SEEN_UNPAID];
    var in2 := [PearlEscrowConfirmed] + [RefundPending];
    MovedTo(twice, in2, RefundPending, Disputed);
    var thrice := twice + [Move("t", Disputed)] + [SEEN_UNPAID];
    var in3 := in2 + [Disputed];
    RefundedIn(twice + [Move("t", Disputed)], in2, Disputed);
    var again := RefundedVia(thrice, in3, RefundAvailable);
    var in4 := in3 + [RefundAvailable];
    events := RefundedVia(again, in4, ReleasePending);
    CountedRefunds(events, in4 + [ReleasePending], RefundPending);
  }

  /** Over a dispute back to another state, and refunded in that. */
  lemma RefundedVia(events: seq<Event>, states: seq<TradeState>, state: TradeState) returns (more: seq<Event>)
    requires RefundedSoFar(events, states, RefundPending) && state in AllowedTransitions(Disputed)
    requires state in REFUNDABLE_AGAIN && state !in states
    ensures RefundedSoFar(more, states + [state], RefundPending) && SEEN_UNPAID in more
  {
    hide RefundedSoFar;
    MovedTo(events, states, RefundPending, Disputed);
    MovedTo(events + [Move("t", Disputed)], states, Disputed, state);
    RefundedIn(events + [Move("t", Disputed)] + [Move("t", state)], states, state);
    more := events + [Move("t", Disputed)] + [Move("t", state)] + [SEEN_UNPAID];
  }

  lemma CountedRefunds(events: seq<Event>, states: seq<TradeState>, now: TradeState)
    requires RefundedSoFar(events, states, now) && SEEN_UNPAID in events && |states| == 5
    ensures |EmptySeen(events, "t")| == 1 && |RefundsAt(Run([REFUNDED_TRADE], events), "t")| == 5
  {
    hide Run, DecisionFor;
    assert EmptySeen(events, "t") == {UNPAID};
    assert RefundsAt(Run([REFUNDED_TRADE], events), "t") == {0, 1, 2, 3, 4};
  }
}
