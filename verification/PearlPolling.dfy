/**
 Polling a block source over the block table: services/pearl-indexer/src/block-poller.ts with the scanning sink of
 funding-scanner.ts, restarted by main.ts.  The watch store is whatever `StoreOps` says, as the sink takes any repository.

 Main results: `RunKeeps` (whatever the source answers, the live rows are a linked chain and the store stays right for
 it), `Converges` and `SettlesIff` (against a fixed chain the poller settles in a known number of polls, or never looks).
 */
module PearlPolling {
  import opened Wrappers
  import opened PearlChain

  /** What a watch store does with a newly saved block and with the hash of a detached one. */
  datatype StoreOps<!S> = StoreOps(scan: (S, Block) -> S, detach: (S, Hash) -> S)

  datatype Indexer<S> = Indexer(chain: Chain, store: S)

  /** One `saveBlock` of the funding scanner over the block table. */
  ghost function ScanStep<S>(ops: StoreOps<S>, ix: Indexer<S>, b: Block): (Indexer<S>, SaveResult) {
    var (chain, r) := SaveStep(ix.chain, b);
    match r
    case Saved => (Indexer(chain, ops.scan(ix.store, b)), r)
    case Duplicate => (Indexer(chain, ix.store), r)
    case Reorg(_, h, _) => (Indexer(chain, ops.detach(ix.store, h)), r)
    case Failed => (Indexer(chain, ix.store), r)
  }

  // ---- The poller ----

  datatype PollOutcome =
    | Polled(fromHeight: int, toHeight: int, indexedBlocks: nat, nextHeight: int, reorgFrom: Option<int>)
    | Crashed

  /** `pollOnce` from `height` on; `answers` are the source's hashes, and a missing one is a failed call. */
  ghost function PollFrom<S>(ops: StoreOps<S>, ix: Indexer<S>, from: int, height: int, tip: int, answers: seq<Hash>,
                             indexed: nat, getBlock: Hash -> Block): (Indexer<S>, PollOutcome)
    requires from <= height
    decreases tip - height
  {
    if height > tip then (ix, Polled(from, tip, indexed, tip + 1, None))
    else if height - from >= |answers| then (ix, Crashed)
    else
      var (ix', r) := ScanStep(ops, ix, getBlock(answers[height - from]));
      match r
      case Reorg(d, _, _) => (ix', Polled(from, height - 1, indexed, d, Some(d)))
      case Failed => (ix', Crashed)
      case Saved => PollFrom(ops, ix', from, height + 1, tip, answers, indexed + 1, getBlock)
      case Duplicate => PollFrom(ops, ix', from, height + 1, tip, answers, indexed, getBlock)
  }

  ghost function Poll<S>(ops: StoreOps<S>, ix: Indexer<S>, next: int, tip: int, answers: seq<Hash>,
                         getBlock: Hash -> Block): (Indexer<S>, PollOutcome)
  {
    if next > tip then (ix, Polled(next, tip, 0, next, None))
    else PollFrom(ops, ix, next, next, tip, answers, 0, getBlock)
  }

  // ---- The service: polls, and restarts after a failed call ----

  datatype Service<S> = Service(ix: Indexer<S>, nextHeight: int)
  datatype Event = PollNow(tip: int, answers: seq<Hash>) | Restart

  /** A restarted process finds block table and watch store as they were, and takes its height from the table. */
  ghost predicate Restarted<S>(ix: Indexer<S>, start: int, sv': Service<S>) {
    sv'.ix == ix && ResumesAt(ix.chain, start, sv'.nextHeight)
  }

  ghost predicate Step<S>(ops: StoreOps<S>, sv: Service<S>, ev: Event, sv': Service<S>, start: int, getBlock: Hash -> Block) {
    match ev
    case Restart => Restarted(sv.ix, start, sv')
    case PollNow(tip, answers) =>
      match Poll(ops, sv.ix, sv.nextHeight, tip, answers, getBlock)
      case (ix', Polled(_, _, _, n, _)) => sv' == Service(ix', n)
      case (ix', Crashed) => Restarted(ix', start, sv')
  }

  /** The source answers each height with some block of that height; the chain may change between answers. */
  ghost predicate HonestAnswers<S>(sv: Service<S>, ev: Event, getBlock: Hash -> Block) {
    ev.PollNow? ==> forall i :: 0 <= i < |ev.answers| ==> getBlock(ev.answers[i]).height == sv.nextHeight + i
  }

  ghost predicate Run<S>(ops: StoreOps<S>, trace: seq<Service<S>>, events: seq<Event>, start: int, getBlock: Hash -> Block) {
    && |trace| == |events| + 1
    && forall i :: 0 <= i < |events| ==>
         Step(ops, trace[i], events[i], trace[i + 1], start, getBlock) && HonestAnswers(trace[i], events[i], getBlock)
  }

  // ---- The invariant ----

  ghost predicate Source(start: int, getBlock: Hash -> Block) {
    0 <= start && Authentic(getBlock)
  }

  /** Saving and detaching keep a property of the store and the live chain. */
  ghost predicate Keeps<S(!new)>(ops: StoreOps<S>, good: (S, seq<Hash>) -> bool, start: int, getBlock: Hash -> Block) {
    && (forall s, live, h :: good(s, live) && IsChain(live + [h], start, getBlock) ==> good(ops.scan(s, getBlock(h)), live + [h]))
    && (forall s, live, h :: good(s, live + [h]) && IsChain(live + [h], start, getBlock) ==> good(ops.detach(s, h), live))
  }

  ghost predicate Inv<S>(ix: Indexer<S>, good: (S, seq<Hash>) -> bool, start: int, live: seq<Hash>, getBlock: Hash -> Block) {
    Represents(ix.chain, start, live, getBlock) && good(ix.store, live)
  }

  lemma PushedIsChain(live: seq<Hash>, start: int, b: Block, getBlock: Hash -> Block)
    requires IsChain(live, start, getBlock) && Extends(live, b)
    requires b == getBlock(b.hash) && b.height == start + |live|
    ensures IsChain(live + [b.hash], start, getBlock)
  {
  }

  /** One saved block: the chain moves as a stack and the store stays right for it. */
  lemma ScanKeepsInv<S(!new)>(ops: StoreOps<S>, ix: Indexer<S>, good: (S, seq<Hash>) -> bool, start: int, live: seq<Hash>,
                              b: Block, getBlock: Hash -> Block)
    requires Source(start, getBlock) && Keeps(ops, good, start, getBlock) && Inv(ix, good, start, live, getBlock)
    requires b == getBlock(b.hash) && b.height == start + |live|
    ensures var (ix', r) := ScanStep(ops, ix, b);
      && Inv(ix', good, start, PushOrPop(live, b), getBlock)
      && r == (if Extends(live, b) then Saved else Reorg(start + |live| - 1, live[|live| - 1], b.previousHash))
      && (Extends(live, b) ==> ix'.store == ops.scan(ix.store, b))
  {
    hide IsChain, SaveStep, Extends, Keeps;
    SaveRefines(ix.chain, start, live, b, getBlock);
    if Extends(live, b) {
      PushedIsChain(live, start, b, getBlock);
      KeepsScan(ops, good, start, getBlock, ix.store, live, b.hash);
    } else {
      NotExtended(live, b);
      assert live == live[..|live| - 1] + [live[|live| - 1]];
      KeepsDetach(ops, good, start, getBlock, ix.store, live[..|live| - 1], live[|live| - 1]);
    }
  }

  lemma NotExtended(live: seq<Hash>, b: Block)
    requires !Extends(live, b)
    ensures live != []
  {
  }

  lemma KeepsScan<S(!new)>(ops: StoreOps<S>, good: (S, seq<Hash>) -> bool, start: int, getBlock: Hash -> Block, s: S, live: seq<Hash>, h: Hash)
    requires Keeps(ops, good, start, getBlock) && good(s, live) && IsChain(live + [h], start, getBlock)
    ensures good(ops.scan(s, getBlock(h)), live + [h])
  {
  }

  lemma KeepsDetach<S(!new)>(ops: StoreOps<S>, good: (S, seq<Hash>) -> bool, start: int, getBlock: Hash -> Block, s: S, live: seq<Hash>, h: Hash)
    requires Keeps(ops, good, start, getBlock) && good(s, live + [h]) && IsChain(live + [h], start, getBlock)
    ensures good(ops.detach(s, h), live)
  {
  }

  // ---- Every run ----

  lemma HashOf(start: int, getBlock: Hash -> Block, h: Hash)
    requires Source(start, getBlock)
    ensures getBlock(h).hash == h
  {
  }

  /** A poll keeps the invariant, leaves `next_height` just above the live chain, and reports what it did: each height from
      the first up to `toHeight` was indexed, which is the tip unless a block was detached, and then that block's height. */
  lemma PollFromKeepsInv<S(!new)>(ops: StoreOps<S>, ix: Indexer<S>, good: (S, seq<Hash>) -> bool, from: int, height: int, tip: int,
                                  answers: seq<Hash>, indexed: nat, getBlock: Hash -> Block, start: int, live: seq<Hash>)
    returns (live': seq<Hash>)
    requires Source(start, getBlock) && Keeps(ops, good, start, getBlock) && Inv(ix, good, start, live, getBlock)
    requires from <= height == start + |live| <= tip + 1
    requires forall i :: 0 <= i < |answers| ==> getBlock(answers[i]).height == from + i
    ensures var (ix', r) := PollFrom(ops, ix, from, height, tip, answers, indexed, getBlock);
      && Inv(ix', good, start, live', getBlock)
      && (r.Polled? ==>
            && r.nextHeight == start + |live'| && r.fromHeight == from && r.indexedBlocks == indexed + (r.toHeight + 1 - height)
            && (r.reorgFrom.None? ==> r.toHeight == tip && r.nextHeight == tip + 1 && live <= live')
            && (r.reorgFrom.Some? ==> r.reorgFrom.value == r.nextHeight == r.toHeight < tip))
      && (r.Crashed? ==> from + |answers| <= tip)
    decreases tip - height
  {
    hide Inv, Source, ScanStep, Keeps;
    live' := live;
    if height <= tip && height - from < |answers| {
      var b := getBlock(answers[height - from]);
      HashOf(start, getBlock, answers[height - from]);
      ScanKeepsInv(ops, ix, good, start, live, b, getBlock);
      live' := PushOrPop(live, b);
      if Extends(live, b) {
        live' := PollFromKeepsInv(ops, ScanStep(ops, ix, b).0, good, from, height + 1, tip, answers, indexed + 1,
                                  getBlock, start, live');
      }
    }
  }

  lemma StepKeepsInv<S(!new)>(ops: StoreOps<S>, sv: Service<S>, ev: Event, sv': Service<S>, good: (S, seq<Hash>) -> bool, start: int,
                              getBlock: Hash -> Block, live: seq<Hash>) returns (live': seq<Hash>)
    requires Source(start, getBlock) && Keeps(ops, good, start, getBlock) && Inv(sv.ix, good, start, live, getBlock)
    requires sv.nextHeight == start + |live|
    requires Step(ops, sv, ev, sv', start, getBlock) && HonestAnswers(sv, ev, getBlock)
    ensures Inv(sv'.ix, good, start, live', getBlock) && sv'.nextHeight == start + |live'|
  {
    live' := live;
    if ev.PollNow? && sv.nextHeight <= ev.tip {
      live' := PollFromKeepsInv(ops, sv.ix, good, sv.nextHeight, sv.nextHeight, ev.tip, ev.answers, 0, getBlock, start, live);
    }
    hide PollFrom, Source, IsChain, Keeps, RowsAre;
    RestartResumes(sv'.ix.chain, start, live', getBlock, sv'.nextHeight);
  }

  /**
   Whatever chain the source switches to between calls and wherever a call fails: the rows that are not detached stay
   one linked block per height up to `next_height - 1`, the poller's own height is that `next_height`, and the store
   stays right for that chain.
   */
  lemma {:induction false} RunKeeps<S(!new)>(ops: StoreOps<S>, trace: seq<Service<S>>, events: seq<Event>, good: (S, seq<Hash>) -> bool,
                                             start: int, getBlock: Hash -> Block) returns (live: seq<Hash>)
    requires Source(start, getBlock) && Keeps(ops, good, start, getBlock) && Run(ops, trace, events, start, getBlock)
    requires trace[0].ix.chain == Chain(map[], None) && trace[0].nextHeight == start && good(trace[0].ix.store, [])
    ensures Inv(trace[|events|].ix, good, start, live, getBlock) && trace[|events|].nextHeight == start + |live|
    decreases |events|
  {
    live := [];
    if events != [] {
      hide Step, Keeps, Source, Inv, HonestAnswers;
      var n := |events| - 1;
      live := RunKeeps(ops, trace[..n + 1], events[..n], good, start, getBlock);
      assert trace[..n + 1][n] == trace[n];
      live := StepKeepsInv(ops, trace[n], events[n], trace[n + 1], good, start, getBlock, live);
    }
  }

  // ---- Convergence ----

  /** The length of the common prefix of two chains. */
  function Common(a: seq<Hash>, b: seq<Hash>): (n: nat)
    ensures n <= |a| && n <= |b| && (forall k :: 0 <= k < n ==> a[k] == b[k])
    ensures n < |a| && n < |b| ==> a[n] != b[n]
  {
    if a == [] || b == [] || a[0] != b[0] then 0 else 1 + Common(a[1..], b[1..])
  }

  /** Two chains that agree on one block agree on everything below it. */
  lemma {:induction false} AgreeBelow(a: seq<Hash>, b: seq<Hash>, n: nat, start: int, getBlock: Hash -> Block)
    requires IsChain(a, start, getBlock) && IsChain(b, start, getBlock)
    requires 0 < n <= |a| && n <= |b| && a[n - 1] == b[n - 1]
    ensures a[..n] == b[..n]
  {
    if n > 1 {
      assert getBlock(a[n - 1]).previousHash == Some(a[n - 2]) && getBlock(b[n - 1]).previousHash == Some(b[n - 2]);
      AgreeBelow(a, b, n - 1, start, getBlock);
    }
    assert a[..n] == a[..n - 1] + [a[n - 1]] && b[..n] == b[..n - 1] + [b[n - 1]];
  }

  /** Below the source chain's tip, the poller extends its live chain exactly when that is a prefix of the source's. */
  lemma ExtendsIffPrefix(live: seq<Hash>, source: seq<Hash>, start: int, getBlock: Hash -> Block)
    requires IsChain(live, start, getBlock) && IsChain(source, start, getBlock) && |live| < |source|
    ensures Extends(live, getBlock(source[|live|])) <==> live <= source
  {
    var n := |live|;
    if n > 0 {
      assert getBlock(source[n]).previousHash == Some(source[n - 1]);
      if live[n - 1] == source[n - 1] {
        AgreeBelow(live, source, n, start, getBlock);
        assert live[..n] == live;
      }
    }
  }

  /** A poll of a chain that extends the live one indexes all of it. */
  lemma PollCatchesUp<S(!new)>(ops: StoreOps<S>, ix: Indexer<S>, good: (S, seq<Hash>) -> bool, from: int, height: int,
                               source: seq<Hash>, indexed: nat, getBlock: Hash -> Block, start: int)
    requires Source(start, getBlock) && Keeps(ops, good, start, getBlock) && IsChain(source, start, getBlock)
    requires start <= from <= height <= start + |source|
    requires Inv(ix, good, start, source[..height - start], getBlock)
    ensures var (ix', r) := PollFrom(ops, ix, from, height, start + |source| - 1, source[from - start..], indexed, getBlock);
      && Inv(ix', good, start, source, getBlock)
      && r == Polled(from, start + |source| - 1, indexed + start + |source| - height, start + |source|, None)
    decreases start + |source| - height
  {
    hide Inv, Source, ScanStep, IsChain, Keeps;
    var live := source[..height - start];
    if height == start + |source| {
      assert live == source;
    } else {
      var h := source[height - start];
      assert source[from - start..][height - from] == h;
      HashOf(start, getBlock, h);
      SourceExtends(source, height - start, start, getBlock);
      ScanKeepsInv(ops, ix, good, start, live, getBlock(h), getBlock);
      assert source[..height + 1 - start] == live + [h];
      hide Extends;
      PollCatchesUp(ops, ScanStep(ops, ix, getBlock(h)).0, good, from, height + 1, source, indexed + 1, getBlock, start);
    }
  }

  lemma SourceExtends(source: seq<Hash>, n: nat, start: int, getBlock: Hash -> Block)
    requires IsChain(source, start, getBlock) && n < |source|
    ensures Extends(source[..n], getBlock(source[n])) && getBlock(source[n]).height == start + n
  {
    if n > 0 { assert getBlock(source[n]).previousHash == Some(source[n - 1]); }
  }

  /** A poll of a chain that does not extend the live one pops the top block, which is not on the source chain. */
  lemma PollPops<S(!new)>(ops: StoreOps<S>, ix: Indexer<S>, good: (S, seq<Hash>) -> bool, live: seq<Hash>, source: seq<Hash>,
                          getBlock: Hash -> Block, start: int)
    requires Source(start, getBlock) && Keeps(ops, good, start, getBlock) && IsChain(source, start, getBlock) && |live| < |source|
    requires Inv(ix, good, start, live, getBlock) && !(live <= source)
    ensures var next := start + |live|;
      var (ix', r) := Poll(ops, ix, next, start + |source| - 1, source[|live|..], getBlock);
      && Inv(ix', good, start, live[..|live| - 1], getBlock)
      && r == Polled(next, next - 1, 0, next - 1, Some(next - 1))
    ensures live[|live| - 1] !in source
  {
    var b := getBlock(source[|live|]);
    assert source[|live|..][0] == source[|live|];
    HashOf(start, getBlock, source[|live|]);
    ExtendsIffPrefix(live, source, start, getBlock);
    forall i | 0 <= i < |source|
      ensures source[i] != live[|live| - 1]
    {
      assert getBlock(source[i]).height == start + i;
    }
    hide Inv, Source, ScanStep, IsChain, Keeps;
    ScanKeepsInv(ops, ix, good, start, live, b, getBlock);
  }

  /** The source's answers from a height on; above its tip it has none. */
  function AnswersFrom(source: seq<Hash>, from: int): seq<Hash> {
    if 0 <= from <= |source| then source[from..] else []
  }

  /** Every event is a poll that the same source chain answers. */
  ghost predicate PollsOf<S>(trace: seq<Service<S>>, events: seq<Event>, source: seq<Hash>, start: int) {
    |trace| == |events| + 1 && forall i :: 0 <= i < |events| ==>
      events[i] == PollNow(start + |source| - 1, AnswersFrom(source, trace[i].nextHeight - start))
  }

  /** Each poll starts one height lower than the one before, and all but the last pop a block that is not on the source. */
  ghost predicate Descends<S>(trace: seq<Service<S>>, events: seq<Event>, live: seq<Hash>, source: seq<Hash>, start: int) {
    && |trace| == |events| + 1 && |events| <= |live| + 1
    && forall i :: 0 <= i < |events| ==>
         trace[i].nextHeight == start + |live| - i
         && (i < |events| - 1 ==> live[|live| - 1 - i] !in source)
  }

  lemma DescendsOneMore<S>(trace: seq<Service<S>>, events: seq<Event>, live: seq<Hash>, source: seq<Hash>, start: int)
    requires |trace| == |events| + 1 && events != [] && live != []
    requires Descends(trace[1..], events[1..], live[..|live| - 1], source, start)
    requires trace[0].nextHeight == start + |live| && live[|live| - 1] !in source
    ensures Descends(trace, events, live, source, start)
  {
    var live' := live[..|live| - 1];
    forall i | 0 < i < |events|
      ensures trace[i].nextHeight == start + |live| - i
      ensures i < |events| - 1 ==> live[|live| - 1 - i] !in source
    {
      assert trace[i] == trace[1..][i - 1];
      assert i < |events| - 1 ==> live[|live| - 1 - i] == live'[|live'| - 1 - (i - 1)];
    }
  }

  /**
   Against a fixed chain that is longer than the live one, the poller is done after exactly
   `|live| - Common(live, source)` reorg polls and one more: each reorg poll lowers `next_height` by
   one and pops a block that is not on the source chain, and the last poll indexes the whole chain.
   */
  lemma {:induction false} Converges<S(!new)>(ops: StoreOps<S>, trace: seq<Service<S>>, events: seq<Event>, good: (S, seq<Hash>) -> bool,
                                              start: int, getBlock: Hash -> Block, live: seq<Hash>, source: seq<Hash>)
    requires Source(start, getBlock) && Keeps(ops, good, start, getBlock) && Run(ops, trace, events, start, getBlock)
    requires IsChain(source, start, getBlock) && |live| < |source| && PollsOf(trace, events, source, start)
    requires Inv(trace[0].ix, good, start, live, getBlock) && trace[0].nextHeight == start + |live|
    requires |events| == |live| - Common(live, source) + 1
    ensures var sv := trace[|events|];
      Inv(sv.ix, good, start, source, getBlock) && sv.nextHeight == start + |source|
    ensures Descends(trace, events, live, source, start)
    decreases |live|
  {
    hide Source, Inv, IsChain, Common, Poll, Descends, Keeps;
    if live <= source {
      LastPoll(ops, trace, events, good, start, getBlock, live, source);
    } else {
      FirstPollPops(ops, trace, events, good, start, getBlock, live, source);
      var live' := live[..|live| - 1];
      CommonOfPopped(live, source);
      RunTail(ops, trace, events, start, getBlock, source);
      hide Run, PollsOf;
      Converges(ops, trace[1..], events[1..], good, start, getBlock, live', source);
      assert trace[1..][|events| - 1] == trace[|events|];
      DescendsOneMore(trace, events, live, source, start);
    }
  }

  lemma LastPoll<S(!new)>(ops: StoreOps<S>, trace: seq<Service<S>>, events: seq<Event>, good: (S, seq<Hash>) -> bool, start: int,
                          getBlock: Hash -> Block, live: seq<Hash>, source: seq<Hash>)
    requires Source(start, getBlock) && Keeps(ops, good, start, getBlock) && Run(ops, trace, events, start, getBlock)
    requires IsChain(source, start, getBlock) && |live| < |source| && PollsOf(trace, events, source, start)
    requires Inv(trace[0].ix, good, start, live, getBlock) && trace[0].nextHeight == start + |live|
    requires live <= source && |events| == |live| - Common(live, source) + 1
    ensures |events| == 1 && Descends(trace, events, live, source, start)
    ensures Inv(trace[1].ix, good, start, source, getBlock) && trace[1].nextHeight == start + |source|
  {
    hide Source, Inv, IsChain, Common, PollFrom, HonestAnswers, Keeps;
    var sv := trace[0];
    CommonIs(live, source, |live|);
    assert source[..|live|] == live;
    PollCatchesUp(ops, sv.ix, good, sv.nextHeight, sv.nextHeight, source, 0, getBlock, start);
    assert Step(ops, trace[0], events[0], trace[1], start, getBlock);
  }

  lemma FirstPollPops<S(!new)>(ops: StoreOps<S>, trace: seq<Service<S>>, events: seq<Event>, good: (S, seq<Hash>) -> bool, start: int,
                               getBlock: Hash -> Block, live: seq<Hash>, source: seq<Hash>)
    requires Source(start, getBlock) && Keeps(ops, good, start, getBlock)
    requires Run(ops, trace, events, start, getBlock) && events != []
    requires IsChain(source, start, getBlock) && |live| < |source| && PollsOf(trace, events, source, start)
    requires Inv(trace[0].ix, good, start, live, getBlock) && trace[0].nextHeight == start + |live|
    requires !(live <= source)
    ensures Inv(trace[1].ix, good, start, live[..|live| - 1], getBlock)
    ensures trace[1].nextHeight == start + |live| - 1 && live[|live| - 1] !in source
  {
    hide Source, Inv, IsChain, Poll, Keeps;
    PollPops(ops, trace[0].ix, good, live, source, getBlock, start);
    assert Step(ops, trace[0], events[0], trace[1], start, getBlock);
  }

  lemma RunTail<S(!new)>(ops: StoreOps<S>, trace: seq<Service<S>>, events: seq<Event>, start: int, getBlock: Hash -> Block, source: seq<Hash>)
    requires Run(ops, trace, events, start, getBlock) && PollsOf(trace, events, source, start) && events != []
    ensures Run(ops, trace[1..], events[1..], start, getBlock) && PollsOf(trace[1..], events[1..], source, start)
  {
    hide Step, HonestAnswers, AnswersFrom;
    forall i | 0 <= i < |events| - 1
      ensures Step(ops, trace[1..][i], events[1..][i], trace[1..][i + 1], start, getBlock)
      ensures HonestAnswers(trace[1..][i], events[1..][i], getBlock)
      ensures events[1..][i] == PollNow(start + |source| - 1, AnswersFrom(source, trace[1..][i].nextHeight - start))
    {
      assert Step(ops, trace[i + 1], events[i + 1], trace[i + 2], start, getBlock);
    }
  }

  lemma {:induction false} CommonIs(a: seq<Hash>, b: seq<Hash>, n: nat)
    requires n <= |a| && n <= |b| && (forall k :: 0 <= k < n ==> a[k] == b[k])
    requires n < |a| && n < |b| ==> a[n] != b[n]
    ensures Common(a, b) == n
  {
    if n > 0 { CommonIs(a[1..], b[1..], n - 1); }
  }

  lemma CommonOfPopped(live: seq<Hash>, source: seq<Hash>)
    requires !(live <= source) && |live| <= |source|
    ensures live != [] && Common(live, source) < |live|
    ensures Common(live[..|live| - 1], source) == Common(live, source)
  {
    var n := Common(live, source);
    var live' := live[..|live| - 1];
    assert n < |live'| ==> live'[n] == live[n];
    hide Common;
    CommonIs(live', source, n);
  }

  /** However often a chain whose tip is below `next_height` is polled, nothing changes. */
  lemma {:induction false} NeverSeen<S>(ops: StoreOps<S>, trace: seq<Service<S>>, events: seq<Event>, source: seq<Hash>, start: int,
                                        getBlock: Hash -> Block)
    requires Run(ops, trace, events, start, getBlock) && PollsOf(trace, events, source, start)
    requires start + |source| <= trace[0].nextHeight
    ensures trace[|events|] == trace[0]
    decreases |events|
  {
    if events != [] {
      hide PollFrom, HonestAnswers, AnswersFrom;
      var n := |events| - 1;
      assert Step(ops, trace[n], events[n], trace[n + 1], start, getBlock);
      NeverSeen(ops, trace[..n + 1], events[..n], source, start, getBlock);
      assert trace[..n + 1][n] == trace[n];
    }
  }

  /** Polled often enough, a fixed source chain becomes the live one if it is longer, and otherwise never does. */
  lemma SettlesIff<S(!new)>(ops: StoreOps<S>, trace: seq<Service<S>>, events: seq<Event>, good: (S, seq<Hash>) -> bool, start: int,
                            getBlock: Hash -> Block, live: seq<Hash>, source: seq<Hash>)
    requires Source(start, getBlock) && Keeps(ops, good, start, getBlock) && Run(ops, trace, events, start, getBlock)
    requires IsChain(source, start, getBlock) && PollsOf(trace, events, source, start)
    requires Inv(trace[0].ix, good, start, live, getBlock) && trace[0].nextHeight == start + |live|
    requires |live| < |events|
    ensures var settled := if |live| < |source| then source else live;
      Inv(trace[|events|].ix, good, start, settled, getBlock) && trace[|events|].nextHeight == start + |settled|
  {
    hide Source, Inv, IsChain, Common, Keeps, Step, HonestAnswers, AnswersFrom;
    if |live| < |source| {
      var k := |live| - Common(live, source) + 1;
      Converges(ops, trace[..k + 1], events[..k], good, start, getBlock, live, source);
      assert trace[..k + 1][k] == trace[k..][0];
      RunFrom(ops, trace, events, source, start, getBlock, k);
      NeverSeen(ops, trace[k..], events[k..], source, start, getBlock);
      assert trace[k..][|events| - k] == trace[|events|];
    } else {
      NeverSeen(ops, trace, events, source, start, getBlock);
    }
  }

  lemma RunFrom<S(!new)>(ops: StoreOps<S>, trace: seq<Service<S>>, events: seq<Event>, source: seq<Hash>, start: int,
                         getBlock: Hash -> Block, k: nat)
    requires Run(ops, trace, events, start, getBlock) && PollsOf(trace, events, source, start) && k <= |events|
    ensures Run(ops, trace[k..], events[k..], start, getBlock) && PollsOf(trace[k..], events[k..], source, start)
    decreases k
  {
    if k > 0 {
      hide Run, PollsOf;
      RunTail(ops, trace, events, start, getBlock, source);
      RunLengths(ops, trace, events, start, getBlock);
      RunFrom(ops, trace[1..], events[1..], source, start, getBlock, k - 1);
      assert trace[1..][k - 1..] == trace[k..] && events[1..][k - 1..] == events[k..];
    } else {
      assert trace[0..] == trace && events[0..] == events;
    }
  }

  lemma RunLengths<S>(ops: StoreOps<S>, trace: seq<Service<S>>, events: seq<Event>, start: int, getBlock: Hash -> Block)
    requires Run(ops, trace, events, start, getBlock)
    ensures |trace| == |events| + 1
  {
  }
}
