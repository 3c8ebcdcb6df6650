/**
 What one saved block does to each row of the SQL watch store, said of the block, the watches and the rows before it
 (services/pearl-indexer/src/funding-scanner.ts and watched-address-repository.ts).

 Main results: `ScannedOutput` (the row an output gets: whose it is, its verdict and its status), `ScannedRow` (what the
 block changes in any other row) and `SavedOutput` with `SavedRow` (the same for each block saved to the live chain).
 */
module FundingVerdicts {
  import opened Wrappers
  import opened PearlChain
  import opened WatchedAddresses
  import opened FundingIndex
  import opened PgWatchedAddresses
  import opened PearlPolling
  import opened PearlIndexer

  // ---- The terms ----

  /** The output pays the address of a watch that is open on the network. */
  predicate Watching(w: Watch, network: string, o: Output) {
    w.active && w.network == network && w.address != "" && o.address == Some(w.address)
  }

  /** The first watch the output pays. */
  predicate FirstWatching(ws: seq<Watch>, network: string, o: Output, k: nat)
    requires k < |ws|
  {
    Watching(ws[k], network, o) && forall i :: 0 <= i < k ==> !Watching(ws[i], network, o)
  }

  /** A height beats a time; the deadline itself is in time. */
  predicate OutOfTime(w: Watch, b: Block) {
    || (w.deadlineHeight.Some? && w.deadlineHeight.value < b.height)
    || (w.deadlineHeight.None? && w.deadlineTs.Some? && w.deadlineTs.value < b.timestamp)
  }

  predicate HasTerms(w: Watch) {
    w.expectedAmountGrains.Some? && !(w.deadlineHeight.None? && w.deadlineTs.None?)
  }

  /** When each verdict on an output of `amount` in block `b` is right. */
  predicate VerdictIs(c: Classification, w: Watch, b: Block, amount: nat, second: bool) {
    && (c == DuplicateFunding <==> second)
    && (c == UnknownFunding <==> !second && !HasTerms(w))
    && (c == Late <==> !second && HasTerms(w) && OutOfTime(w, b))
    && (c == Underpaid <==> !second && HasTerms(w) && !OutOfTime(w, b) && amount < w.expectedAmountGrains.value)
    && (c == Overpaid <==> !second && HasTerms(w) && !OutOfTime(w, b) && amount > w.expectedAmountGrains.value)
    && (c == OnTime <==> !second && HasTerms(w) && !OutOfTime(w, b) && amount == w.expectedAmountGrains.value)
  }

  /** One of the first `n` inputs of the block spends the outpoint. */
  predicate SpentIn(b: Block, n: nat, outpoint: string)
    requires n <= |b.inputs|
  {
    outpoint != "" && exists i :: 0 <= i < n && b.inputs[i].spentOutpoint == Some(outpoint)
  }

  /** The watch has a live row. */
  predicate HasLiveRow(s: PgStore, id: string) {
    exists p :: p in s.rows && s.rows[p].watchId == id && s.rows[p].matchStatus != Detached
  }

  /** One of the first `j` outputs of the block goes to the watch. */
  predicate PaidBefore(ws: seq<Watch>, network: string, b: Block, j: nat, id: string)
    requires j <= |b.outputs|
  {
    exists i, k :: 0 <= i < j && 0 <= k < |ws| && FirstWatching(ws, network, b.outputs[i], k) && ws[k].watchId == id
  }

  /** `o` is `was` after a block at `tip` that spends it or not. */
  predicate Settled(was: Observation, o: Observation, spent: bool, tip: int, required: int) {
    && o == was.(matchStatus := o.matchStatus, confirmations := o.confirmations)
    && (o.matchStatus == Detached <==> was.matchStatus == Detached)
    && (o.matchStatus == Spent <==> was.matchStatus == Spent || (spent && was.matchStatus != Detached))
    && (o.matchStatus == Spent || o.matchStatus == Detached ==> o.confirmations == was.confirmations)
    && (o.matchStatus == Pending || o.matchStatus == Confirmed ==>
          o.confirmations == tip - was.height + 1 && (o.matchStatus == Confirmed <==> required <= o.confirmations))
  }

  // ---- Whose output it is ----

  lemma {:induction false} FirstIs(ws: seq<Watch>, network: string, o: Output)
    ensures var matching := ActiveAt(ws, network, o);
      && (matching == [] <==> forall k :: 0 <= k < |ws| ==> !Watching(ws[k], network, o))
      && (matching != [] ==> exists k :: 0 <= k < |ws| && FirstWatching(ws, network, o, k) && matching[0] == ws[k])
  {
    if ws != [] {
      FirstIs(ws[1..], network, o);
      assert Matches(ws[0], network, o) == Watching(ws[0], network, o);
      hide Matches, Watching;
      assert forall k :: 0 < k < |ws| ==> ws[k] == ws[1..][k - 1];
      if Watching(ws[0], network, o) {
        assert FirstWatching(ws, network, o, 0);
      } else if ActiveAt(ws[1..], network, o) != [] {
        var k :| 0 <= k < |ws[1..]| && FirstWatching(ws[1..], network, o, k) && ActiveAt(ws[1..], network, o)[0] == ws[1..][k];
        assert FirstWatching(ws, network, o, k + 1);
      }
    }
  }

  lemma FirstIsOne(ws: seq<Watch>, network: string, o: Output, i: nat, k: nat)
    requires i < |ws| && k < |ws| && FirstWatching(ws, network, o, i) && FirstWatching(ws, network, o, k)
    ensures i == k
  {
  }

  /** The first watch an output pays is the one that gets it. */
  lemma FirstMatches(ws: seq<Watch>, network: string, o: Output, k: nat)
    requires k < |ws| && FirstWatching(ws, network, o, k)
    ensures ActiveAt(ws, network, o) != [] && ActiveAt(ws, network, o)[0] == ws[k]
  {
    hide ActiveAt, Watching;
    FirstIs(ws, network, o);
    var i :| 0 <= i < |ws| && FirstWatching(ws, network, o, i) && ActiveAt(ws, network, o)[0] == ws[i];
    FirstIsOne(ws, network, o, i, k);
  }

  lemma PaysFirstIs(ws: seq<Watch>, network: string, o: Output, b: Block, e: Entry)
    ensures PaysFirst(ws, network, o, b, e) <==>
      exists k :: 0 <= k < |ws| && FirstWatching(ws, network, o, k) && e == Entry(ws[k].watchId, o.outpoint, b.hash, b.height, o.amountGrains)
  {
    hide ActiveAt, FirstWatching;
    FirstIs(ws, network, o);
    forall k | 0 <= k < |ws| && FirstWatching(ws, network, o, k)
      ensures ActiveAt(ws, network, o) != [] && ActiveAt(ws, network, o)[0] == ws[k]
    {
      FirstMatches(ws, network, o, k);
    }
  }

  // ---- The outputs ----

  /** Rows that are live stay as they are while outputs are recorded. */
  lemma {:induction false} LiveRowsStay(s: PgStore, ws: seq<Watch>, o: Output, b: Block, p: string)
    ensures var s' := PgRecordWatches(s, ws, o, b);
      && s'.watches == s.watches && s'.spends == s.spends
      && (LiveRowAt(s, p) || p != o.outpoint || ws == [] ==> (p in s'.rows <==> p in s.rows) && (p in s.rows ==> s'.rows[p] == s.rows[p]))
  {
    hide PgPriorLive, ClassifyFunding;
    if ws != [] {
      LiveRowsStay(s, ws[..|ws| - 1], o, b, p);
    }
  }

  lemma {:induction false} RecordedStays(s: PgStore, network: string, b: Block, m: nat, n: nat, p: string)
    requires m <= n <= |b.outputs|
    ensures var s1, s2 := PgRecordOutputs(s, network, b, m), PgRecordOutputs(s, network, b, n);
      && s2.watches == s1.watches && s2.spends == s1.spends
      && (LiveRowAt(s1, p) || (forall j :: m <= j < n ==> b.outputs[j].outpoint != p) ==>
            (p in s2.rows <==> p in s1.rows) && (p in s1.rows ==> s2.rows[p] == s1.rows[p]))
    decreases n - m
  {
    hide PgRecordWatches, ActiveAt;
    if m < n {
      RecordedStays(s, network, b, m, n - 1, p);
      var s1 := PgRecordOutputs(s, network, b, n - 1);
      LiveRowsStay(s1, ActiveAt(s.watches, network, b.outputs[n - 1]), b.outputs[n - 1], b, p);
    }
  }

  lemma LiveRowIsEntry(s: PgStore, id: string, outpoint: string)
    requires PgOk(s) && !LiveRowAt(s, outpoint)
    ensures PgPriorLive(s, id, outpoint) <==> HasLiveRow(s, id)
    ensures HasLiveRow(s, id) <==> exists e :: PgInIndex(s, e) && e.watchId == id
  {
    hide OnePrimaryRow, UniqueIds, Registered;
    forall p | p in s.rows && s.rows[p].watchId == id && s.rows[p].matchStatus != Detached
      ensures exists e :: PgInIndex(s, e) && e.watchId == id
    {
      assert PgInIndex(s, EntryOf(s.rows[p]));
    }
  }

  lemma PaidBeforeIs(ws: seq<Watch>, network: string, b: Block, j: nat, id: string)
    requires j <= |b.outputs|
    ensures PaidBefore(ws, network, b, j, id) <==> exists e :: PaysFirstBy(ws, network, b, j, e) && e.watchId == id
  {
    hide PaysFirst, FirstWatching;
    forall i, e | 0 <= i < j
      ensures PaysFirst(ws, network, b.outputs[i], b, e) <==>
        exists k :: 0 <= k < |ws| && FirstWatching(ws, network, b.outputs[i], k)
          && e == Entry(ws[k].watchId, b.outputs[i].outpoint, b.hash, b.height, b.outputs[i].amountGrains)
    {
      PaysFirstIs(ws, network, b.outputs[i], b, e);
    }
    if PaidBefore(ws, network, b, j, id) {
      var i, k :| 0 <= i < j && 0 <= k < |ws| && FirstWatching(ws, network, b.outputs[i], k) && ws[k].watchId == id;
      var e := Entry(ws[k].watchId, b.outputs[i].outpoint, b.hash, b.height, b.outputs[i].amountGrains);
      assert PaysFirst(ws, network, b.outputs[i], b, e);
      assert PaysFirstBy(ws, network, b, j, e);
    }
  }

  /** A watch has a live row before output `j` if it had one before the block, or an earlier output went to it. */
  lemma LiveBefore(s: PgStore, network: string, b: Block, j: nat, id: string)
    requires PgOk(s) && DistinctOutputs(b) && PgNewOutpoints(s, b, 0) && j < |b.outputs|
    ensures var s1 := PgRecordOutputs(s, network, b, j);
      && PgOk(s1) && s1.watches == s.watches && !LiveRowAt(s1, b.outputs[j].outpoint)
      && (PgPriorLive(s1, id, b.outputs[j].outpoint) <==> HasLiveRow(s, id) || PaidBefore(s.watches, network, b, j, id))
  {
    hide PgOk, PgInIndex, PgRecordOutputs, DistinctOutputs, PaysFirstBy, PaidBefore, HasLiveRow, PgPriorLive;
    PgOutputsAdd(s, network, b, j);
    var s1 := PgRecordOutputs(s, network, b, j);
    LiveRowIsEntry(s, id, b.outputs[j].outpoint);
    LiveRowIsEntry(s1, id, b.outputs[j].outpoint);
    PaidBeforeIs(s.watches, network, b, j, id);
  }

  lemma RecordedVerdict(s: PgStore, w: Watch, o: Output, b: Block)
    requires !LiveRowAt(s, o.outpoint)
    ensures var s' := PgRecordOne(s, w, o, b);
      && o.outpoint in s'.rows
      && var row := s'.rows[o.outpoint];
         && row == Observation(o.outpoint, w.watchId, b.hash, b.height, o.amountGrains, 1, Pending, row.classification)
         && VerdictIs(row.classification, w, b, o.amountGrains, PgPriorLive(s, w.watchId, o.outpoint))
  {
  }

  /** The row of an output after the outputs are recorded. */
  lemma OutputVerdict(s: PgStore, network: string, b: Block, j: nat, k: nat)
    requires PgOk(s) && DistinctOutputs(b) && PgNewOutpoints(s, b, 0)
    requires j < |b.outputs| && k < |s.watches| && FirstWatching(s.watches, network, b.outputs[j], k)
    ensures var rows, o, w := PgRecordOutputs(s, network, b, |b.outputs|).rows, b.outputs[j], s.watches[k];
      && o.outpoint in rows
      && var row := rows[o.outpoint];
         && row == Observation(o.outpoint, w.watchId, b.hash, b.height, o.amountGrains, 1, Pending, row.classification)
         && VerdictIs(row.classification, w, b, o.amountGrains,
              HasLiveRow(s, w.watchId) || PaidBefore(s.watches, network, b, j, w.watchId))
  {
    hide PgOk, HasLiveRow, PaidBefore, PgNewOutpoints, DistinctOutputs, PgRecordWatches, PgRecordOne, VerdictIs, PgPriorLive,
      ActiveAt, FirstWatching, Matches;
    var o, w, s1, s2 := b.outputs[j], s.watches[k], PgRecordOutputs(s, network, b, j), PgRecordOutputs(s, network, b, j + 1);
    LiveBefore(s, network, b, j, w.watchId);
    FirstMatches(s.watches, network, o, k);
    var ws := ActiveAt(s.watches, network, o);
    PgUnique(s);
    ActiveAtIs(s.watches, network, o);
    PgRecordWatchesIs(s1, ws, o, b);
    RecordedVerdict(s1, w, o, b);
    assert s2 == PgRecordOne(s1, w, o, b);
    RecordedStays(s, network, b, j + 1, |b.outputs|, o.outpoint);
  }

  // ---- The inputs ----

  lemma {:induction false} InputsSpend(s: PgStore, b: Block, n: nat, p: string)
    requires PgOk(s) && n <= |b.inputs|
    ensures var s' := PgRecordSpends(s, b, n);
      && s'.watches == s.watches && PgOk(s') && (p in s'.rows <==> p in s.rows)
      && (p in s.rows ==>
            s'.rows[p] == if s.rows[p].matchStatus != Detached && SpentIn(b, n, p) then s.rows[p].(matchStatus := Spent) else s.rows[p])
  {
    hide OnePrimaryRow, UniqueIds;
    if n > 0 {
      var s1 := PgRecordSpends(s, b, n - 1);
      InputsSpend(s, b, n - 1, p);
      InputSpends(s1, b.inputs[n - 1], b, p);
    }
  }

  lemma InputSpends(s: PgStore, i: Input, b: Block, p: string)
    requires PgOk(s)
    ensures var s' := PgRecordSpendOne(s, i, b);
      && s'.watches == s.watches && PgOk(s') && (p in s'.rows <==> p in s.rows)
      && (p in s.rows ==>
            s'.rows[p] == if s.rows[p].matchStatus != Detached && p != "" && i.spentOutpoint == Some(p) then s.rows[p].(matchStatus := Spent)
                          else s.rows[p])
  {
    PgSpendKeeps(s, i, b);
    hide OnePrimaryRow, UniqueIds;
  }

  /** The spends of the block's inputs that meet a live row are kept, each under its two ids, and the first of each stays. */
  lemma {:induction false} SpendsKept(s: PgStore, b: Block, n: nat, key: (string, string))
    requires PgOk(s) && n <= |b.inputs|
    ensures var s' := PgRecordSpends(s, b, n);
      && (key in s'.spends <==> key in s.spends || SpendsLive(s, b, n, key))
      && (key in s'.spends ==> s'.spends[key] == if key in s.spends then s.spends[key] else Spend(key.0, key.1, b.hash, b.height))
  {
    hide OnePrimaryRow, UniqueIds;
    if n > 0 {
      SpendsKept(s, b, n - 1, key);
      InputsSpend(s, b, n - 1, key.1);
      SpendKept(PgRecordSpends(s, b, n - 1), b.inputs[n - 1], b, key);
    }
  }

  /** One of the first `n` inputs is of transaction `key.0` and spends the live row `key.1`. */
  predicate SpendsLive(s: PgStore, b: Block, n: nat, key: (string, string))
    requires n <= |b.inputs|
  {
    && key.1 != "" && key.1 in s.rows && s.rows[key.1].matchStatus != Detached
    && exists i :: 0 <= i < n && b.inputs[i] == Input(key.0, Some(key.1))
  }

  lemma SpendKept(s: PgStore, i: Input, b: Block, key: (string, string))
    requires PgOk(s)
    ensures var s' := PgRecordSpendOne(s, i, b);
      && (key in s'.spends <==>
            key in s.spends || (key.1 != "" && LiveRowAt(s, key.1) && i == Input(key.0, Some(key.1))))
      && (key in s'.spends ==> s'.spends[key] == if key in s.spends then s.spends[key] else Spend(key.0, key.1, b.hash, b.height))
  {
    hide OnePrimaryRow, UniqueIds;
  }

  // ---- The tip ----

  lemma AdvancedRow(s: PgStore, tip: int, p: string, w: Watch)
    requires PgOk(s) && p in s.rows && w in s.watches && w.watchId == s.rows[p].watchId
    ensures var s' := PgAdvance(s, tip); p in s'.rows && Settled(s.rows[p], s'.rows[p], false, tip, w.requiredConfirmations)
  {
    RequiredIs(s.watches, s.rows[p].watchId);
  }

  lemma TipSettles(s: PgStore, b: Block, p: string, w: Watch)
    requires PgOk(s) && p in s.rows && w in s.watches && w.watchId == s.rows[p].watchId
    ensures var s' := PgAdvance(PgRecordSpends(s, b, |b.inputs|), b.height);
      p in s'.rows && Settled(s.rows[p], s'.rows[p], SpentIn(b, |b.inputs|, p), b.height, w.requiredConfirmations)
  {
    hide PgOk, PgAdvance, PgRecordSpends, SpentIn;
    InputsSpend(s, b, |b.inputs|, p);
    AdvancedRow(PgRecordSpends(s, b, |b.inputs|), b.height, p, w);
  }

  // ---- One saved block ----

  /**
   An output that pays a watched address gets the row of the first watch it pays.  It is a duplicate exactly when that
   watch had another live outpoint before the block or got one from an earlier output of it; any other verdict is by
   amount and deadline.  It is spent exactly when the block itself spends it, and otherwise one block deep.
   */
  lemma ScannedOutput(s: PgStore, network: string, b: Block, j: nat, k: nat)
    requires PgOk(s) && DistinctOutputs(b) && PgNewOutpoints(s, b, 0)
    requires j < |b.outputs| && k < |s.watches| && FirstWatching(s.watches, network, b.outputs[j], k)
    ensures var rows, o, w := PgScanned(s, network, b).rows, b.outputs[j], s.watches[k];
      && o.outpoint in rows
      && var row := rows[o.outpoint];
         && row == Observation(o.outpoint, w.watchId, b.hash, b.height, o.amountGrains, 1, row.matchStatus, row.classification)
         && VerdictIs(row.classification, w, b, o.amountGrains,
              HasLiveRow(s, w.watchId) || PaidBefore(s.watches, network, b, j, w.watchId))
         && row.matchStatus == (if SpentIn(b, |b.inputs|, o.outpoint) then Spent
                                else if w.requiredConfirmations <= 1 then Confirmed else Pending)
  {
    hide PgOk, PgAdvance, PgRecordSpends, SpentIn, PgRecordOutputs, VerdictIs, HasLiveRow, PaidBefore, PgNewOutpoints,
      DistinctOutputs, FirstWatching;
    OutputVerdict(s, network, b, j, k);
    PgOutputsAdd(s, network, b, |b.outputs|);
    TipSettles(PgRecordOutputs(s, network, b, |b.outputs|), b, b.outputs[j].outpoint, s.watches[k]);
  }

  /** The block pays the outpoint to a watched address. */
  predicate PaidHere(ws: seq<Watch>, network: string, b: Block, p: string) {
    exists j, k :: 0 <= j < |b.outputs| && 0 <= k < |ws| && b.outputs[j].outpoint == p && Watching(ws[k], network, b.outputs[j])
  }

  lemma {:induction false} UnpaidStays(s: PgStore, network: string, b: Block, n: nat, p: string)
    requires n <= |b.outputs| && !PaidHere(s.watches, network, b, p)
    ensures var s' := PgRecordOutputs(s, network, b, n);
      s'.watches == s.watches && (p in s'.rows <==> p in s.rows) && (p in s.rows ==> s'.rows[p] == s.rows[p])
  {
    hide PgRecordWatches, ActiveAt, Watching;
    if n > 0 {
      UnpaidStays(s, network, b, n - 1, p);
      FirstIs(s.watches, network, b.outputs[n - 1]);
      LiveRowsStay(PgRecordOutputs(s, network, b, n - 1), ActiveAt(s.watches, network, b.outputs[n - 1]), b.outputs[n - 1], b, p);
    }
  }

  /** No other outpoint gets a row.  A row keeps its verdict and its entry; it is spent exactly when it was or the block
      spends it, a detached one stays detached, and any other has its depth below the block. */
  lemma ScannedRow(s: PgStore, network: string, b: Block, p: string)
    requires PgOk(s) && DistinctOutputs(b) && PgNewOutpoints(s, b, 0) && !PaidHere(s.watches, network, b, p)
    ensures var rows := PgScanned(s, network, b).rows;
      && (p in rows <==> p in s.rows)
      && forall w :: w in s.watches && p in s.rows && w.watchId == s.rows[p].watchId ==>
           Settled(s.rows[p], rows[p], SpentIn(b, |b.inputs|, p), b.height, w.requiredConfirmations)
  {
    hide PgOk, PgAdvance, PgRecordSpends, SpentIn, PgRecordOutputs, PaidHere, PgNewOutpoints, DistinctOutputs;
    PgOutputsAdd(s, network, b, |b.outputs|);
    UnpaidStays(s, network, b, |b.outputs|, p);
    var s1 := PgRecordOutputs(s, network, b, |b.outputs|);
    InputsSpend(s1, b, |b.inputs|, p);
    AdvanceHas(PgRecordSpends(s1, b, |b.inputs|), b.height, p);
    forall w | w in s.watches && p in s.rows && w.watchId == s.rows[p].watchId
      ensures Settled(s.rows[p], PgScanned(s, network, b).rows[p], SpentIn(b, |b.inputs|, p), b.height, w.requiredConfirmations)
    {
      TipSettles(s1, b, p, w);
    }
  }

  lemma AdvanceHas(s: PgStore, tip: int, p: string)
    ensures p in PgAdvance(s, tip).rows <==> p in s.rows
  {
  }

  // ---- On the live chain ----

  /** Whenever a block is saved on top of the live chain, each output that pays a watched address has the owner, the
      verdict and the status that block and rows before it say. */
  lemma SavedOutput(ix: Indexer<PgStore>, ws: seq<Watch>, network: string, start: int, live: seq<Hash>, h: Hash,
                    getBlock: Hash -> Block, j: nat, k: nat)
    requires Network(start, getBlock) && PgGood(ws, network, getBlock, ix.store, live) && IsChain(live + [h], start, getBlock)
    requires ScanStep(PgOps(network), ix, getBlock(h)).1 == Saved
    requires j < |getBlock(h).outputs| && k < |ws| && FirstWatching(ws, network, getBlock(h).outputs[j], k)
    ensures var b, rows, w := getBlock(h), ScanStep(PgOps(network), ix, getBlock(h)).0.store.rows, ws[k];
      var p := b.outputs[j].outpoint;
      && p in rows && EntryOf(rows[p]) == Entry(w.watchId, p, h, b.height, b.outputs[j].amountGrains)
      && VerdictIs(rows[p].classification, w, b, b.outputs[j].amountGrains,
           HasLiveRow(ix.store, w.watchId) || PaidBefore(ws, network, b, j, w.watchId))
      && rows[p].matchStatus == (if SpentIn(b, |b.inputs|, p) then Spent
                                 else if w.requiredConfirmations <= 1 then Confirmed else Pending)
  {
    hide PgScanned, SaveStep, SpentIn, VerdictIs, HasLiveRow, PaidBefore, PgNewOutpoints, DistinctOutputs, IsChain, PgOk, FirstWatching;
    PgExtendsIsNew(ws, network, start, getBlock, ix.store, live, h);
    OwnHash(start, getBlock, h);
    PgGoodIs(ws, network, getBlock, ix.store, live);
    ScannedOutput(ix.store, network, getBlock(h), j, k);
  }

  /** And every other row has the status they say, with its verdict as it was. */
  lemma SavedRow(ix: Indexer<PgStore>, ws: seq<Watch>, network: string, start: int, live: seq<Hash>, h: Hash,
                 getBlock: Hash -> Block, p: string)
    requires Network(start, getBlock) && PgGood(ws, network, getBlock, ix.store, live) && IsChain(live + [h], start, getBlock)
    requires ScanStep(PgOps(network), ix, getBlock(h)).1 == Saved && !PaidHere(ws, network, getBlock(h), p)
    ensures var b, rows := getBlock(h), ScanStep(PgOps(network), ix, getBlock(h)).0.store.rows;
      && (p in rows <==> p in ix.store.rows)
      && forall w :: w in ws && p in ix.store.rows && w.watchId == ix.store.rows[p].watchId ==>
           Settled(ix.store.rows[p], rows[p], SpentIn(b, |b.inputs|, p), b.height, w.requiredConfirmations)
  {
    hide PgScanned, SaveStep, SpentIn, Settled, PaidHere, PgNewOutpoints, DistinctOutputs, IsChain, PgOk;
    PgExtendsIsNew(ws, network, start, getBlock, ix.store, live, h);
    PgGoodIs(ws, network, getBlock, ix.store, live);
    ScannedRow(ix.store, network, getBlock(h), p);
  }

  lemma OwnHash(start: int, getBlock: Hash -> Block, h: Hash)
    requires Network(start, getBlock)
    ensures getBlock(h).hash == h
  {
  }

  lemma PgGoodIs(ws: seq<Watch>, network: string, getBlock: Hash -> Block, s: PgStore, live: seq<Hash>)
    requires PgGood(ws, network, getBlock, s, live)
    ensures PgOk(s) && s.watches == ws
  {
  }

  /** When a block is detached, exactly its live rows become detached and count as reorganised; nothing else changes. */
  lemma DetachedRows(ix: Indexer<PgStore>, network: string, b: Block, p: string)
    requires ScanStep(PgOps(network), ix, b).1.Reorg?
    ensures var s, s' := ix.store, ScanStep(PgOps(network), ix, b).0.store;
      var h := ScanStep(PgOps(network), ix, b).1.indexedHash;
      && s'.watches == s.watches && s'.spends == s.spends && (p in s'.rows <==> p in s.rows)
      && (p in s.rows && s.rows[p].blockHash == h && s.rows[p].matchStatus != Detached ==>
            s'.rows[p] == s.rows[p].(matchStatus := Detached, classification := Reorged))
      && (p in s.rows && (s.rows[p].blockHash != h || s.rows[p].matchStatus == Detached) ==> s'.rows[p] == s.rows[p])
  {
    hide SaveStep;
  }
}
