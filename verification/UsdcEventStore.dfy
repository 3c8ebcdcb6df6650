/**
 The incremental event store of the USDC escrow client: `InMemoryUsdcEscrowEventRepository` in
 packages/usdc-escrow-client/src/events.ts.

 `CacheIsFold`: whatever the batches, the cache is the state folded from all stored events.
 `OrderIndependent`: however the same events are split, reordered or repeated, the cache is the same.
 */
module UsdcEventStore {
  import opened Wrappers
  import opened Sorting
  import opened UsdcEvents

  /** The events in insertion order, as a JavaScript `Map` keeps them, and the state of each trade. */
  datatype Store = Store(events: seq<TradeEvent>, states: map<string, TradeState>)

  predicate HasId(events: seq<TradeEvent>, id: EventId) {
    exists i :: 0 <= i < |events| && IdOf(events[i]) == id
  }

  function Insert1(events: seq<TradeEvent>, e: TradeEvent): seq<TradeEvent> {
    if HasId(events, IdOf(e)) then events else events + [e]
  }

  /** The stored events after a batch: the first event of each id, in order of arrival. */
  function InsertAll(events: seq<TradeEvent>, batch: seq<TradeEvent>): seq<TradeEvent> {
    if batch == [] then events else Insert1(InsertAll(events, batch[..|batch| - 1]), batch[|batch| - 1])
  }

  /** The trades of some events, by first occurrence. */
  function TradeKeys(events: seq<TradeEvent>): seq<string> {
    if events == [] then []
    else
      var keys, k := TradeKeys(events[..|events| - 1]), events[|events| - 1].tradeKey;
      if k in keys then keys else keys + [k]
  }

  function Refresh(states: map<string, TradeState>, events: seq<TradeEvent>, k: string): Result<map<string, TradeState>> {
    match Normalize(ForTrade(events, k))
    case Thrown => Thrown
    case Ok(own) => Ok(if k in own then states[k := own[k]] else states)
  }

  /** The states after the loop over the affected trades, and whether it reached its end. */
  function RefreshAll(states: map<string, TradeState>, events: seq<TradeEvent>, keys: seq<string>): (map<string, TradeState>, bool) {
    if keys == [] then (states, true)
    else
      var (before, ok) := RefreshAll(states, events, keys[..|keys| - 1]);
      if !ok then (before, false)
      else
        match Refresh(before, events, keys[|keys| - 1])
        case Thrown => (before, false)
        case Ok(after) => (after, true)
  }

  function StatesOf(states: map<string, TradeState>, keys: seq<string>): seq<TradeState> {
    if keys == [] then []
    else
      var rest, k := StatesOf(states, keys[..|keys| - 1]), keys[|keys| - 1];
      if k in states then rest + [states[k]] else rest
  }

  function Affected(st: Store, batch: seq<TradeEvent>): seq<string> {
    InsertKeeps(st.events, batch);
    TradeKeys(InsertAll(st.events, batch)[|st.events|..])
  }

  /** One `ingestEvents`; where it throws, the events stay and the trades not yet refreshed keep their old states. */
  function Ingest(st: Store, batch: seq<TradeEvent>): (Store, Result<seq<TradeState>>) {
    var events := InsertAll(st.events, batch);
    var (states, ok) := RefreshAll(st.states, events, Affected(st, batch));
    (Store(events, states), if ok then Ok(StatesOf(states, Affected(st, batch))) else Thrown)
  }

  lemma {:induction false} InsertKeeps(events: seq<TradeEvent>, batch: seq<TradeEvent>)
    ensures events <= InsertAll(events, batch)
  {
    if batch != [] {
      InsertKeeps(events, batch[..|batch| - 1]);
    }
  }

  // ---- The class ----

  class InMemoryUsdcEscrowEventRepository {
    var events: seq<TradeEvent>
    var stateByTradeKey: map<string, TradeState>

    constructor ()
      ensures Contents() == Store([], map[])
    {
      events, stateByTradeKey := [], map[];
    }

    ghost function Contents(): Store reads this { Store(events, stateByTradeKey) }

    method IngestEvents(batch: seq<TradeEvent>) returns (r: Result<seq<TradeState>>)
      modifies this
      ensures (Contents(), r) == Ingest(old(Contents()), batch)
    {
      hide Normalize, HasId, ForTrade;
      ghost var st0 := Contents();
      var inserted: seq<TradeEvent> := [];
      for n := 0 to |batch|
        invariant stateByTradeKey == st0.states
        invariant events == InsertAll(st0.events, batch[..n]) && events == st0.events + inserted
      {
        assert batch[..n + 1][..n] == batch[..n];
        if !HasId(events, IdOf(batch[n])) {
          events := events + [batch[n]];
          inserted := inserted + [batch[n]];
        }
      }
      assert batch[..|batch|] == batch && events[|st0.events|..] == inserted;
      var keys := TradeKeys(inserted);
      for n := 0 to |keys|
        invariant events == InsertAll(st0.events, batch)
        invariant RefreshAll(st0.states, events, keys[..n]) == (stateByTradeKey, true)
      {
        assert keys[..n + 1][..n] == keys[..n];
        var next := NormalizeUsdcEscrowTradeEvents(ForTrade(events, keys[n]));
        if next.Thrown? {
          RefreshStops(st0.states, events, keys, n + 1);
          return Thrown;
        }
        if keys[n] in next.value {
          stateByTradeKey := stateByTradeKey[keys[n] := next.value[keys[n]]];
        }
      }
      assert keys[..|keys|] == keys;
      return Ok(StatesOf(stateByTradeKey, keys));
    }
  }

  lemma {:induction false} RefreshStops(states: map<string, TradeState>, events: seq<TradeEvent>, keys: seq<string>, n: nat)
    requires n <= |keys| && !RefreshAll(states, events, keys[..n]).1
    ensures RefreshAll(states, events, keys) == RefreshAll(states, events, keys[..n])
  {
    if n < |keys| {
      assert keys[..|keys| - 1][..n] == keys[..n];
      RefreshStops(states, events, keys[..|keys| - 1], n);
    } else {
      assert keys[..n] == keys;
    }
  }

  // ---- The cache is the fold of the stored events ----

  /** The state of one trade, sorted and folded from scratch. */
  function TradeFold(events: seq<TradeEvent>, k: string): Result<Option<TradeState>> {
    FoldTrade(Sort(ForTrade(events, k), EventKey))
  }

  lemma ForTradeOf(events: seq<TradeEvent>, k: string)
    ensures forall e :: e in ForTrade(events, k) <==> e in events && e.tradeKey == k
    ensures forall e :: multiset(ForTrade(events, k))[e] == if e.tradeKey == k then multiset(events)[e] else 0
    ensures ForTrade(ForTrade(events, k), k) == ForTrade(events, k)
    ensures ForTrade(Sort(events, EventKey), k) == Sort(ForTrade(events, k), EventKey)
  {
    var p := (e: TradeEvent) => e.tradeKey == k;
    FilterMembers(events, p);
    FilterTwice(events, p);
    FilterSort(events, EventKey, p);
  }

  lemma SameMembers(xs: seq<TradeEvent>, ys: seq<TradeEvent>)
    requires multiset(xs) == multiset(ys)
    ensures forall e :: e in xs <==> e in ys
  {
    forall e
      ensures e in xs <==> e in ys
    {
      InMultiset(xs, e);
      InMultiset(ys, e);
    }
  }

  /** One trade's fold throws exactly when its events name two homes. */
  lemma TradeFoldsIff(events: seq<TradeEvent>, k: string)
    ensures TradeFold(events, k).Ok? <==> OneHome(ForTrade(events, k))
    ensures TradeFold(events, k).Ok? ==> (TradeFold(events, k).value.Some? <==> ForTrade(events, k) != [])
  {
    hide Sort, ForTrade, Sorted, Less, EventKey, Home, FoldTrade;
    var own := ForTrade(events, k);
    var sorted := Sort(own, EventKey);
    ForTradeOf(events, k);
    SortSorts(own, EventKey);
    SameMembers(own, sorted);
    assert forall i :: 0 <= i < |sorted| ==> sorted[i] in own;
    FoldsIff(sorted);
    assert |sorted| == |multiset(sorted)| == |own|;
    if TradeFold(events, k).Ok? {
      forall e, f | e in own && f in own
        ensures Home(e) == Home(f)
      {
        assert e in sorted && f in sorted;
      }
    }
  }

  /** Normalising throws exactly when some trade has two homes, and otherwise folds each trade by itself. */
  lemma NormalizeSplits(events: seq<TradeEvent>)
    ensures Normalize(events).Ok? <==> forall k :: TradeFold(events, k).Ok?
    ensures Normalize(events).Ok? <==> OneHome(events)
    ensures Normalize(events).Ok? ==> forall k :: TradeFold(events, k) == Ok(Lookup(Normalize(events).value, k))
  {
    hide FoldStates, FoldTrade, ForTrade, Lookup, Sort;
    StatesSplit(Sort(events, EventKey));
    forall k
      ensures FoldTrade(ForTrade(Sort(events, EventKey), k)) == TradeFold(events, k)
      ensures TradeFold(events, k).Ok? <==> OneHome(ForTrade(events, k))
      ensures forall e :: e in ForTrade(events, k) <==> e in events && e.tradeKey == k
    {
      ForTradeOf(events, k);
      TradeFoldsIff(events, k);
    }
    if Normalize(events).Ok? {
      forall e, f | e in events && f in events && e.tradeKey == f.tradeKey
        ensures Home(e) == Home(f)
      {
        assert TradeFold(events, e.tradeKey).Ok?;
      }
    } else {
      var k :| TradeFold(events, k).Thrown?;
      assert !OneHome(ForTrade(events, k));
    }
  }

  /** The fold the store does for an affected trade. */
  lemma RefreshIs(states: map<string, TradeState>, events: seq<TradeEvent>, k: string)
    ensures Refresh(states, events, k) ==
      match TradeFold(events, k)
      case Thrown => Thrown
      case Ok(state) => Ok(if state.Some? then states[k := state.value] else states)
  {
    hide Normalize, FoldTrade, Sort, ForTrade, OneHome;
    var own := ForTrade(events, k);
    ForTradeOf(events, k);
    NormalizeSplits(own);
    assert TradeFold(own, k) == TradeFold(events, k);
    if TradeFold(events, k).Ok? {
      forall j
        ensures TradeFold(own, j).Ok?
      {
        TradeFoldsIff(own, j);
        TradeFoldsIff(own, k);
        ForTradeOf(own, j);
        OwnHome(own, j, k);
      }
    }
  }

  lemma OwnHome(own: seq<TradeEvent>, j: string, k: string)
    requires OneHome(ForTrade(own, k)) && ForTrade(own, k) == own
    ensures OneHome(ForTrade(own, j))
  {
    ForTradeOf(own, j);
  }

  lemma {:induction false} TradeKeysAre(events: seq<TradeEvent>, k: string)
    ensures k in TradeKeys(events) <==> exists e :: e in events && e.tradeKey == k
  {
    if events != [] {
      var n := |events| - 1;
      TradeKeysAre(events[..n], k);
      assert events == events[..n] + [events[n]];
    }
  }

  lemma {:induction false} RefreshAllIs(states: map<string, TradeState>, events: seq<TradeEvent>, keys: seq<string>)
    ensures RefreshAll(states, events, keys).1 <==> forall k :: k in keys ==> TradeFold(events, k).Ok?
    ensures RefreshAll(states, events, keys).1 ==>
      forall k :: Lookup(RefreshAll(states, events, keys).0, k) ==
        if k in keys && TradeFold(events, k).value.Some? then TradeFold(events, k).value else Lookup(states, k)
  {
    hide TradeFold, Refresh;
    if keys != [] {
      var n := |keys| - 1;
      RefreshAllIs(states, events, keys[..n]);
      RefreshIs(RefreshAll(states, events, keys[..n]).0, events, keys[n]);
      assert keys == keys[..n] + [keys[n]];
    }
  }

  predicate DistinctIds(events: seq<TradeEvent>) {
    forall i, j :: 0 <= i < j < |events| ==> IdOf(events[i]) != IdOf(events[j])
  }

  lemma {:induction false} InsertAllIs(events: seq<TradeEvent>, batch: seq<TradeEvent>)
    requires DistinctIds(events)
    ensures DistinctIds(InsertAll(events, batch))
    ensures forall e :: e in InsertAll(events, batch) ==> e in events || e in batch
    ensures forall e :: e in events || e in batch ==> HasId(InsertAll(events, batch), IdOf(e))
  {
    hide IdOf;
    if batch != [] {
      var n := |batch| - 1;
      var before, e := InsertAll(events, batch[..n]), batch[n];
      InsertAllIs(events, batch[..n]);
      assert batch == batch[..n] + [e];
      var after := Insert1(before, e);
      forall x | HasId(before, IdOf(x))
        ensures HasId(after, IdOf(x))
      {
        var i :| 0 <= i < |before| && IdOf(before[i]) == IdOf(x);
        assert after[i] == before[i];
      }
      if !HasId(before, IdOf(e)) {
        assert after[|before|] == e;
      }
    }
  }

  lemma {:induction false} InsertTwice(events: seq<TradeEvent>, b1: seq<TradeEvent>, b2: seq<TradeEvent>)
    ensures InsertAll(InsertAll(events, b1), b2) == InsertAll(events, b1 + b2)
  {
    if b2 == [] {
      assert b1 + b2 == b1;
    } else {
      InsertTwice(events, b1, b2[..|b2| - 1]);
      assert (b1 + b2)[..|b1 + b2| - 1] == b1 + b2[..|b2| - 1];
    }
  }

  /** `ingestEvents` throws exactly when a trade of the batch's new events has two homes among all stored events. */
  lemma IngestThrowsIff(st: Store, batch: seq<TradeEvent>)
    ensures Ingest(st, batch).1.Thrown? <==>
      exists k :: k in Affected(st, batch) && !OneHome(ForTrade(InsertAll(st.events, batch), k))
  {
    hide TradeFold, RefreshAll, OneHome, InsertAll, Affected;
    var events := InsertAll(st.events, batch);
    RefreshAllIs(st.states, events, Affected(st, batch));
    forall k {
      TradeFoldsIff(events, k);
    }
  }

  /** Every trade's cached state is the fold of its stored events. */
  ghost predicate Cached(st: Store) {
    && DistinctIds(st.events)
    && Normalize(st.events) == Ok(st.states)
  }

  lemma ForTradeAppends(xs: seq<TradeEvent>, ys: seq<TradeEvent>, k: string)
    ensures ForTrade(xs + ys, k) == ForTrade(xs, k) + ForTrade(ys, k)
  {
    FilterConcat(xs, ys, (e: TradeEvent) => e.tradeKey == k);
  }

  lemma IngestKeepsCache(st: Store, batch: seq<TradeEvent>)
    requires Cached(st) && OneHome(InsertAll(st.events, batch))
    ensures Cached(Ingest(st, batch).0) && Ingest(st, batch).1.Ok?
  {
    hide Normalize, TradeFold, RefreshAll, OneHome, InsertAll, DistinctIds, ForTrade, TradeKeys;
    var events := InsertAll(st.events, batch);
    InsertKeeps(st.events, batch);
    var inserted := events[|st.events|..];
    InsertAllIs(st.events, batch);
    NormalizeSplits(st.events);
    NormalizeSplits(events);
    RefreshAllIs(st.states, events, TradeKeys(inserted));
    var states' := Ingest(st, batch).0.states;
    forall k
      ensures Lookup(states', k) == Lookup(Normalize(events).value, k)
    {
      TradeKeysAre(inserted, k);
      ForTradeOf(inserted, k);
      ForTradeAppends(st.events, inserted, k);
      TradeFoldsIff(events, k);
      assert events == st.events + inserted;
      if k !in TradeKeys(inserted) {
        NoneOf(inserted, k);
        SameOwn(events, st.events, k);
      } else {
        ForTradeOf(events, k);
      }
    }
    SameMap(states', Normalize(events).value);
  }

  lemma HeadIsMember(events: seq<TradeEvent>)
    ensures events == [] || events[0] in events
  {
  }

  lemma NoneOf(inserted: seq<TradeEvent>, k: string)
    requires forall e :: e in inserted ==> e.tradeKey != k
    ensures ForTrade(inserted, k) == []
  {
    ForTradeOf(inserted, k);
    HeadIsMember(ForTrade(inserted, k));
  }

  lemma SameOwn(e1: seq<TradeEvent>, e2: seq<TradeEvent>, k: string)
    requires ForTrade(e1, k) == ForTrade(e2, k)
    ensures TradeFold(e1, k) == TradeFold(e2, k)
  {
  }

  lemma SameMap(m1: map<string, TradeState>, m2: map<string, TradeState>)
    requires forall k :: Lookup(m1, k) == Lookup(m2, k)
    ensures m1 == m2
  {
    forall k
      ensures k in m1 <==> k in m2
      ensures k in m1 ==> m1[k] == m2[k]
    {
      assert Lookup(m1, k) == Lookup(m2, k);
    }
  }

  // ---- Runs ----

  function Concat(batches: seq<seq<TradeEvent>>): seq<TradeEvent> {
    if batches == [] then [] else Concat(batches[..|batches| - 1]) + batches[|batches| - 1]
  }

  function Run(batches: seq<seq<TradeEvent>>): Store {
    if batches == [] then Store([], map[]) else Ingest(Run(batches[..|batches| - 1]), batches[|batches| - 1]).0
  }

  lemma {:induction false} RunStores(batches: seq<seq<TradeEvent>>)
    ensures Run(batches).events == InsertAll([], Concat(batches))
  {
    if batches != [] {
      var n := |batches| - 1;
      RunStores(batches[..n]);
      InsertTwice([], Concat(batches[..n]), batches[n]);
    }
  }

  lemma OneHomeBelow(small: seq<TradeEvent>, large: seq<TradeEvent>)
    requires OneHome(large) && forall e :: e in small ==> e in large
    ensures OneHome(small)
  {
  }

  /** As long as no trade has two homes, nothing throws and the cache is the fold of the first event of each id. */
  lemma {:induction false} CacheIsFold(batches: seq<seq<TradeEvent>>)
    requires OneHome(Concat(batches))
    ensures Run(batches).events == InsertAll([], Concat(batches))
    ensures Cached(Run(batches))
    ensures batches != [] ==> Ingest(Run(batches[..|batches| - 1]), batches[|batches| - 1]).1.Ok?
  {
    RunStores(batches);
    if batches != [] {
      hide Ingest, Cached, OneHome, InsertAll;
      var n := |batches| - 1;
      OneHomeBelow(Concat(batches[..n]), Concat(batches));
      CacheIsFold(batches[..n]);
      NothingStored();
      InsertAllIs([], Concat(batches));
      OneHomeBelow(InsertAll([], Concat(batches)), Concat(batches));
      RunStores(batches[..n]);
      InsertTwice([], Concat(batches[..n]), batches[n]);
      IngestKeepsCache(Run(batches[..n]), batches[n]);
    }
  }

  lemma NothingStored()
    ensures DistinctIds([])
  {
  }

  /** The ids and sort keys that make the order of arrival irrelevant. */
  predicate Unambiguous(events: seq<TradeEvent>) {
    forall e, f | e in events && f in events && e != f ::
      IdOf(e) != IdOf(f) && (e.tradeKey == f.tradeKey ==> EventKey(e) != EventKey(f))
  }

  lemma StoredAre(batches: seq<seq<TradeEvent>>)
    requires Unambiguous(Concat(batches))
    ensures DistinctIds(Run(batches).events)
    ensures forall e :: e in Run(batches).events <==> e in Concat(batches)
    ensures forall e :: multiset(Run(batches).events)[e] == if e in Concat(batches) then 1 else 0
  {
    hide Run, IdOf, EventKey, Concat, InsertAll;
    RunStores(batches);
    var all, events := Concat(batches), Run(batches).events;
    NothingStored();
    InsertAllIs([], all);
    forall e | e in all
      ensures e in events
    {
      assert HasId(events, IdOf(e));
      var i :| 0 <= i < |events| && IdOf(events[i]) == IdOf(e);
      assert events[i] in all;
    }
    OncePerId(events);
  }

  lemma {:induction false} OncePerId(events: seq<TradeEvent>)
    requires DistinctIds(events)
    ensures forall e :: multiset(events)[e] == if e in events then 1 else 0
  {
    if events != [] {
      var n := |events| - 1;
      OncePerId(events[..n]);
      assert events == events[..n] + [events[n]];
    }
  }

  lemma SortsStrictly(events: seq<TradeEvent>, k: string)
    requires Unambiguous(events) && DistinctIds(events)
    ensures StrictlySorted(Sort(ForTrade(events, k), EventKey), EventKey)
  {
    var own := ForTrade(events, k);
    var sorted := Sort(own, EventKey);
    SortSorts(own, EventKey);
    SameMembers(own, sorted);
    ForTradeOf(events, k);
    OncePerId(events);
    forall i, j | 0 <= i < j < |sorted|
      ensures Less(EventKey(sorted[i]), EventKey(sorted[j]))
    {
      assert sorted[i] in own && sorted[j] in own;
      if sorted[i] == sorted[j] {
        TwiceCounts(sorted, i, j);
      }
    }
  }

  lemma TwiceCounts(xs: seq<TradeEvent>, i: nat, j: nat)
    requires i < j < |xs| && xs[i] == xs[j]
    ensures multiset(xs)[xs[i]] >= 2
  {
    assert xs == xs[..j] + [xs[j]] + xs[j + 1..];
    assert xs[i] in xs[..j];
    InMultiset(xs[..j], xs[i]);
  }

  /** However the same events are split into batches, reordered or repeated, the cached states are the same, if each trade
      has one home and no two events share an id or a place in one trade's order. */
  lemma OrderIndependent(b1: seq<seq<TradeEvent>>, b2: seq<seq<TradeEvent>>)
    requires forall e :: e in Concat(b1) <==> e in Concat(b2)
    requires Unambiguous(Concat(b1)) && OneHome(Concat(b1))
    ensures Run(b1).states == Run(b2).states
  {
    hide Run, Unambiguous, OneHome, DistinctIds, Sort, Normalize, TradeFold, Concat, InsertAll;
    var e1, e2 := Run(b1).events, Run(b2).events;
    SameConditions(Concat(b1), Concat(b2));
    CacheIsFold(b1);
    CacheIsFold(b2);
    StoredAre(b1);
    StoredAre(b2);
    assert multiset(e1) == multiset(e2);
    NormalizeSplits(e1);
    NormalizeSplits(e2);
    forall k
      ensures TradeFold(e1, k) == TradeFold(e2, k)
    {
      SameConditions(Concat(b1), e1);
      SameFold(e1, e2, k);
    }
    forall k
      ensures Lookup(Run(b1).states, k) == Lookup(Run(b2).states, k)
    {
      assert TradeFold(e1, k) == TradeFold(e2, k);
    }
    SameMap(Run(b1).states, Run(b2).states);
  }

  lemma SameConditions(xs: seq<TradeEvent>, ys: seq<TradeEvent>)
    requires forall e :: e in xs <==> e in ys
    ensures Unambiguous(xs) <==> Unambiguous(ys)
    ensures OneHome(xs) <==> OneHome(ys)
  {
  }

  lemma SameFold(e1: seq<TradeEvent>, e2: seq<TradeEvent>, k: string)
    requires multiset(e1) == multiset(e2) && Unambiguous(e1) && DistinctIds(e1)
    ensures TradeFold(e1, k) == TradeFold(e2, k)
  {
    hide Sort, ForTrade, Sorted, StrictlySorted, Unambiguous, DistinctIds, EventKey, FoldTrade;
    ForTradeOf(e1, k);
    ForTradeOf(e2, k);
    SortsStrictly(e1, k);
    SortSorts(ForTrade(e1, k), EventKey);
    assert multiset(ForTrade(e2, k)) == multiset(ForTrade(e1, k));
    SortOfStrict(ForTrade(e2, k), Sort(ForTrade(e1, k), EventKey), EventKey);
  }

  // ---- Where the cache stays behind ----

  /** An id already stored is never updated: a later report with more confirmations or another block changes nothing. */
  lemma ReportedAgain(st: Store, e: TradeEvent)
    requires HasId(st.events, IdOf(e))
    ensures Ingest(st, [e]) == (st, Ok([]))
  {
    hide HasId, IdOf, Normalize;
    var events := InsertAll(st.events, [e]);
    assert [e][..0] == [] && [e][|[e]| - 1] == e;
    assert InsertAll(st.events, [e][..0]) == st.events;
    assert events == Insert1(st.events, e) == st.events;
    assert events[|st.events|..] == [];
  }

  /** An event from another contract stops the batch: the next trade's event is stored, but its state is never folded. */
  lemma ForeignEventStarvesOthers(st: Store, bad: TradeEvent, good: TradeEvent)
    requires Cached(st) && !HasId(st.events, IdOf(bad)) && !HasId(st.events, IdOf(good))
    requires bad.tradeKey != good.tradeKey
    requires exists e :: e in st.events && e.tradeKey == bad.tradeKey && Home(e) != Home(bad)
    ensures Ingest(st, [bad, good]) == (Store(st.events + [bad, good], st.states), Thrown)
    ensures Ingest(Ingest(st, [bad, good]).0, [good]) == (Ingest(st, [bad, good]).0, Ok([]))
  {
    hide Home, TradeFold, RefreshAll, OneHome, IdOf, InsertAll, TradeKeys, HasId, ForTrade;
    var events := st.events + [bad, good];
    IdsDiffer(bad, good);
    InsertsBoth(st.events, bad, good);
    assert events[|st.events|..] == [bad, good];
    KeysOfTwo(bad, good);
    SecondHome(events, bad);
    FirstRefreshFails(st.states, events, bad.tradeKey, good.tradeKey);
    StoredId(events, |st.events| + 1);
    ReportedAgain(Store(events, st.states), good);
  }

  lemma IdsDiffer(e: TradeEvent, f: TradeEvent)
    requires e.tradeKey != f.tradeKey
    ensures IdOf(e) != IdOf(f)
  {
  }

  lemma StoredId(events: seq<TradeEvent>, i: nat)
    requires i < |events|
    ensures HasId(events, IdOf(events[i]))
  {
  }

  lemma SecondHome(events: seq<TradeEvent>, bad: TradeEvent)
    requires bad in events && exists e :: e in events && e.tradeKey == bad.tradeKey && Home(e) != Home(bad)
    ensures !OneHome(ForTrade(events, bad.tradeKey))
  {
    ForTradeOf(events, bad.tradeKey);
  }

  lemma FirstRefreshFails(states: map<string, TradeState>, events: seq<TradeEvent>, k: string, j: string)
    requires !OneHome(ForTrade(events, k))
    ensures RefreshAll(states, events, [k, j]) == (states, false)
  {
    hide Refresh, OneHome, ForTrade, TradeFold;
    TradeFoldsIff(events, k);
    RefreshIs(states, events, k);
    assert [k, j][..1] == [k] && [k][..0] == [] && [k][0] == k;
    assert RefreshAll(states, events, [k][..0]) == (states, true);
    assert RefreshAll(states, events, [k]) == (states, false);
  }

  lemma KeysOfTwo(e: TradeEvent, f: TradeEvent)
    requires e.tradeKey != f.tradeKey
    ensures TradeKeys([e, f]) == [e.tradeKey, f.tradeKey]
  {
    assert [e, f][..1] == [e] && [e][..0] == [];
    assert TradeKeys([e]) == [e.tradeKey];
  }

  lemma InsertsBoth(events: seq<TradeEvent>, e: TradeEvent, f: TradeEvent)
    requires !HasId(events, IdOf(e)) && !HasId(events, IdOf(f)) && IdOf(e) != IdOf(f)
    ensures InsertAll(events, [e, f]) == events + [e, f]
  {
    assert [e, f][..1] == [e] && [e][..0] == [];
    assert InsertAll(events, [e]) == events + [e];
    assert !HasId(events + [e], IdOf(f));
    assert events + [e] + [f] == events + [e, f];
  }
}
