/**
 The block table of the Pearl indexer (services/pearl-indexer/src/postgres-sink.ts).

 `PgBlockSink.SaveBlock` is the transaction the sink runs, statement by statement; `SaveStep` is
 what it computes.  `Represents` relates the table to the chain it stands for, and `SaveRefines`
 shows that the table behaves as a stack of blocks: a block is pushed, or one block is popped.
 */
module PearlChain {
  import opened Wrappers

  type Hash = string

  datatype Output = Output(outpoint: string, amountGrains: nat, address: Option<string>)
  datatype Input = Input(txid: string, spentOutpoint: Option<string>)
  datatype Block = Block(
    hash: Hash, height: int, previousHash: Option<Hash>, timestamp: int,
    inputs: seq<Input>, outputs: seq<Output>)

  /** A row of `pearl_blocks`; the hash is its primary key. */
  datatype Row = Row(height: int, previousHash: Option<Hash>, detached: bool)

  /** `pearl_blocks` together with the `next_height` row of `indexer_state`. */
  datatype Chain = Chain(rows: map<Hash, Row>, next: Option<int>)

  /** `Failed` is a unique-index violation, which rolls the transaction back. */
  datatype SaveResult =
    | Saved
    | Duplicate
    | Reorg(detachedFromHeight: int, indexedHash: Hash, newPreviousHash: Option<Hash>)
    | Failed

  predicate LiveRow(rows: map<Hash, Row>, h: Hash, height: int) {
    h in rows && !rows[h].detached && rows[h].height == height
  }

  /** The partial unique index on height, over the rows that are not detached. */
  predicate OneLivePerHeight(rows: map<Hash, Row>) {
    forall h1, h2 | h1 in rows && h2 in rows :: !rows[h1].detached && LiveRow(rows, h2, rows[h1].height) ==> h1 == h2
  }

  ghost function LiveAt(rows: map<Hash, Row>, height: int): Option<Hash> {
    if h :| LiveRow(rows, h, height) then Some(h) else None
  }

  function DetachAt(rows: map<Hash, Row>, height: int): map<Hash, Row> {
    map h | h in rows ::
      if rows[h].height == height && !rows[h].detached then rows[h].(detached := true) else rows[h]
  }

  /** `INSERT ... ON CONFLICT (hash) DO UPDATE`: a re-attached row keeps its stored height. */
  function Upserted(rows: map<Hash, Row>, b: Block): map<Hash, Row> {
    rows[b.hash :=
      if b.hash in rows then Row(rows[b.hash].height, b.previousHash, false)
      else Row(b.height, b.previousHash, false)]
  }

  function Greatest(next: Option<int>, candidate: int): int {
    if next.Some? && next.value > candidate then next.value else candidate
  }

  ghost function SaveStep(s: Chain, b: Block): (Chain, SaveResult) {
    if LiveRow(s.rows, b.hash, b.height) then
      (s.(next := Some(Greatest(s.next, b.height + 1))), Duplicate)
    else
      var parent := if b.height > 0 then LiveAt(s.rows, b.height - 1) else None;
      if parent.Some? && b.previousHash != parent then
        (Chain(DetachAt(s.rows, b.height - 1), Some(b.height - 1)),
         Reorg(b.height - 1, parent.value, b.previousHash))
      else if OneLivePerHeight(Upserted(s.rows, b)) then
        (Chain(Upserted(s.rows, b), Some(Greatest(s.next, b.height + 1))), Saved)
      else
        (s, Failed)
  }

  predicate Unreplaced(rows: map<Hash, Row>, h: Hash) {
    h in rows && rows[h].detached && forall g :: g in rows ==> rows[g].detached || rows[g].height != rows[h].height
  }

  /** The height a restart resumes at: the stored one, or a lower detached height nothing replaced. */
  ghost predicate ResumesAt(s: Chain, start: int, n: int) {
    var persisted := s.next.GetOr(start);
    && n <= persisted
    && (forall h :: Unreplaced(s.rows, h) ==> n <= s.rows[h].height)
    && (n == persisted || exists h :: Unreplaced(s.rows, h) && s.rows[h].height == n)
  }

  class PgBlockSink {
    var rows: map<Hash, Row>
    var nextHeight: Option<int>

    ghost function State(): Chain reads this { Chain(rows, nextHeight) }

    ghost predicate Valid() reads this { OneLivePerHeight(rows) }

    constructor ()
      ensures Valid() && State() == Chain(map[], None)
    {
      rows := map[];
      nextHeight := None;
    }

    method SaveBlock(block: Block) returns (result: SaveResult)
      requires Valid()
      modifies this
      ensures Valid()
      ensures (State(), result) == SaveStep(old(State()), block)
    {
      if block.hash in rows && !rows[block.hash].detached && rows[block.hash].height == block.height {
        AdvanceNextHeight(block.height + 1);
        return Duplicate;
      }
      if block.height > 0 {
        if exists h :: h in rows && LiveRow(rows, h, block.height - 1) {
          var parent :| parent in rows && LiveRow(rows, parent, block.height - 1);
          assert LiveAt(rows, block.height - 1) == Some(parent);
          if block.previousHash != Some(parent) {
            rows := DetachAt(rows, block.height - 1);
            SetNextHeight(block.height - 1);
            return Reorg(block.height - 1, parent, block.previousHash);
          }
        }
      }
      var inserted := Upserted(rows, block);
      if !OneLivePerHeight(inserted) {
        return Failed;
      }
      rows := inserted;
      AdvanceNextHeight(block.height + 1);
      return Saved;
    }

    method AdvanceNextHeight(candidateHeight: int)
      modifies `nextHeight
      ensures nextHeight == Some(Greatest(old(nextHeight), candidateHeight))
    {
      nextHeight := Some(Greatest(nextHeight, candidateHeight));
    }

    method SetNextHeight(height: int)
      modifies `nextHeight
      ensures nextHeight == Some(height)
    {
      nextHeight := Some(height);
    }

    method LoadNextHeight(defaultValue: int) returns (height: int)
      ensures ResumesAt(State(), defaultValue, height)
    {
      height := nextHeight.GetOr(defaultValue);
      var pending := set h | h in rows && Unreplaced(rows, h);
      ghost var seen: set<Hash> := {};
      while pending != {}
        invariant forall h :: Unreplaced(rows, h) ==> h in pending || h in seen
        invariant forall h :: h in pending || h in seen ==> Unreplaced(rows, h)
        invariant height <= nextHeight.GetOr(defaultValue)
        invariant forall h :: h in seen ==> height <= rows[h].height
        invariant height == nextHeight.GetOr(defaultValue) || exists h :: h in seen && rows[h].height == height
        decreases pending
      {
        var h :| h in pending;
        if rows[h].height < height { height := rows[h].height; }
        pending, seen := pending - {h}, seen + {h};
      }
    }
  }

  // ---- What the table stands for ----

  /** `getBlock` gives each hash its one block: hashes are injective. */
  ghost predicate Authentic(getBlock: Hash -> Block) {
    forall h :: getBlock(h).hash == h
  }

  /** A chain of block hashes from height `start` up, each block naming the one below it. */
  ghost predicate IsChain(chain: seq<Hash>, start: int, getBlock: Hash -> Block) {
    && (forall i :: 0 <= i < |chain| ==> getBlock(chain[i]).height == start + i)
    && (forall i, j :: 0 <= i < j < |chain| && j == i + 1 ==> getBlock(chain[j]).previousHash == Some(chain[i]))
  }

  /** Every row is its block's, and the rows that are not detached are those of `live`. */
  ghost predicate RowsAre(rows: map<Hash, Row>, start: int, live: seq<Hash>, getBlock: Hash -> Block) {
    && (forall h :: h in live ==> h in rows)
    && (forall h :: h in rows ==>
          && start <= getBlock(h).height
          && rows[h] == Row(getBlock(h).height, getBlock(h).previousHash, h !in live))
  }

  /** The rows that are not detached are exactly `live`, one per height from `start` up to `next`. */
  ghost predicate Represents(s: Chain, start: int, live: seq<Hash>, getBlock: Hash -> Block) {
    && IsChain(live, start, getBlock)
    && RowsAre(s.rows, start, live, getBlock)
    && (s.next == Some(start + |live|) || (s.next == None && live == [] && s.rows == map[]))
  }

  predicate Extends(live: seq<Hash>, b: Block) {
    live == [] || b.previousHash == Some(live[|live| - 1])
  }

  /** The stack of blocks: push the new block, or pop the one it does not extend. */
  function PushOrPop(live: seq<Hash>, b: Block): seq<Hash> {
    if Extends(live, b) then live + [b.hash] else live[..|live| - 1]
  }

  /** At each height of the live chain, its block is the one row the parent query finds. */
  lemma LiveAtIs(s: Chain, start: int, live: seq<Hash>, height: int, getBlock: Hash -> Block)
    requires Represents(s, start, live, getBlock)
    ensures LiveAt(s.rows, height) ==
      if start <= height < start + |live| then Some(live[height - start]) else None
  {
    forall h | LiveRow(s.rows, h, height)
      ensures start <= height < start + |live| && h == live[height - start]
    {
      var j :| 0 <= j < |live| && live[j] == h;
    }
    if start <= height < start + |live| {
      assert live[height - start] in live;
      assert LiveRow(s.rows, live[height - start], height);
    }
  }

  lemma DetachedTop(s: Chain, start: int, live: seq<Hash>, getBlock: Hash -> Block)
    requires Represents(s, start, live, getBlock) && live != []
    ensures var top := start + |live| - 1;
      Represents(Chain(DetachAt(s.rows, top), Some(top)), start, live[..|live| - 1], getBlock)
  {
    hide RowsAre, DetachAt;
    DetachedRows(s.rows, start, live, getBlock);
  }

  lemma DetachedRows(rows: map<Hash, Row>, start: int, live: seq<Hash>, getBlock: Hash -> Block)
    requires RowsAre(rows, start, live, getBlock) && IsChain(live, start, getBlock) && live != []
    ensures RowsAre(DetachAt(rows, start + |live| - 1), start, live[..|live| - 1], getBlock)
  {
    var popped, last := live[..|live| - 1], live[|live| - 1];
    assert live == popped + [last];
    forall h
      ensures h in live <==> h in popped || h == last
      ensures h in popped ==> getBlock(h).height < start + |live| - 1
    {
    }
  }

  lemma OneRowPerHeight(s: Chain, start: int, live: seq<Hash>, getBlock: Hash -> Block)
    requires Represents(s, start, live, getBlock)
    ensures OneLivePerHeight(s.rows)
  {
    hide Represents;
    forall h1, h2 | h1 in s.rows && h2 in s.rows && !s.rows[h1].detached && LiveRow(s.rows, h2, s.rows[h1].height)
      ensures h1 == h2
    {
      LiveRowIs(s, start, live, getBlock, h1, s.rows[h1].height);
      LiveRowIs(s, start, live, getBlock, h2, s.rows[h1].height);
    }
  }

  lemma LiveRowIs(s: Chain, start: int, live: seq<Hash>, getBlock: Hash -> Block, h: Hash, height: int)
    requires Represents(s, start, live, getBlock) && LiveRow(s.rows, h, height)
    ensures start <= height < start + |live| && h == live[height - start]
  {
    var j :| 0 <= j < |live| && live[j] == h;
  }

  lemma UpsertedTop(s: Chain, start: int, live: seq<Hash>, b: Block, getBlock: Hash -> Block)
    requires Represents(s, start, live, getBlock) && 0 <= start
    requires b == getBlock(b.hash) && b.height == start + |live| && Extends(live, b)
    ensures OneLivePerHeight(Upserted(s.rows, b))
    ensures Represents(Chain(Upserted(s.rows, b), Some(b.height + 1)), start, live + [b.hash], getBlock)
  {
    hide OneLivePerHeight;
    var pushed := live + [b.hash];
    assert forall h :: h in pushed <==> h in live || h == b.hash;
    OneRowPerHeight(Chain(Upserted(s.rows, b), Some(b.height + 1)), start, pushed, getBlock);
  }

  lemma SaveStepIs(s: Chain, start: int, live: seq<Hash>, b: Block, getBlock: Hash -> Block)
    requires 0 <= start && Represents(s, start, live, getBlock)
    requires b == getBlock(b.hash) && b.height == start + |live|
    requires Extends(live, b) ==> OneLivePerHeight(Upserted(s.rows, b))
    ensures SaveStep(s, b) ==
      if Extends(live, b) then (Chain(Upserted(s.rows, b), Some(b.height + 1)), Saved)
      else (Chain(DetachAt(s.rows, b.height - 1), Some(b.height - 1)),
            Reorg(b.height - 1, live[|live| - 1], b.previousHash))
  {
    LiveAtIs(s, start, live, b.height - 1, getBlock);
    assert b.hash !in live;
  }

  /** One saved block moves the table as `PushOrPop` moves the stack; nothing is skipped or fails. */
  lemma SaveRefines(s: Chain, start: int, live: seq<Hash>, b: Block, getBlock: Hash -> Block)
    requires 0 <= start && Represents(s, start, live, getBlock)
    requires b == getBlock(b.hash) && b.height == start + |live|
    ensures Represents(SaveStep(s, b).0, start, PushOrPop(live, b), getBlock)
    ensures SaveStep(s, b).1 ==
      if Extends(live, b) then Saved else Reorg(start + |live| - 1, live[|live| - 1], b.previousHash)
  {
    hide Represents, OneLivePerHeight, SaveStep;
    if Extends(live, b) {
      UpsertedTop(s, start, live, b, getBlock);
    } else {
      DetachedTop(s, start, live, getBlock);
    }
    SaveStepIs(s, start, live, b, getBlock);
  }

  /** A restart resumes at the height the poller itself would continue from, and at no other. */
  lemma RestartResumes(s: Chain, start: int, live: seq<Hash>, getBlock: Hash -> Block, n: int)
    requires Represents(s, start, live, getBlock)
    ensures ResumesAt(s, start, n) <==> n == start + |live|
  {
    forall h | h in s.rows && s.rows[h].height < start + |live|
      ensures !Unreplaced(s.rows, h)
    {
      var g := live[s.rows[h].height - start];
      assert g in live;
    }
  }
}
