/**
 What `saveBlock` of the block table answers and writes, whatever the table holds
 (services/pearl-indexer/src/postgres-sink.ts).
 */
module PearlMoves {
  import opened Wrappers
  import opened PearlChain

  /** The row of a block that is not detached, at the height. */
  predicate LiveThere(s: Chain, h: Hash, height: int) {
    h in s.rows && s.rows[h].height == height && s.rows[h].detached == false
  }

  /** The block is there already. */
  predicate Known(s: Chain, b: Block) {
    LiveThere(s, b.hash, b.height)
  }

  /** The live block below is not the one the block names. */
  ghost predicate OtherParent(s: Chain, b: Block) {
    b.height > 0 && exists h :: LiveThere(s, h, b.height - 1) && b.previousHash != Some(h)
  }

  /** The height the row would have: a detached row that comes back keeps its own. */
  function RowHeight(s: Chain, b: Block): int {
    if b.hash in s.rows then s.rows[b.hash].height else b.height
  }

  ghost predicate HeightTaken(s: Chain, b: Block) {
    exists h :: h != b.hash && LiveThere(s, h, RowHeight(s, b))
  }

  /** The next height never goes back when a block is saved or saved again. */
  predicate MovedTo(s: Chain, s': Chain, height: int) {
    s'.next == Some(if s.next.Some? && height < s.next.value then s.next.value else height)
  }

  lemma OneLive(s: Chain, b: Block, h: Hash)
    requires OneLivePerHeight(s.rows) && LiveThere(s, h, b.height - 1)
    ensures LiveAt(s.rows, b.height - 1) == Some(h)
  {
    var g :| LiveRow(s.rows, g, b.height - 1);
  }

  lemma FitsIff(s: Chain, b: Block)
    requires OneLivePerHeight(s.rows)
    ensures OneLivePerHeight(Upserted(s.rows, b)) <==> !HeightTaken(s, b)
  {
    var rows' := Upserted(s.rows, b);
    assert forall h :: h in rows' && h != b.hash ==> h in s.rows && rows'[h] == s.rows[h];
    if HeightTaken(s, b) {
      var h :| h != b.hash && LiveThere(s, h, RowHeight(s, b));
      assert b.hash in rows' && h in rows' && LiveRow(rows', h, rows'[b.hash].height);
    } else {
      forall h1, h2 | h1 in rows' && h2 in rows' && !rows'[h1].detached && LiveRow(rows', h2, rows'[h1].height)
        ensures h1 == h2
      {
        assert h1 != b.hash && h2 != b.hash ==> LiveRow(s.rows, h2, s.rows[h1].height);
        assert h1 == b.hash != h2 ==> LiveThere(s, h2, RowHeight(s, b));
        assert h2 == b.hash != h1 ==> LiveThere(s, h1, RowHeight(s, b));
      }
    }
  }

  /**
   The four answers, and when each is given: the block is there already, the live block below it is another than it names,
   another live block has its height, or none of these.  A known block writes nothing but the next height, a reorg detaches
   the block below and goes back to its height, a failure writes nothing, and a saved block's row is live.
   */
  lemma SaveIff(s: Chain, b: Block)
    requires OneLivePerHeight(s.rows)
    ensures var (s', r) := SaveStep(s, b);
      && (r == Duplicate <==> Known(s, b))
      && (r.Reorg? <==> !Known(s, b) && OtherParent(s, b))
      && (r == Failed <==> !Known(s, b) && !OtherParent(s, b) && HeightTaken(s, b))
      && (r == Duplicate ==> s'.rows == s.rows && MovedTo(s, s', b.height + 1))
      && (r.Reorg? ==>
            && r.detachedFromHeight == b.height - 1 && r.newPreviousHash == b.previousHash && LiveThere(s, r.indexedHash, b.height - 1)
            && s'.next == Some(b.height - 1) && s'.rows == s.rows[r.indexedHash := s.rows[r.indexedHash].(detached := true)])
      && (r == Failed ==> s' == s)
      && (r == Saved ==> MovedTo(s, s', b.height + 1) && s'.rows == s.rows[b.hash := Row(RowHeight(s, b), b.previousHash, false)])
  {
    hide OneLivePerHeight, DetachAt;
    var below := b.height - 1;
    if h :| LiveThere(s, h, below) {
      OneLive(s, b, h);
      DetachesOne(s, b, h);
      forall g | LiveThere(s, g, b.height - 1) {
        OneLive(s, b, g);
      }
    }
    FitsIff(s, b);
  }

  lemma DetachesOne(s: Chain, b: Block, h: Hash)
    requires OneLivePerHeight(s.rows) && LiveThere(s, h, b.height - 1)
    ensures DetachAt(s.rows, b.height - 1) == s.rows[h := s.rows[h].(detached := true)]
  {
  }
}
