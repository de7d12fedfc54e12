/** token_balances_current as a cache of each key's latest balance history row, through flushes and reverts. */
module BalanceCache {
  import opened Sums
  import opened BalanceEpochs
  import opened BalanceFlush

  type Currents = map<Key, Current>

  function BlocksOf(history: History, k: Key): set<int> { set kb | kb in history && kb.0 == k :: kb.1 }

  /** The row a query for the key's highest block would return. */
  function Latest(history: History, k: Key): Option<Current> {
    var b := MaxOf(BlocksOf(history, k));
    if b.Some? && (k, b.value) in history then Some(Current(history[(k, b.value)].balance, b.value)) else None
  }

  ghost predicate CachesAt(history: History, current: Currents, k: Key) { Get(current, k) == Latest(history, k) }

  lemma {:induction false} LatestMeans(history: History, k: Key, b: int)
    requires (k, b) in history && forall c :: (k, c) in history ==> c <= b
    ensures Latest(history, k) == Some(Current(history[(k, b)].balance, b))
  {
    assert (k, b).1 in BlocksOf(history, k);
    forall c | c in BlocksOf(history, k) ensures (k, c) in history {
      var kb :| kb in history && kb.0 == k && kb.1 == c;
      assert kb == (k, c);
    }
  }

  lemma {:induction false} LatestNone(history: History, k: Key)
    ensures Latest(history, k).None? <==> forall c :: (k, c) !in history
    ensures Latest(history, k).Some? ==>
              && (k, Latest(history, k).value.block) in history
              && Latest(history, k).value.balance == history[(k, Latest(history, k).value.block)].balance
              && forall c :: (k, c) in history ==> c <= Latest(history, k).value.block
  {
    forall c | c in BlocksOf(history, k) ensures (k, c) in history {
      var kb :| kb in history && kb.0 == k && kb.1 == c;
      assert kb == (k, c);
    }
    forall c | (k, c) in history ensures c in BlocksOf(history, k) {
      assert (k, c).1 in BlocksOf(history, k);
    }
  }

  lemma {:induction false} SameLatest(a: History, b: History, k: Key)
    requires forall c :: Get(a, (k, c)) == Get(b, (k, c))
    ensures Latest(a, k) == Latest(b, k)
  {
    LatestNone(a, k);
    LatestNone(b, k);
    assert forall c :: (k, c) in a <==> Get(a, (k, c)).Some?;
    assert forall c :: (k, c) in b <==> Get(b, (k, c)).Some?;
  }

  /** The key's latest row once a flush has stored its reads. */
  lemma {:induction false} StoredLatest(history: History, kept: seq<Read>, from: int, k: Key)
    ensures var top := Top(kept, k);
            var was := Latest(history, k);
            Latest(Stored(history, kept, from, |kept|), k) ==
            if top.Some? && top.value.work.block >= from then Some(Guarded(was, top.value)) else was
  {
    var top, was := Top(kept, k), Latest(history, k);
    if top.None? || top.value.work.block < from {
      StoredBelow(history, kept, from, k);
    } else if was.Some? && top.value.work.block < was.value.block {
      StoredUnder(history, kept, from, k);
    } else {
      StoredOver(history, kept, from, k);
    }
  }

  lemma {:induction false} StoredRows(history: History, kept: seq<Read>, from: int, k: Key, c: int)
    ensures Get(Stored(history, kept, from, |kept|), (k, c)) == StoredRow(history, kept, from, k, c)
  {
    StoredLast(history, kept, from, |kept|, k, c);
    assert kept[..|kept|] == kept;
  }

  lemma {:induction false} StoredBelow(history: History, kept: seq<Read>, from: int, k: Key)
    requires Top(kept, k).None? || Top(kept, k).value.work.block < from
    ensures Latest(Stored(history, kept, from, |kept|), k) == Latest(history, k)
  {
    var history' := Stored(history, kept, from, |kept|);
    forall c ensures Get(history', (k, c)) == Get(history, (k, c)) {
      StoredRows(history, kept, from, k, c);
      if c >= from {
        NoneOf(kept, k, c);
      }
    }
    SameLatest(history', history, k);
  }

  /** The highest read is under the latest row, which stays the latest. */
  lemma {:induction false} StoredUnder(history: History, kept: seq<Read>, from: int, k: Key)
    requires Top(kept, k).Some? && Latest(history, k).Some?
    requires Top(kept, k).value.work.block < Latest(history, k).value.block
    ensures Latest(Stored(history, kept, from, |kept|), k) == Latest(history, k)
  {
    var last := Latest(history, k).value.block;
    LatestNone(history, k);
    NoneOf(kept, k, last);
    StoredRows(history, kept, from, k, last);
    NoneAbove(history, kept, from, k, last);
    LatestMeans(Stored(history, kept, from, |kept|), k, last);
  }

  /** The highest read is stored at or over the latest row, and is the latest. */
  lemma {:induction false} StoredOver(history: History, kept: seq<Read>, from: int, k: Key)
    requires Top(kept, k).Some? && Top(kept, k).value.work.block >= from
    requires Latest(history, k).Some? ==> Latest(history, k).value.block <= Top(kept, k).value.work.block
    ensures var top := Top(kept, k).value;
            Latest(Stored(history, kept, from, |kept|), k) == Some(Current(top.balance, top.work.block))
  {
    var top := Top(kept, k).value;
    TopIsLast(kept, k);
    StoredRows(history, kept, from, k, top.work.block);
    NoneAbove(history, kept, from, k, top.work.block);
    LatestMeans(Stored(history, kept, from, |kept|), k, top.work.block);
  }

  function StoredRow(history: History, kept: seq<Read>, from: int, k: Key, c: int): Option<Read> {
    if c >= from && At(kept, k, c) != [] then LastOf(At(kept, k, c)) else Get(history, (k, c))
  }

  /** A block with a read of the key is at or below its highest one. */
  lemma {:induction false} NoneOf(kept: seq<Read>, k: Key, c: int)
    requires Top(kept, k).None? || c > Top(kept, k).value.work.block
    ensures At(kept, k, c) == []
  {
    TopIsLast(kept, k);
    NoneAt(kept, k, c);
  }

  lemma {:induction false} NoneAbove(history: History, kept: seq<Read>, from: int, k: Key, last: int)
    requires Top(kept, k).Some? && Top(kept, k).value.work.block <= last
    requires Latest(history, k).Some? ==> Latest(history, k).value.block <= last
    ensures forall c :: (k, c) in Stored(history, kept, from, |kept|) ==> c <= last
  {
    LatestNone(history, k);
    forall c | (k, c) in Stored(history, kept, from, |kept|) && c > last ensures false {
      StoredLast(history, kept, from, |kept|, k, c);
      assert kept[..|kept|] == kept;
      NoneOf(kept, k, c);
    }
  }

  /**
   A flush leaves a cached key cached exactly when the key's highest read is kept in the history, or there is none, or
   the current row is above it or already what it says: a read below the first retained block goes into no history row,
   and the upsert still takes it over an older or missing current row.
   */
  lemma {:induction false} FlushCachesExactly(history: History, current: Currents, kept: seq<Read>, from: int, k: Key)
    requires CachesAt(history, current, k)
    ensures var top, row := Top(kept, k), Get(current, k);
            CachesAt(Stored(history, kept, from, |kept|), CurrentAfter(current, kept, |kept|), k) <==>
            || top.None? || top.value.work.block >= from
            || (row.Some? && top.value.work.block < row.value.block)
            || row == Some(Current(top.value.balance, top.value.work.block))
  {
    StoredLatest(history, kept, from, k);
    CurrentIsTop(current, kept, |kept|, k);
    assert kept[..|kept|] == kept;
  }

  // ---------- the revert ----------

  /** Each restored key is set to its latest remaining row, or loses its current row when none remains. */
  method Restore(history: History, current: Currents, restore: seq<Key>) returns (current': Currents)
    ensures forall k :: Get(current', k) == if k in restore then Latest(history, k) else Get(current, k)
  {
    current' := current;
    for i := 0 to |restore|
      invariant forall k :: Get(current', k) == if k in restore[..i] then Latest(history, k) else Get(current, k)
    {
      current' := Put(current', restore[i], Latest(history, restore[i]));
    }
  }

  /** The row is the key's history row at its highest block other than the reverted one, or none is left. */
  ghost predicate SetBack(history: History, block: int, row: Option<Current>, k: Key) {
    if row.None? then forall c :: (k, c) in history ==> c == block
    else
      var b := row.value.block;
      && b != block && (k, b) in history && row.value.balance == history[(k, b)].balance
      && forall c :: c != block && (k, c) in history ==> c <= b
  }

  /** A revert keeps the cache of every key it restores, and of every key the block had no row of. */
  method RevertBalances(history: History, current: Currents, block: int, restore: seq<Key>)
    returns (history': History, current': Currents)
    ensures forall kb :: Get(history', kb) == if kb.1 == block then None else Get(history, kb)
    ensures forall k :: k in restore ==> SetBack(history, block, Get(current', k), k)
    ensures history' == WithoutBlock(history, block)
    ensures forall k :: k in restore ==> CachesAt(history', current', k)
    ensures forall k :: k !in restore && (k, block) !in history && CachesAt(history, current, k) ==>
              CachesAt(history', current', k)
    ensures forall k :: k !in restore ==> Get(current', k) == Get(current, k)
  {
    history' := WithoutBlock(history, block);
    current' := Restore(history', current, restore);
    forall k | k in restore ensures SetBack(history, block, Get(current', k), k) {
      LatestNone(history', k);
    }
    forall k | (k, block) !in history ensures Latest(history', k) == Latest(history, k) {
      forall c ensures Get(history', (k, c)) == Get(history, (k, c)) {
      }
      SameLatest(history, history', k);
    }
  }

  /**
   A key the revert could not lock keeps the reverted block's balance: the cache is wrong exactly when that was its
   latest.
   */
  lemma {:induction false} UnlockedKeyGoesStale(history: History, current: Currents, block: int, k: Key)
    requires CachesAt(history, current, k) && (k, block) in history
    ensures CachesAt(WithoutBlock(history, block), current, k) <==> exists c :: c > block && (k, c) in history
  {
    var history' := WithoutBlock(history, block);
    LatestNone(history, k);
    LatestNone(history', k);
    var top := Latest(history, k).value.block;
    if top > block {
      assert (k, top) in history' && history'[(k, top)] == history[(k, top)];
      LatestMeans(history', k, top);
    }
  }
}
