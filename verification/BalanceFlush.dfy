/** The flush's stable sort and run collapse, against applying the kept reads one at a time as they arrived. */
module BalanceFlush {
  import opened Sums
  import opened BalanceEpochs
  import opened BalanceStore

  /** A row of token_balances_current. */
  datatype Current = Current(balance: int, block: int)

  // ---------- one read at a time ----------

  /** The upsert's guard: the highest block wins, and the same block again is last-write-wins. */
  function Guarded(row: Option<Current>, r: Read): Current {
    if row.Some? && r.work.block < row.value.block then row.value else Current(r.balance, r.work.block)
  }

  function CurrentAfter(current: map<Key, Current>, rs: seq<Read>, n: int): map<Key, Current>
    requires 0 <= n <= |rs|
    decreases n
  {
    if n == 0 then current else
      var before := CurrentAfter(current, rs, n - 1);
      var k := rs[n - 1].work.key;
      before[k := Guarded(Get(before, k), rs[n - 1])]
  }

  // ---------- the sort order ----------

  predicate Before(a: Read, b: Read) {
    var (x, y) := (a.work, b.work);
    || x.key.token < y.key.token
    || (x.key.token == y.key.token && x.key.holder < y.key.holder)
    || (x.key == y.key && x.block < y.block)
  }

  predicate Sorted(s: seq<Read>) { forall i, j :: 0 <= i < j < |s| ==> !Before(s[j], s[i]) }

  predicate IsAt(r: Read, k: Key, b: int) { r.work.key == k && r.work.block == b }

  /** The reads of one key and block, in order. */
  function At(s: seq<Read>, k: Key, b: int): (r: seq<Read>)
    ensures forall x :: x in r <==> x in s && IsAt(x, k, b)
  {
    if s == [] then [] else
      var rest := At(s[..|s| - 1], k, b);
      var x := s[|s| - 1];
      assert s == s[..|s| - 1] + [x];
      if IsAt(x, k, b) then rest + [x] else rest
  }

  /** Reads of the same key and block keep their order: with Sorted, what makes a sort stable. */
  ghost predicate SameRuns(s: seq<Read>, t: seq<Read>) { forall k, b :: At(s, k, b) == At(t, k, b) }

  lemma {:induction false} AtSnoc(s: seq<Read>, x: Read, k: Key, b: int)
    ensures At(s + [x], k, b) == if IsAt(x, k, b) then At(s, k, b) + [x] else At(s, k, b)
  {
    assert (s + [x])[..|s|] == s;
  }

  lemma {:induction false} AtConcat(s: seq<Read>, t: seq<Read>, k: Key, b: int)
    ensures At(s + t, k, b) == At(s, k, b) + At(t, k, b)
    decreases |t|
  {
    if t == [] {
      assert s + t == s;
    } else {
      var init, x := t[..|t| - 1], t[|t| - 1];
      assert t == init + [x] && s + t == (s + init) + [x];
      AtConcat(s, init, k, b);
      AtSnoc(s + init, x, k, b);
      AtSnoc(init, x, k, b);
    }
  }

  lemma {:induction false} NoneAt(s: seq<Read>, k: Key, b: int)
    requires forall i :: 0 <= i < |s| ==> !IsAt(s[i], k, b)
    ensures At(s, k, b) == []
    decreases |s|
  {
    if s != [] {
      NoneAt(s[..|s| - 1], k, b);
    }
  }

  lemma {:induction false} InsertedRuns(s: seq<Read>, x: Read, p: int)
    requires 0 <= p <= |s| && forall j :: p <= j < |s| ==> Before(x, s[j])
    ensures SameRuns(s[..p] + [x] + s[p..], s + [x])
  {
    forall k, b ensures At(s[..p] + [x] + s[p..], k, b) == At(s + [x], k, b) {
      assert s == s[..p] + s[p..];
      InsertedRun(s[..p], x, s[p..], k, b);
    }
  }

  lemma {:induction false} InsertedRun(s: seq<Read>, x: Read, t: seq<Read>, k: Key, b: int)
    requires forall j :: 0 <= j < |t| ==> Before(x, t[j])
    ensures At(s + [x] + t, k, b) == At(s + t + [x], k, b)
  {
    AtConcat(s + [x], t, k, b);
    AtSnoc(s, x, k, b);
    AtConcat(s, t, k, b);
    AtSnoc(s + t, x, k, b);
    if IsAt(x, k, b) {
      NoneAt(t, k, b);
    }
  }

  /** Reads in the order of their token, holder and block, equal ones as they arrived. */
  method StableSort(s: seq<Read>) returns (r: seq<Read>)
    ensures Sorted(r) && SameRuns(r, s)
  {
    r := [];
    for i := 0 to |s|
      invariant Sorted(r) && SameRuns(r, s[..i])
    {
      var p := |r|;
      while p > 0 && Before(s[i], r[p - 1])
        invariant 0 <= p <= |r| && forall j :: p <= j < |r| ==> Before(s[i], r[j])
      {
        p := p - 1;
      }
      InsertedRuns(r, s[i], p);
      InsertedSorted(r, s[i], p);
      RunsSnoc(r, s, i, r[..p] + [s[i]] + r[p..]);
      r := r[..p] + [s[i]] + r[p..];
    }
    assert s[..|s|] == s;
  }

  lemma {:induction false} RunsSnoc(r: seq<Read>, s: seq<Read>, i: int, r': seq<Read>)
    requires 0 <= i < |s| && SameRuns(r, s[..i]) && SameRuns(r', r + [s[i]])
    ensures SameRuns(r', s[..i + 1])
  {
    forall k, b ensures At(r', k, b) == At(s[..i + 1], k, b) {
      assert At(r', k, b) == At(r + [s[i]], k, b);
      assert s[..i + 1] == s[..i] + [s[i]];
      AtSnoc(s[..i], s[i], k, b);
      AtSnoc(r, s[i], k, b);
    }
  }

  lemma {:induction false} InsertedSorted(s: seq<Read>, x: Read, p: int)
    requires Sorted(s) && 0 <= p <= |s| && (p == 0 || !Before(x, s[p - 1]))
    requires forall j :: p <= j < |s| ==> Before(x, s[j])
    ensures Sorted(s[..p] + [x] + s[p..])
  {
    var t := s[..p] + [x] + s[p..];
    forall i, j | 0 <= i < j < |t| ensures !Before(t[j], t[i]) {
      if i < p && j == p && i != p - 1 {
        assert !Before(s[p - 1], s[i]);
      } else if i < p && j > p {
        assert t[j] == s[j - 1];
      } else if i > p {
        assert t[j] == s[j - 1] && t[i] == s[i - 1];
      }
    }
  }

  // ---------- the collapse ----------

  predicate SameRow(a: Read, b: Read) { a.work.key == b.work.key && a.work.block == b.work.block }

  predicate SameKey(a: Read, b: Read) { a.work.key == b.work.key }

  predicate Dropped(s: seq<Read>, i: int, same: (Read, Read) -> bool)
    requires 0 <= i < |s|
  {
    i + 1 < |s| && same(s[i + 1], s[i])
  }

  /** Of the first n reads, those not followed by one of the same run. */
  function LastOfRuns(s: seq<Read>, n: int, same: (Read, Read) -> bool): seq<Read>
    requires 0 <= n <= |s|
    decreases n
  {
    if n == 0 then [] else
      var rest := LastOfRuns(s, n - 1, same);
      if Dropped(s, n - 1, same) then rest else rest + [s[n - 1]]
  }

  method Collapse(s: seq<Read>, same: (Read, Read) -> bool) returns (r: seq<Read>)
    ensures r == LastOfRuns(s, |s|, same)
  {
    r := [];
    for i := 0 to |s|
      invariant r == LastOfRuns(s, i, same)
    {
      if i + 1 < |s| && same(s[i + 1], s[i]) {
        continue;
      }
      r := r + [s[i]];
    }
  }

  function LastOf(s: seq<Read>): Option<Read> { if s == [] then None else Some(s[|s| - 1]) }

  lemma {:induction false} CollapsedLast(s: seq<Read>, n: int, k: Key, b: int)
    requires 0 <= n <= |s| && !(n > 0 && IsAt(s[n - 1], k, b) && Dropped(s, n - 1, SameRow))
    ensures LastOf(At(LastOfRuns(s, n, SameRow), k, b)) == LastOf(At(s[..n], k, b))
    decreases n
  {
    if n > 0 {
      assert s[..n] == s[..n - 1] + [s[n - 1]];
      AtSnoc(s[..n - 1], s[n - 1], k, b);
      AtSnoc(LastOfRuns(s, n - 1, SameRow), s[n - 1], k, b);
      if !IsAt(s[n - 1], k, b) {
        CollapsedLast(s, n - 1, k, b);
      }
    }
  }

  /** No key and block twice, as one INSERT ... ON CONFLICT DO UPDATE demands. */
  lemma {:induction false} CollapsedDistinct(s: seq<Read>, n: int, same: (Read, Read) -> bool)
    requires Sorted(s) && 0 <= n <= |s| && (same == SameRow || same == SameKey)
    ensures forall i, j :: 0 <= i < j < |LastOfRuns(s, n, same)| ==>
              !same(LastOfRuns(s, n, same)[j], LastOfRuns(s, n, same)[i])
    ensures forall i :: 0 <= i < |LastOfRuns(s, n, same)| ==> LastOfRuns(s, n, same)[i] in s[..n]
    ensures n < |s| ==> forall i :: 0 <= i < |LastOfRuns(s, n, same)| ==> !same(s[n], LastOfRuns(s, n, same)[i])
    decreases n
  {
    if n > 0 {
      CollapsedDistinct(s, n - 1, same);
      assert s[..n] == s[..n - 1] + [s[n - 1]];
      if n < |s| {
        var rest := LastOfRuns(s, n - 1, same);
        forall i | 0 <= i < |rest| ensures !same(s[n], rest[i]) {
          assert rest[i] in s[..n - 1];
          assert !Before(s[n], s[n - 1]);
        }
      }
    }
  }

  // ---------- what each table ends with ----------

  /** The history row of a key and block is the last of its reads, or the old row. */
  lemma {:induction false} StoredLast(history: History, s: seq<Read>, from: int, n: int, k: Key, b: int)
    requires 0 <= n <= |s|
    ensures var last := LastOf(At(s[..n], k, b));
            Get(Stored(history, s, from, n), (k, b)) == if last.Some? && b >= from then last else Get(history, (k, b))
    decreases n
  {
    if n > 0 {
      StoredLast(history, s, from, n - 1, k, b);
      assert s[..n] == s[..n - 1] + [s[n - 1]];
      AtSnoc(s[..n - 1], s[n - 1], k, b);
    }
  }

  /** A key's read at the highest block, the later of equal ones. */
  function Top(s: seq<Read>, k: Key): Option<Read> {
    if s == [] then None else
      var top, x := Top(s[..|s| - 1], k), s[|s| - 1];
      if x.work.key == k && (top.None? || x.work.block >= top.value.work.block) then Some(x) else top
  }

  lemma {:induction false} TopSnoc(s: seq<Read>, x: Read, k: Key)
    ensures Top(s + [x], k) == var top := Top(s, k);
                               if x.work.key == k && (top.None? || x.work.block >= top.value.work.block) then Some(x)
                                   else top
  {
    assert (s + [x])[..|s|] == s;
  }

  lemma {:induction false} TopIsLast(s: seq<Read>, k: Key)
    ensures var top := Top(s, k);
            && (top.Some? ==> top.value.work.key == k && LastOf(At(s, k, top.value.work.block)) == top)
            && forall x :: x in s && x.work.key == k ==> top.Some? && x.work.block <= top.value.work.block
    decreases |s|
  {
    if s != [] {
      var init, x := s[..|s| - 1], s[|s| - 1];
      assert s == init + [x];
      TopIsLast(init, k);
      if Top(s, k).Some? {
        AtSnoc(init, x, k, Top(s, k).value.work.block);
      }
      if Top(s, k) == Some(x) {
        assert At(s, k, x.work.block)[|At(s, k, x.work.block)| - 1] == x;
      }
    }
  }

  lemma {:induction false} TopOfRuns(s: seq<Read>, t: seq<Read>, k: Key)
    requires SameRuns(s, t)
    ensures Top(s, k) == Top(t, k)
  {
    TopIsLast(s, k);
    TopIsLast(t, k);
    if Top(s, k).Some? {
      TopReached(s, t, k);
    }
    if Top(t, k).Some? {
      TopReached(t, s, k);
    }
  }

  lemma {:induction false} TopReached(s: seq<Read>, t: seq<Read>, k: Key)
    requires SameRuns(s, t) && Top(s, k).Some?
    ensures Top(t, k).Some? && Top(t, k).value.work.block >= Top(s, k).value.work.block
    ensures LastOf(At(t, k, Top(s, k).value.work.block)) == Top(s, k)
  {
    var b := Top(s, k).value.work.block;
    TopIsLast(s, k);
    TopIsLast(t, k);
    assert At(s, k, b) == At(t, k, b);
    assert At(t, k, b)[|At(t, k, b)| - 1] in t;
  }

  lemma {:induction false} CurrentIsTop(current: map<Key, Current>, s: seq<Read>, n: int, k: Key)
    requires 0 <= n <= |s|
    ensures var top := Top(s[..n], k);
            Get(CurrentAfter(current, s, n), k) == if top.Some? then Some(Guarded(Get(current, k), top.value))
                else Get(current, k)
    decreases n
  {
    if n > 0 {
      CurrentIsTop(current, s, n - 1, k);
      assert s[..n] == s[..n - 1] + [s[n - 1]];
      TopSnoc(s[..n - 1], s[n - 1], k);
    }
  }

  /** A read at least as high as every earlier one of its key is the key's highest. */
  lemma {:induction false} TopIsNew(s: seq<Read>, x: Read)
    requires Top(s, x.work.key).Some? ==> Top(s, x.work.key).value.work.block <= x.work.block
    ensures Top(s + [x], x.work.key) == Some(x)
  {
    TopSnoc(s, x, x.work.key);
  }

  lemma {:induction false} TopOfOther(s: seq<Read>, x: Read, k: Key)
    requires x.work.key != k
    ensures Top(s + [x], k) == Top(s, k)
  {
    TopSnoc(s, x, k);
  }

  lemma {:induction false} CollapsedTop(s: seq<Read>, n: int, k: Key)
    requires Sorted(s) && 0 <= n <= |s| && !(n > 0 && s[n - 1].work.key == k && Dropped(s, n - 1, SameKey))
    ensures Top(LastOfRuns(s, n, SameKey), k) == Top(s[..n], k)
    decreases n
  {
    if n > 0 {
      if s[n - 1].work.key != k {
        CollapsedTop(s, n - 1, k);
        CollapsedOther(s, n, k);
      } else {
        CollapsedOwn(s, n);
      }
    }
  }

  lemma {:induction false} CollapsedOther(s: seq<Read>, n: int, k: Key)
    requires 0 < n <= |s| && s[n - 1].work.key != k
    requires Top(LastOfRuns(s, n - 1, SameKey), k) == Top(s[..n - 1], k)
    ensures Top(LastOfRuns(s, n, SameKey), k) == Top(s[..n], k)
  {
    assert s[..n] == s[..n - 1] + [s[n - 1]];
    TopOfOther(s[..n - 1], s[n - 1], k);
    TopOfOther(LastOfRuns(s, n - 1, SameKey), s[n - 1], k);
  }

  lemma {:induction false} CollapsedOwn(s: seq<Read>, n: int)
    requires Sorted(s) && 0 < n <= |s| && !Dropped(s, n - 1, SameKey)
    ensures Top(LastOfRuns(s, n, SameKey), s[n - 1].work.key) == Top(s[..n], s[n - 1].work.key)
  {
    assert s[..n] == s[..n - 1] + [s[n - 1]];
    CollapsedDistinct(s, n - 1, SameKey);
    BothTops(s, n - 1, s[..n - 1], LastOfRuns(s, n - 1, SameKey));
  }

  /** The next read of a sorted sequence is the highest of its key after any earlier reads. */
  lemma {:induction false} BothTops(s: seq<Read>, i: int, t: seq<Read>, u: seq<Read>)
    requires Sorted(s) && 0 <= i < |s|
    requires (forall j :: 0 <= j < |t| ==> t[j] in s[..i]) && (forall j :: 0 <= j < |u| ==> u[j] in s[..i])
    ensures Top(t + [s[i]], s[i].work.key) == Top(u + [s[i]], s[i].work.key)
  {
    TopBelow(s, i, s[i].work.key, t);
    TopBelow(s, i, s[i].work.key, u);
    TopIsNew(t, s[i]);
    TopIsNew(u, s[i]);
  }

  lemma {:induction false} TopBelow(s: seq<Read>, i: int, k: Key, t: seq<Read>)
    requires Sorted(s) && 0 <= i < |s| && s[i].work.key == k && forall j :: 0 <= j < |t| ==> t[j] in s[..i]
    ensures Top(t, k).Some? ==> Top(t, k).value.work.block <= s[i].work.block
  {
    TopIsLast(t, k);
    if Top(t, k).Some? {
      var x := Top(t, k).value;
      assert x in At(t, k, x.work.block);
      assert x in t;
      var j :| 0 <= j < |t| && t[j] == x;
      assert x in s[..i];
      var m :| 0 <= m < i && s[m] == x;
      assert !Before(s[i], s[m]);
    }
  }

  // ---------- the flush ----------

  function KeptOf(s: seq<Read>, requests: Requests, latest: int): seq<Read> { Kept(s, requests, latest, |s|) }

  lemma {:induction false} KeptSnoc(s: seq<Read>, x: Read, requests: Requests, latest: int)
    ensures KeptOf(s + [x], requests, latest) ==
            if Keeps(x, requests, latest) then KeptOf(s, requests, latest) + [x] else KeptOf(s, requests, latest)
  {
    KeptOfPrefix(s + [x], s, requests, latest, |s|);
  }

  lemma {:induction false} KeptRun(s: seq<Read>, requests: Requests, latest: int, k: Key, b: int)
    ensures At(KeptOf(s, requests, latest), k, b) == KeptOf(At(s, k, b), requests, latest)
    decreases |s|
  {
    if s != [] {
      var init, x := s[..|s| - 1], s[|s| - 1];
      assert s == init + [x];
      KeptRun(init, requests, latest, k, b);
      AtSnoc(init, x, k, b);
      KeptSnoc(init, x, requests, latest);
      KeptSnoc(At(init, k, b), x, requests, latest);
      AtSnoc(KeptOf(init, requests, latest), x, k, b);
    }
  }

  lemma {:induction false} KeptOfPrefix(s: seq<Read>, t: seq<Read>, requests: Requests, latest: int, n: int)
    requires 0 <= n <= |s| && n <= |t| && forall i :: 0 <= i < n ==> s[i] == t[i]
    ensures Kept(s, requests, latest, n) == Kept(t, requests, latest, n)
    decreases n
  {
    if n > 0 {
      KeptOfPrefix(s, t, requests, latest, n - 1);
    }
  }

  /** Filtering a sorted batch keeps it sorted, and its runs are those of the batch filtered as it arrived. */
  lemma {:induction false} KeptSorted(s: seq<Read>, requests: Requests, latest: int, n: int)
    requires Sorted(s) && 0 <= n <= |s|
    ensures Sorted(Kept(s, requests, latest, n))
    ensures forall i :: 0 <= i < |Kept(s, requests, latest, n)| ==> Kept(s, requests, latest, n)[i] in s[..n]
    decreases n
  {
    if n > 0 {
      KeptSorted(s, requests, latest, n - 1);
      assert s[..n] == s[..n - 1] + [s[n - 1]];
    }
  }

  lemma {:induction false} KeptSameRuns(s: seq<Read>, t: seq<Read>, requests: Requests, latest: int)
    requires SameRuns(s, t)
    ensures SameRuns(Kept(s, requests, latest, |s|), Kept(t, requests, latest, |t|))
  {
    forall k, b ensures At(Kept(s, requests, latest, |s|), k, b) == At(Kept(t, requests, latest, |t|), k, b) {
      KeptRun(s, requests, latest, k, b);
      KeptRun(t, requests, latest, k, b);
      assert At(s, k, b) == At(t, k, b);
    }
  }

  /** The collapsed history rows store what the arrivals store one at a time. */
  lemma {:induction false} CollapseStores(history: History, sorted: seq<Read>, arrived: seq<Read>, from: int)
    requires SameRuns(sorted, arrived)
    ensures var rows := LastOfRuns(sorted, |sorted|, SameRow);
            Stored(history, rows, from, |rows|) == Stored(history, arrived, from, |arrived|)
  {
    var rows := LastOfRuns(sorted, |sorted|, SameRow);
    forall kb
      ensures Get(Stored(history, rows, from, |rows|), kb) == Get(Stored(history, arrived, from, |arrived|), kb)
    {
      var (k, b) := kb;
      StoredLast(history, rows, from, |rows|, k, b);
      StoredLast(history, arrived, from, |arrived|, k, b);
      CollapsedLast(sorted, |sorted|, k, b);
      assert rows[..|rows|] == rows && arrived[..|arrived|] == arrived && sorted[..|sorted|] == sorted;
      assert At(sorted, k, b) == At(arrived, k, b);
    }
    SameRows(Stored(history, rows, from, |rows|), Stored(history, arrived, from, |arrived|));
  }

  /** The collapsed current rows leave what the arrivals leave one at a time. */
  lemma {:induction false} CollapseUpserts(current: map<Key, Current>, sorted: seq<Read>, arrived: seq<Read>)
    requires Sorted(sorted) && SameRuns(sorted, arrived)
    ensures var rows := LastOfRuns(sorted, |sorted|, SameKey);
            CurrentAfter(current, rows, |rows|) == CurrentAfter(current, arrived, |arrived|)
  {
    var rows := LastOfRuns(sorted, |sorted|, SameKey);
    forall k ensures Get(CurrentAfter(current, rows, |rows|), k) == Get(CurrentAfter(current, arrived, |arrived|), k) {
      CurrentIsTop(current, rows, |rows|, k);
      CurrentIsTop(current, arrived, |arrived|, k);
      CollapsedTop(sorted, |sorted|, k);
      TopOfRuns(sorted, arrived, k);
      assert rows[..|rows|] == rows && arrived[..|arrived|] == arrived && sorted[..|sorted|] == sorted;
    }
    SameRows(CurrentAfter(current, rows, |rows|), CurrentAfter(current, arrived, |arrived|));
  }

  /** One statement's upsert of the collapsed current rows. */
  method UpsertCurrent(current: map<Key, Current>, rows: seq<Read>) returns (current': map<Key, Current>)
    ensures current' == CurrentAfter(current, rows, |rows|)
  {
    current' := current;
    for i := 0 to |rows|
      invariant current' == CurrentAfter(current, rows, i)
    {
      var r := rows[i];
      if r.work.key !in current' || r.work.block >= current'[r.work.key].block {
        current' := current'[r.work.key := Current(r.balance, r.work.block)];
      }
      assert r.work.key in current';
    }
  }

  /**
   A flush sorts, filters and collapses its reads and writes each table with one statement; the tables end as if the
   reads it keeps were applied one at a time in the order they arrived.
   */
  method FlushTables(history: History, current: map<Key, Current>, requests: Requests, batch: seq<Read>, latest: int,
                     from: int)
    returns (history': History, current': map<Key, Current>)
    ensures var kept := Kept(batch, requests, latest, |batch|);
            history' == Stored(history, kept, from, |kept|) && current' == CurrentAfter(current, kept, |kept|)
  {
    var ordered := StableSort(batch);
    var kept, _, _ := FilterReads(ordered, requests, latest);
    KeptSorted(ordered, requests, latest, |ordered|);
    KeptSameRuns(ordered, batch, requests, latest);
    var historyRows := Collapse(kept, SameRow);
    var currentRows := Collapse(kept, SameKey);
    CollapseStores(history, kept, Kept(batch, requests, latest, |batch|), from);
    CollapseUpserts(current, kept, Kept(batch, requests, latest, |batch|));
    history' := InsertHistory(history, historyRows, from);
    current' := UpsertCurrent(current, currentRows);
  }
}
