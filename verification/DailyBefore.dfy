/**
 The count of earlier transactions each aggregated day carries, through folds of one or several new days and
 recounts.
 */
module DailyBefore {
  import opened Sums

  /** before is NULL on a row that has not been given its count yet. */
  datatype Day = Day(txs: int, before: Option<int>)

  type Acc = map<int, Day>

  function Earlier(acc: Acc, d: int): set<int> { set x | x in acc && x < d }

  function Prev(acc: Acc, d: int): Option<int> { MaxOf(Earlier(acc, d)) }

  /** Each day's count is the previous aggregated day's count and transactions together. */
  ghost predicate ChainedAt(acc: Acc, d: int) {
    d in acc ==>
      && acc[d].before.Some?
      && (Prev(acc, d).Some? && acc[Prev(acc, d).value].before.Some? ==>
            acc[d].before.value == acc[Prev(acc, d).value].before.value + acc[Prev(acc, d).value].txs)
  }

  ghost predicate Chained(acc: Acc) { forall d :: ChainedAt(acc, d) }

  // ---------- the statements of a fold ----------

  /** The sums of the new blocks' transactions, each added to its day. */
  function WithTxs(acc: Acc, added: map<int, int>): Acc {
    map d | d in acc.Keys + added.Keys ::
      if d !in added then acc[d] else if d in acc then acc[d].(txs := acc[d].txs + added[d]) else Day(added[d], None)
  }

  function WithBefore(acc: Acc, d: int): set<int> { set x | x in acc && x < d && acc[x].before.Some? }

  /** The transactions up to the end of a day that has its count. */
  function Through(day: Day): int
    requires day.before.Some?
  {
    day.before.value + day.txs
  }

  function Known(acc: Acc, d: int): Option<int> { MaxOf(WithBefore(acc, d)) }

  /**
   One statement: each row without a count takes it from the last earlier row that had one when the statement
   began.
   */
  function Filled(acc: Acc, early: int -> int): Acc {
    map d | d in acc ::
      if acc[d].before.Some? then acc[d]
      else if Known(acc, d).Some? then acc[d].(before := Some(Through(acc[Known(acc, d).value])))
      else acc[d].(before := Some(early(d)))
  }

  function Recounted(acc: Acc, again: map<int, int>): Acc {
    map d | d in acc.Keys + again.Keys :: if d in again then Day(again[d], None) else acc[d]
  }

  function Since(acc: Acc, from: int, d: int): set<int> { set x | x in acc && from <= x < d }

  function TxsOf(acc: Acc): int -> int { x => if x in acc then acc[x].txs else 0 }

  function Base(acc: Acc, from: int, early: int -> int): int {
    var p := Prev(acc, from);
    if p.Some? && acc[p.value].before.Some? then acc[p.value].before.value + acc[p.value].txs else early(from)
  }

  /** Every day from the given one on gets the base and the transactions of the days between. */
  ghost function Rewritten(acc: Acc, from: int, early: int -> int): Acc {
    map d | d in acc ::
      if d < from then acc[d]
      else acc[d].(before := Some(Base(acc, from, early) + Sum(Since(acc, from, d), TxsOf(acc))))
  }

  /** The day to rewrite from: the first recounted, or the first new one when the new blocks span several days. */
  function RewriteFrom(first: Option<int>, added: map<int, int>): Option<int> {
    var spanned := if added.Keys != {} && Min(added.Keys) != Max(added.Keys) then Some(Min(added.Keys)) else None;
    Least(first, spanned)
  }

  ghost function Folded(acc: Acc, added: map<int, int>, first: Option<int>, again: map<int, int>,
                        early: int -> int): Acc {
    var staged := Recounted(Filled(WithTxs(acc, added), early), again);
    var from := RewriteFrom(first, added);
    if from.Some? then Rewritten(staged, from.value, early) else staged
  }

  // ---------- the chain ----------

  lemma {:induction false} RewrittenPrev(acc: Acc, from: int, early: int -> int, d: int)
    ensures Prev(Rewritten(acc, from, early), d) == Prev(acc, d)
  {
    assert Earlier(Rewritten(acc, from, early), d) == Earlier(acc, d);
  }

  lemma {:induction false} RewrittenLater(acc: Acc, from: int, early: int -> int, d: int)
    requires d in acc && from <= d && (Prev(acc, from).Some? ==> acc[Prev(acc, from).value].before.Some?)
    ensures ChainedAt(Rewritten(acc, from, early), d)
  {
    RewrittenPrev(acc, from, early, d);
    var p := Prev(acc, d);
    assert forall x :: x in Since(acc, from, d) ==> x in Earlier(acc, d);
    if p.Some? && p.value >= from {
      assert Since(acc, from, d) == Since(acc, from, p.value) + {p.value};
      SumAdd(Since(acc, from, p.value), TxsOf(acc), p.value);
    } else if p.Some? {
      assert Since(acc, from, d) == {};
      assert Earlier(acc, from) == Earlier(acc, d);
    }
  }

  /** A rewrite chains every day from its first on to the days before, whatever the rows held. */
  lemma {:induction false} RewrittenChains(acc: Acc, from: int, early: int -> int)
    requires forall d :: d < from ==> ChainedAt(acc, d)
    ensures Chained(Rewritten(acc, from, early))
  {
    var r := Rewritten(acc, from, early);
    forall d ensures ChainedAt(r, d) {
      if d in acc && d < from {
        RewrittenPrev(acc, from, early, d);
        assert ChainedAt(acc, d);
      } else if d in acc {
        if Prev(acc, from).Some? {
          assert ChainedAt(acc, Prev(acc, from).value);
        }
        RewrittenLater(acc, from, early, d);
      }
    }
  }

  /**
   What a fold may be given: its new blocks are on the last aggregated day or later, and its recounts no later than
   they.
   */
  ghost predicate FoldRules(acc: Acc, added: map<int, int>, first: Option<int>, again: map<int, int>) {
    && (forall d, x :: d in added && x in acc ==> x <= d)
    && (forall d :: d in again ==> first.Some? && first.value <= d)
    && (first.Some? && added.Keys != {} ==> first.value <= Max(added.Keys))
  }

  lemma {:induction false} UntouchedBefore(acc: Acc, added: map<int, int>, first: Option<int>, again: map<int, int>,
                                           early: int -> int, d: int)
    requires Chained(acc) && FoldRules(acc, added, first, again) && RewriteFrom(first, added).Some?
    requires d < RewriteFrom(first, added).value
    ensures ChainedAt(Recounted(Filled(WithTxs(acc, added), early), again), d)
  {
    var from := RewriteFrom(first, added).value;
    var staged := Recounted(Filled(WithTxs(acc, added), early), again);
    assert forall x :: x in added ==> from <= x by {
      if added.Keys != {} && Min(added.Keys) == Max(added.Keys) {
        assert forall x :: x in added ==> x == Max(added.Keys);
      }
    }
    forall x | x < from ensures (x in staged <==> x in acc) && (x in acc ==> staged[x] == acc[x]) {
      assert ChainedAt(acc, x);
    }
    assert ChainedAt(acc, d);
    assert Earlier(staged, d) == Earlier(acc, d);
  }

  lemma {:induction false} OneDayChains(acc: Acc, added: map<int, int>, early: int -> int, d: int)
    requires Chained(acc) && FoldRules(acc, added, None, map[]) && RewriteFrom(None, added).None?
    ensures ChainedAt(Filled(WithTxs(acc, added), early), d)
  {
    var more := WithTxs(acc, added);
    var r := Filled(more, early);
    assert ChainedAt(acc, d);
    assert forall x :: x in added ==> x == Min(added.Keys);
    assert forall x :: x in acc && x < d ==> x in more && more[x].before.Some? by {
      assert forall x :: x in acc ==> ChainedAt(acc, x);
    }
    if d in more {
      assert Earlier(r, d) == Earlier(acc, d);
      assert WithBefore(more, d) == Earlier(acc, d);
    }
  }

  /** After any fold, every aggregated day's count is the previous one's count and transactions together. */
  lemma {:induction false} FoldChains(acc: Acc, added: map<int, int>, first: Option<int>, again: map<int, int>,
                                      early: int -> int)
    requires Chained(acc) && FoldRules(acc, added, first, again)
    ensures Chained(Folded(acc, added, first, again, early))
  {
    var staged, from := Recounted(Filled(WithTxs(acc, added), early), again), RewriteFrom(first, added);
    if from.Some? {
      forall d | d < from.value ensures ChainedAt(staged, d) {
        UntouchedBefore(acc, added, first, again, early, d);
      }
      RewrittenChains(staged, from.value, early);
    } else {
      assert forall d :: d !in again;
      assert staged == Filled(WithTxs(acc, added), early);
      forall d ensures ChainedAt(staged, d) {
        OneDayChains(acc, added, early, d);
      }
    }
  }

  /**
   The statement alone gives the second of two new days the first one's count, without the first one's
   transactions.
   */
  lemma {:induction false} StatementAloneMissesADay(acc: Acc, d: int, e: int, x: int, y: int, early: int -> int)
    requires Chained(acc) && acc.Keys != {} && x != 0 && d < e && forall k :: k in acc ==> k < d
    ensures var r := Filled(WithTxs(acc, map[d := x, e := y]), early);
            r[d].before == r[e].before && !ChainedAt(r, e)
  {
    var more := WithTxs(acc, map[d := x, e := y]);
    assert forall k :: k in acc ==> ChainedAt(acc, k);
    var k := Pick(acc.Keys);
    TwoMissing(more, d, e, k, early);
  }

  lemma {:induction false} TwoMissing(acc: Acc, d: int, e: int, k: int, early: int -> int)
    requires d < e && d in acc && e in acc && acc[d].before.None? && acc[e].before.None? && acc[d].txs != 0
    requires k in acc && k < d
    requires forall x :: x in acc && x != d && x != e ==> x < d && acc[x].before.Some?
    ensures var r := Filled(acc, early); r[d].before == r[e].before && !ChainedAt(r, e)
  {
    var r := Filled(acc, early);
    assert WithBefore(acc, d) == WithBefore(acc, e);
    assert k in WithBefore(acc, d);
    assert r[d].before == r[e].before;
    assert forall x :: x in Earlier(r, e) ==> x <= d;
    assert d in Earlier(r, e);
  }

  /** A revert drops the last days, and the chain of the others stays. */
  lemma {:induction false} DroppingKeepsChain(acc: Acc, d: int)
    requires Chained(acc)
    ensures Chained(map x | x in acc && x < d :: acc[x])
  {
    var r: Acc := map x | x in acc && x < d :: acc[x];
    forall x ensures ChainedAt(r, x) {
      assert ChainedAt(acc, x);
      if x in r {
        assert Earlier(r, x) == Earlier(acc, x);
      }
    }
  }

  /** A chained day's count is the first day's count and the transactions of every aggregated day before it. */
  lemma {:induction false} ChainSums(acc: Acc, d: int)
    requires Chained(acc) && d in acc
    ensures var first := Min(acc.Keys);
            && acc[first].before.Some?
            && acc[d].before == Some(acc[first].before.value + Sum(Earlier(acc, d), TxsOf(acc)))
    decreases |Earlier(acc, d)|
  {
    assert ChainedAt(acc, d) && ChainedAt(acc, Min(acc.Keys));
    var p := Prev(acc, d);
    if p.None? {
      assert Min(acc.Keys) !in Earlier(acc, d);
    } else {
      assert Earlier(acc, d) == Earlier(acc, p.value) + {p.value};
      assert |Earlier(acc, p.value)| < |Earlier(acc, d)|;
      ChainSums(acc, p.value);
      SumAdd(Earlier(acc, p.value), TxsOf(acc), p.value);
    }
  }
}
