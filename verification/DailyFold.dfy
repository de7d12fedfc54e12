/**
 The daily aggregates: blocks stored in any order, a fold that counts without the lock and applies only if no writer of
 the daily tables came between, and late days recounted, so that each stored block counts once.
 */
module DailyFold {
  import opened Sums

  datatype Block = Block(day: int, time: int, gas: int, txs: int)

  type Chain = map<int, Block>

  /** A day's sums; pairs and time are over its blocks whose predecessor is stored. */
  datatype Row = Row(blocks: int, gas: int, txs: int, pairs: int, time: int)

  const ZERO := Row(0, 0, 0, 0, 0)

  function Plus(a: Row, b: Row): Row {
    Row(a.blocks + b.blocks, a.gas + b.gas, a.txs + b.txs, a.pairs + b.pairs, a.time + b.time)
  }

  /** What one block adds to its day, with the block time when paired says so. */
  function Counted(b: Chain, n: int, paired: bool): Row {
    if n !in b then ZERO
    else if paired && n - 1 in b then Row(1, b[n].gas, b[n].txs, 1, b[n].time - b[n - 1].time)
    else Row(1, b[n].gas, b[n].txs, 0, 0)
  }

  function RowSum(s: set<int>, f: int -> Row): Row
    decreases |s|
  {
    if s == {} then ZERO else
      var n := Min(s);
      Plus(f(n), RowSum(s - {n}, f))
  }

  lemma {:induction false} RowSumExtract(s: set<int>, f: int -> Row, n: int)
    requires n in s
    ensures RowSum(s, f) == Plus(f(n), RowSum(s - {n}, f))
    decreases |s|
  {
    var m := Min(s);
    if n != m {
      var rest := s - {m} - {n};
      assert s - {n} - {m} == rest;
      RowSumExtract(s - {m}, f, n);
      assert m in s - {n};
      RowSumExtract(s - {n}, f, m);
    }
  }

  lemma {:induction false} RowSumUnion(s: set<int>, t: set<int>, f: int -> Row)
    requires s !! t
    ensures RowSum(s + t, f) == Plus(RowSum(s, f), RowSum(t, f))
    decreases |s|
  {
    if s == {} {
      assert s + t == t;
      assert Plus(ZERO, RowSum(t, f)) == RowSum(t, f);
    } else {
      var n := Min(s);
      RowSumExtract(s + t, f, n);
      assert s + t - {n} == (s - {n}) + t;
      RowSumUnion(s - {n}, t, f);
    }
  }

  lemma {:induction false} RowSumCong(s: set<int>, f: int -> Row, g: int -> Row)
    requires forall n :: n in s ==> f(n) == g(n)
    ensures RowSum(s, f) == RowSum(s, g)
    decreases |s|
  {
    if s != {} {
      RowSumCong(s - {Min(s)}, f, g);
    }
  }

  function Counts(b: Chain, p: set<int>): int -> Row { n => Counted(b, n, n in p) }

  function Total(b: Chain, s: set<int>, p: set<int>): Row { RowSum(s, Counts(b, p)) }

  ghost predicate SameCounts(b: Chain, p: set<int>, b': Chain, p': set<int>, s: set<int>) {
    forall n :: n in s ==> Counted(b, n, n in p) == Counted(b', n, n in p')
  }

  lemma {:induction false} TotalUnion(b: Chain, s: set<int>, t: set<int>, p: set<int>)
    requires s !! t
    ensures Total(b, s + t, p) == Plus(Total(b, s, p), Total(b, t, p))
  {
    RowSumUnion(s, t, Counts(b, p));
  }

  lemma {:induction false} TotalCong(b: Chain, b': Chain, s: set<int>, p: set<int>, p': set<int>)
    requires SameCounts(b, p, b', p', s)
    ensures Total(b, s, p) == Total(b', s, p')
  {
    RowSumCong(s, Counts(b, p), Counts(b', p'));
  }

  function GasIn(b: Chain): int -> int { n => if n in b then b[n].gas else 0 }

  function TxsIn(b: Chain): int -> int { n => if n in b then b[n].txs else 0 }

  function TimeIn(b: Chain): int -> int { n => if n in b && n - 1 in b then b[n].time - b[n - 1].time else 0 }

  /** The sums of a set of blocks, each over the blocks that add to it; p are those whose block time counts. */
  ghost function SumsOf(b: Chain, s: set<int>, p: set<int>): Row {
    Row(|s|, Sum(s, GasIn(b)), Sum(s, TxsIn(b)), |s * p|, Sum(s * p, TimeIn(b)))
  }

  lemma {:induction false} LessPairs(s: set<int>, p: set<int>, n: int, f: int -> int)
    requires n in s
    ensures var pairs, rest := s * p, (s - {n}) * p;
            && |pairs| == |rest| + (if n in p then 1 else 0)
            && Sum(pairs, f) == Sum(rest, f) + (if n in p then f(n) else 0)
  {
    var pairs := s * p;
    assert (s - {n}) * p == pairs - {n};
    if n in p {
      SumExtract(pairs, f, n);
    } else {
      assert pairs - {n} == pairs;
    }
  }

  lemma {:induction false} SumLess(s: set<int>, f: int -> int, n: int, x: int)
    requires n in s && f(n) == x
    ensures Sum(s, f) == x + Sum(s - {n}, f)
  {
    SumExtract(s, f, n);
  }

  lemma {:induction false} SumsOfLess(b: Chain, s: set<int>, p: set<int>, n: int)
    requires n in s && n in b && (n in p ==> n - 1 in b)
    ensures var r, less, one := SumsOf(b, s, p), SumsOf(b, s - {n}, p), Counted(b, n, n in p);
            && r.blocks == one.blocks + less.blocks && r.gas == one.gas + less.gas && r.txs == one.txs + less.txs
            && r.pairs == one.pairs + less.pairs && r.time == one.time + less.time
  {
    SumLess(s, GasIn(b), n, b[n].gas);
    SumLess(s, TxsIn(b), n, b[n].txs);
    LessPairs(s, p, n, TimeIn(b));
  }

  lemma {:induction false} TotalLess(b: Chain, s: set<int>, p: set<int>)
    requires s != {}
    ensures Total(b, s, p) == Plus(Counted(b, Min(s), Min(s) in p), Total(b, s - {Min(s)}, p))
  {
  }

  lemma {:induction false} SumsOfNone(b: Chain, p: set<int>)
    ensures SumsOf(b, {}, p) == ZERO
  {
    assert {} * p == {};
  }

  /** A row's sums are those of its blocks. */
  lemma {:induction false} TotalIs(b: Chain, s: set<int>, p: set<int>)
    requires forall n :: n in s ==> n in b && (n in p ==> n - 1 in b)
    ensures Total(b, s, p) == SumsOf(b, s, p)
    decreases |s|
  {
    if s == {} {
      SumsOfNone(b, p);
    } else {
      var n := Min(s);
      TotalLess(b, s, p);
      TotalIs(b, s - {n}, p);
      AddsUp(SumsOf(b, s, p), Counted(b, n, n in p), SumsOf(b, s - {n}, p)) by {
        SumsOfLess(b, s, p, n);
      }
    }
  }

  lemma {:induction false} AddsUp(r: Row, one: Row, less: Row)
    requires r.blocks == one.blocks + less.blocks && r.gas == one.gas + less.gas && r.txs == one.txs + less.txs
    requires r.pairs == one.pairs + less.pairs && r.time == one.time + less.time
    ensures r == Plus(one, less)
  {
  }

  // ---------- the stored blocks ----------

  ghost predicate Ordered(b: Chain) { forall m, n :: m in b && n in b && m < n ==> b[m].day <= b[n].day }

  predicate HasBefore(b: Chain, n: int) { n - 1 in b }

  function Paired(b: Chain): set<int> { set n | n in b && HasBefore(b, n) }

  function Day(b: Chain, d: int, w: int): set<int> { set n | n in b && n <= w && b[n].day == d }

  function OnDay(b: Chain, s: set<int>, d: int): set<int> { set n | n in s && n in b && b[n].day == d }

  function Above(b: Chain, wm: int, upto: int): set<int> { set n | n in b && wm < n <= upto }

  function OnDays(b: Chain, days: set<int>, upto: int): set<int> { set n | n in b && n <= upto && b[n].day in days }

  // ---------- the aggregate ----------

  /** own are the blocks the aggregate counts and paired those whose block time it counts; no code reads them. */
  datatype Agg = Agg(acc: map<int, Row>, own: set<int>, paired: set<int>, wm: int)

  ghost predicate Exact(b: Chain, g: Agg) {
    && (forall n :: n in g.own ==> n in b && n <= g.wm && b[n].day in g.acc)
    && (forall n :: n in g.paired ==> n in g.own && HasBefore(b, n))
    && (forall d :: d in g.acc ==> g.acc[d] == Total(b, OnDay(b, g.own, d), g.paired))
  }

  /** What daily_stats_advance adds: the sums of the blocks above the watermark, each to its day. */
  function Advanced(b: Chain, g: Agg, upto: int): Agg {
    var more := Above(b, g.wm, upto);
    Agg(map d | d in g.acc.Keys + DaysOf(b, more) ::
          Plus(if d in g.acc then g.acc[d] else ZERO, Total(b, OnDay(b, more, d), Paired(b))),
        g.own + more, g.paired + (more * Paired(b)), upto)
  }

  function DaysOf(b: Chain, s: set<int>): set<int> { set n | n in s && n in b :: b[n].day }

  /** Each given day that has blocks counted anew from them. */
  function Recounted(b: Chain, g: Agg, days: set<int>): Agg {
    var again := OnDays(b, days, g.wm);
    Agg(map d | d in g.acc.Keys + DaysOf(b, again) ::
          if d in days && d in DaysOf(b, again) then Total(b, Day(b, d, g.wm), Paired(b))
              else if d in g.acc then g.acc[d] else ZERO,
        g.own + again, g.paired + (again * Paired(b)), g.wm)
  }

  lemma {:induction false} AdvancedDay(b: Chain, g: Agg, upto: int, d: int)
    requires Exact(b, g) && upto >= g.wm && d in Advanced(b, g, upto).acc
    ensures var g' := Advanced(b, g, upto); g'.acc[d] == Total(b, OnDay(b, g'.own, d), g'.paired)
  {
    var g', more := Advanced(b, g, upto), Above(b, g.wm, upto);
    var old', new' := OnDay(b, g.own, d), OnDay(b, more, d);
    AdvancedOwn(b, g, upto, d);
    TotalUnion(b, old', new', g'.paired);
    AdvancedOld(b, g, upto, d);
    AdvancedNew(b, g, upto, d);
    DayBefore(b, g, d);
    AdvancedRow(b, g, upto, d);
  }

  /** A day without a row has no counted block. */
  lemma {:induction false} DayBefore(b: Chain, g: Agg, d: int)
    requires Exact(b, g)
    ensures Total(b, OnDay(b, g.own, d), g.paired) == if d in g.acc then g.acc[d] else ZERO
  {
    if d !in g.acc {
      assert forall n :: n in g.own ==> b[n].day in g.acc;
      assert OnDay(b, g.own, d) == {};
    }
  }

  lemma {:induction false} AdvancedRow(b: Chain, g: Agg, upto: int, d: int)
    requires d in Advanced(b, g, upto).acc
    ensures Advanced(b, g, upto).acc[d] ==
            Plus(if d in g.acc then g.acc[d] else ZERO, Total(b, OnDay(b, Above(b, g.wm, upto), d), Paired(b)))
  {
  }

  lemma {:induction false} AdvancedOwn(b: Chain, g: Agg, upto: int, d: int)
    requires Exact(b, g)
    ensures var old', new' := OnDay(b, g.own, d), OnDay(b, Above(b, g.wm, upto), d);
            OnDay(b, Advanced(b, g, upto).own, d) == old' + new' && old' !! new'
  {
  }

  /** The blocks counted before keep what they counted, and the new ones count with every pair stored. */
  lemma {:induction false} AdvancedOld(b: Chain, g: Agg, upto: int, d: int)
    requires Exact(b, g)
    ensures Total(b, OnDay(b, g.own, d), Advanced(b, g, upto).paired) == Total(b, OnDay(b, g.own, d), g.paired)
  {
    TotalCong(b, b, OnDay(b, g.own, d), Advanced(b, g, upto).paired, g.paired);
  }

  lemma {:induction false} AdvancedNew(b: Chain, g: Agg, upto: int, d: int)
    requires Exact(b, g)
    ensures var new' := OnDay(b, Above(b, g.wm, upto), d);
            Total(b, new', Advanced(b, g, upto).paired) == Total(b, new', Paired(b))
  {
    var new' := OnDay(b, Above(b, g.wm, upto), d);
    TotalCong(b, b, new', Advanced(b, g, upto).paired, Paired(b));
  }

  lemma {:induction false} AdvancedExact(b: Chain, g: Agg, upto: int)
    requires Exact(b, g) && upto >= g.wm
    ensures Exact(b, Advanced(b, g, upto))
  {
    var g' := Advanced(b, g, upto);
    forall d | d in g'.acc ensures g'.acc[d] == Total(b, OnDay(b, g'.own, d), g'.paired) {
      AdvancedDay(b, g, upto, d);
    }
  }

  lemma {:induction false} RecountedBlocks(b: Chain, g: Agg, days: set<int>, d: int)
    requires Exact(b, g)
    ensures OnDay(b, Recounted(b, g, days).own, d) == if d in days then Day(b, d, g.wm) else OnDay(b, g.own, d)
  {
  }

  lemma {:induction false} RecountedDay(b: Chain, g: Agg, days: set<int>, d: int)
    requires Exact(b, g) && d in Recounted(b, g, days).acc
    ensures var g' := Recounted(b, g, days); g'.acc[d] == Total(b, OnDay(b, g'.own, d), g'.paired)
  {
    RecountedBlocks(b, g, days, d);
    var g' := Recounted(b, g, days);
    if d in days {
      TotalCong(b, b, Day(b, d, g.wm), Paired(b), g'.paired);
    } else {
      TotalCong(b, b, OnDay(b, g.own, d), g.paired, g'.paired);
      assert d in g.acc;
    }
  }

  lemma {:induction false} RecountedExact(b: Chain, g: Agg, days: set<int>)
    requires Exact(b, g)
    ensures Exact(b, Recounted(b, g, days))
  {
    var g' := Recounted(b, g, days);
    forall d | d in g'.acc ensures g'.acc[d] == Total(b, OnDay(b, g'.own, d), g'.paired) {
      RecountedDay(b, g, days, d);
    }
  }
}
