/**
 The counts of earlier transactions through every run of the daily aggregate: counts and their applies, locked folds,
 reverts and restarts.
 */
module DailyChain {
  import opened Sums
  import opened DailyFold
  import opened DailyAdvance
  import DailyRecount
  import R = DailyRun
  import B = DailyBefore

  // ---------- what a count gives the fold ----------

  /** The transactions of the blocks above the watermark, by day. */
  function AddedTxs(b: Chain, wm: int, upto: int): map<int, int> {
    var more := Above(b, wm, upto);
    map d | d in DaysOf(b, more) :: Total(b, OnDay(b, more, d), Paired(b)).txs
  }

  /** The transactions of the recounted days that have blocks. */
  function AgainTxs(b: Chain, upto: int, group: set<int>): map<int, int> {
    map d | d in DaysOf(b, OnDays(b, group, upto)) :: Total(b, Day(b, d, upto), Paired(b)).txs
  }

  /** The rows of the aggregate with their counts of earlier transactions. */
  ghost predicate Mirrors(acc: B.Acc, g: Agg) {
    acc.Keys == g.acc.Keys && forall d :: d in acc ==> acc[d].txs == g.acc[d].txs
  }

  /** Each aggregated day has a block the aggregate counts. */
  ghost predicate Backed(b: Chain, g: Agg) { forall d :: d in g.acc ==> OnDay(b, g.own, d) != {} }

  ghost function FoldedBy(b: Chain, acc: B.Acc, wm: int, upto: int, group: set<int>, early: int -> int): B.Acc {
    B.Folded(acc, AddedTxs(b, wm, upto), MinOf(group), AgainTxs(b, upto, group), early)
  }

  /** An aggregated day is no later than any block above the watermark. */
  lemma {:induction false} BackedIsEarlier(b: Chain, g: Agg, d: int, n: int)
    requires Ordered(b) && Exact(b, g) && Backed(b, g) && d in g.acc && n in b && n > g.wm
    ensures d <= b[n].day
  {
    var m := Min(OnDay(b, g.own, d));
    assert m in b && m < n;
  }

  /** The new blocks are the first and the last of their days: what firstOfSeveralDays reads. */
  lemma {:induction false} SpannedDays(b: Chain, wm: int, upto: int)
    requires Ordered(b) && Contiguous(b, wm, upto) && wm < upto
    ensures var days := AddedTxs(b, wm, upto).Keys;
            days != {} && Min(days) == b[wm + 1].day && Max(days) == b[upto].day
  {
    var more := Above(b, wm, upto);
    var days := DaysOf(b, more);
    assert AddedTxs(b, wm, upto).Keys == days;
    assert wm + 1 in more && upto in more;
    assert b[wm + 1].day in days && b[upto].day in days;
    forall d | d in days ensures b[wm + 1].day <= d <= b[upto].day {
      DayBetween(b, wm, upto, d);
    }
  }

  lemma {:induction false} DayBetween(b: Chain, wm: int, upto: int, d: int)
    requires Ordered(b) && wm + 1 in b && upto in b && d in DaysOf(b, Above(b, wm, upto))
    ensures b[wm + 1].day <= d <= b[upto].day
  {
    var n :| n in Above(b, wm, upto) && n in b && b[n].day == d;
    assert n == wm + 1 || wm + 1 < n;
    assert n == upto || n < upto;
  }

  lemma {:induction false} AddedIsLater(b: Chain, g: Agg, upto: int, d: int, x: int)
    requires Ordered(b) && Exact(b, g) && Backed(b, g) && d in DaysOf(b, Above(b, g.wm, upto)) && x in g.acc
    ensures x <= d
  {
    var n :| n in Above(b, g.wm, upto) && n in b && b[n].day == d;
    BackedIsEarlier(b, g, x, n);
  }

  /** A recount starts on a day with stored blocks, so no later than the last new one. */
  lemma {:induction false} FirstNotLast(b: Chain, wm: int, upto: int, group: set<int>)
    requires Ordered(b) && Contiguous(b, wm, upto) && group != {} && DailyRecount.StartsStored(b, upto, group)
    requires wm < upto
    ensures AddedTxs(b, wm, upto).Keys != {} && Min(group) <= Max(AddedTxs(b, wm, upto).Keys)
  {
    SpannedDays(b, wm, upto);
    var m := Min(Day(b, Min(group), upto));
    assert m in b && (m == upto || m < upto);
  }

  /** What a count returns is what the chain of earlier transactions asks of a fold. */
  lemma {:induction false} CountMeetsRules(b: Chain, g: Agg, acc: B.Acc, upto: int, group: set<int>)
    requires Ordered(b) && Exact(b, g) && Backed(b, g) && Mirrors(acc, g) && Contiguous(b, g.wm, upto)
    requires DailyRecount.StartsStored(b, upto, group)
    ensures B.FoldRules(acc, AddedTxs(b, g.wm, upto), MinOf(group), AgainTxs(b, upto, group))
  {
    var added, first, again := AddedTxs(b, g.wm, upto), MinOf(group), AgainTxs(b, upto, group);
    assert added.Keys == DaysOf(b, Above(b, g.wm, upto));
    forall d, x | d in added && x in acc ensures x <= d {
      AddedIsLater(b, g, upto, d, x);
    }
    assert forall d :: d in again ==> d in group;
    if upto == g.wm {
      assert Above(b, g.wm, upto) == {} && added.Keys == {};
    } else if group != {} {
      FirstNotLast(b, g.wm, upto, group);
    }
  }

  // ---------- the rows follow the aggregate ----------

  lemma {:induction false} FoldMirrors(b: Chain, g: Agg, acc: B.Acc, upto: int, group: set<int>, early: int -> int)
    requires Mirrors(acc, g)
    ensures Mirrors(FoldedBy(b, acc, g.wm, upto, group, early), CountedAgg(b, g, upto, group))
  {
    var added, again := AddedTxs(b, g.wm, upto), AgainTxs(b, upto, group);
    var more := B.Filled(B.WithTxs(acc, added), early);
    AdvanceMirrors(b, g, acc, upto, early);
    var staged, g' := B.Recounted(more, again), CountedAgg(b, g, upto, group);
    assert Mirrors(staged, g') by {
      RecountMirrors(b, Advanced(b, g, upto), more, group);
    }
  }

  lemma {:induction false} AdvanceMirrors(b: Chain, g: Agg, acc: B.Acc, upto: int, early: int -> int)
    requires Mirrors(acc, g)
    ensures Mirrors(B.Filled(B.WithTxs(acc, AddedTxs(b, g.wm, upto)), early), Advanced(b, g, upto))
  {
    var more, g' := B.WithTxs(acc, AddedTxs(b, g.wm, upto)), Advanced(b, g, upto);
    assert more.Keys == g'.acc.Keys;
    forall d | d in more ensures more[d].txs == g'.acc[d].txs {
      AddedDay(b, g, upto, d);
      WithTxsAt(acc, AddedTxs(b, g.wm, upto), d);
    }
    FilledMirrors(more, g', early);
  }

  lemma {:induction false} WithTxsAt(acc: B.Acc, added: map<int, int>, d: int)
    requires d in acc || d in added
    ensures B.WithTxs(acc, added)[d].txs == (if d in acc then acc[d].txs else 0) + (if d in added then added[d] else 0)
  {
  }

  lemma {:induction false} FilledMirrors(acc: B.Acc, g: Agg, early: int -> int)
    requires Mirrors(acc, g)
    ensures Mirrors(B.Filled(acc, early), g)
  {
  }

  lemma {:induction false} AddedDay(b: Chain, g: Agg, upto: int, d: int)
    requires d in Advanced(b, g, upto).acc
    ensures var added := AddedTxs(b, g.wm, upto);
            Advanced(b, g, upto).acc[d].txs ==
            (if d in g.acc then g.acc[d].txs else 0) + (if d in added then added[d] else 0)
  {
    var more := Above(b, g.wm, upto);
    if d !in DaysOf(b, more) {
      assert OnDay(b, more, d) == {};
    }
  }

  lemma {:induction false} RecountMirrors(b: Chain, g: Agg, acc: B.Acc, group: set<int>)
    requires Mirrors(acc, g)
    ensures Mirrors(B.Recounted(acc, AgainTxs(b, g.wm, group)), Recounted(b, g, group))
  {
    var again := OnDays(b, group, g.wm);
    assert forall d :: d in DaysOf(b, again) ==> d in group;
    assert B.Recounted(acc, AgainTxs(b, g.wm, group)).Keys == Recounted(b, g, group).acc.Keys;
  }

  lemma {:induction false} FoldBacked(b: Chain, g: Agg, upto: int, group: set<int>)
    requires Exact(b, g) && Backed(b, g)
    ensures Backed(b, CountedAgg(b, g, upto, group))
  {
    var g1, g2 := Advanced(b, g, upto), CountedAgg(b, g, upto, group);
    forall d | d in g2.acc ensures OnDay(b, g2.own, d) != {} {
      if d in g.acc {
        var n := Min(OnDay(b, g.own, d));
        assert n in OnDay(b, g2.own, d);
      } else if d in g1.acc {
        var n :| n in Above(b, g.wm, upto) && n in b && b[n].day == d;
        assert n in OnDay(b, g2.own, d);
      } else {
        var n :| n in OnDays(b, group, upto) && n in b && b[n].day == d;
        assert n in OnDay(b, g2.own, d);
      }
    }
  }

  // ---------- every run ----------

  /** The run of the aggregate with its counts of earlier transactions, live and staged. */
  datatype Counted = Counted(w: World, acc: B.Acc, staged: B.Acc)

  /** early is what a statement reads for a first day: the count of every transaction before it. */
  datatype Move = Move(step: R.Step, early: int -> int)

  ghost predicate Can(c: Counted, m: Move) {
    R.Enabled(c.w, m.step) && (m.step.Count? ==> DailyRecount.StartsStored(c.w.blocks, m.step.upto, m.step.group))
  }

  ghost function Next(c: Counted, m: Move): Counted
    requires Can(c, m)
  {
    var w := c.w;
    var w' := R.Apply(w, m.step);
    match m.step
    case Revert(n) =>
      if n in w.blocks && n <= w.agg.wm then Counted(w', DaysDropped(c.acc, w.blocks[n].day), c.staged)
          else Counted(w', c.acc, c.staged)
    case Count(upto, group, _, _) => Counted(w', c.acc, FoldedBy(w.blocks, c.acc, w.agg.wm, upto, group, m.early))
    case ApplyFold => Counted(w', if w.generation == w.staged.value.generation then c.staged else c.acc, c.staged)
    case Locked(upto) => Counted(w', FoldedBy(w.blocks, c.acc, w.agg.wm, upto, {}, m.early), c.staged)
    case _ => Counted(w', c.acc, c.staged)
  }

  function DaysDropped(acc: B.Acc, d: int): B.Acc { map x | x in acc && x < d :: acc[x] }

  ghost predicate Follows(b: Chain, g: Agg, acc: B.Acc) { Backed(b, g) && Mirrors(acc, g) && B.Chained(acc) }

  ghost predicate ChainInv(c: Counted) {
    && Inv(c.w) && Follows(c.w.blocks, c.w.agg, c.acc)
    && (c.w.staged.Some? && c.w.staged.value.generation == c.w.generation ==>
          Follows(c.w.blocks, c.w.staged.value.agg, c.staged))
  }

  lemma {:induction false} FoldFollows(b: Chain, g: Agg, acc: B.Acc, upto: int, group: set<int>, early: int -> int)
    requires Ordered(b) && Exact(b, g) && Follows(b, g, acc) && Contiguous(b, g.wm, upto)
    requires DailyRecount.StartsStored(b, upto, group)
    ensures Follows(b, CountedAgg(b, g, upto, group), FoldedBy(b, acc, g.wm, upto, group, early))
  {
    CountMeetsRules(b, g, acc, upto, group);
    B.FoldChains(acc, AddedTxs(b, g.wm, upto), MinOf(group), AgainTxs(b, upto, group), early);
    FoldMirrors(b, g, acc, upto, group, early);
    FoldBacked(b, g, upto, group);
  }

  /** The days a revert keeps, and the blocks it keeps of them. */
  lemma {:induction false} RevertKeepsDays(w: World, n: int)
    requires Sound(w)
    ensures var g' := Reverted(w, n).agg;
            var dropped := n in w.blocks && n <= w.agg.wm;
            && g'.acc == (if dropped then map d | d in w.agg.acc && d < w.blocks[n].day :: w.agg.acc[d] else w.agg.acc)
            && forall m :: m in w.agg.own && (dropped ==> w.blocks[m].day < w.blocks[n].day) ==> m in g'.own
  {
  }

  lemma {:induction false} RevertBacked(w: World, n: int)
    requires Sound(w) && Backed(w.blocks, w.agg)
    ensures Backed(w.blocks - {n}, Reverted(w, n).agg)
  {
    RevertKeepsDays(w, n);
    var b, g, g' := w.blocks, w.agg, Reverted(w, n).agg;
    forall d | d in g'.acc ensures OnDay(b - {n}, g'.own, d) != {} {
      StillBacked(b, b - {n}, g.own, g'.own, d);
    }
  }

  lemma {:induction false} StillBacked(b: Chain, b': Chain, own: set<int>, own': set<int>, d: int)
    requires OnDay(b, own, d) != {}
    requires forall m :: m in OnDay(b, own, d) ==> m in own' && m in b' && b'[m].day == d
    ensures OnDay(b', own', d) != {}
  {
    assert Min(OnDay(b, own, d)) in OnDay(b', own', d);
  }

  lemma {:induction false} RevertFollows(w: World, acc: B.Acc, n: int)
    requires Sound(w) && Follows(w.blocks, w.agg, acc)
    ensures var acc' := if n in w.blocks && n <= w.agg.wm then DaysDropped(acc, w.blocks[n].day) else acc;
            Follows(w.blocks - {n}, Reverted(w, n).agg, acc')
  {
    RevertBacked(w, n);
    RevertKeepsDays(w, n);
    if n in w.blocks && n <= w.agg.wm {
      B.DroppingKeepsChain(acc, w.blocks[n].day);
    }
  }

  lemma {:induction false} StoreFollows(b: Chain, g: Agg, acc: B.Acc, n: int, k: Block)
    requires Follows(b, g, acc) && n !in b
    ensures Follows(b[n := k], g, acc)
  {
    forall d | d in g.acc ensures OnDay(b[n := k], g.own, d) != {} {
      StillBacked(b, b[n := k], g.own, g.own, d);
    }
  }

  lemma {:induction false} StoreStep(c: Counted, m: Move)
    requires ChainInv(c) && Can(c, m) && m.step.StoreBlock?
    ensures ChainInv(Next(c, m))
  {
    var w := c.w;
    R.InvStep(w, m.step);
    StoreFollows(w.blocks, w.agg, c.acc, m.step.n, m.step.b);
    if w.staged.Some? && w.staged.value.generation == w.generation {
      StoreFollows(w.blocks, w.staged.value.agg, c.staged, m.step.n, m.step.b);
    }
  }

  lemma {:induction false} RevertStep(c: Counted, m: Move)
    requires ChainInv(c) && Can(c, m) && m.step.Revert?
    ensures ChainInv(Next(c, m))
  {
    R.InvStep(c.w, m.step);
    RevertFollows(c.w, c.acc, m.step.n);
  }

  lemma {:induction false} FoldStep(c: Counted, m: Move)
    requires ChainInv(c) && Can(c, m) && (m.step.Count? || m.step.Locked?)
    ensures ChainInv(Next(c, m))
  {
    var w, upto := c.w, m.step.upto;
    R.InvStep(w, m.step);
    FoldFollows(w.blocks, w.agg, c.acc, upto, if m.step.Count? then m.step.group else {}, m.early);
    if m.step.Locked? {
      R.RecountNone(w.blocks, Advanced(w.blocks, w.agg, upto));
    }
  }

  lemma {:induction false} ChainStep(c: Counted, m: Move)
    requires ChainInv(c) && Can(c, m)
    ensures ChainInv(Next(c, m))
  {
    match m.step
    case StoreBlock(_, _) => StoreStep(c, m);
    case Revert(_) => RevertStep(c, m);
    case Count(_, _, _, _) => FoldStep(c, m);
    case Locked(_) => FoldStep(c, m);
    case _ => R.InvStep(c.w, m.step);
  }

  ghost predicate Feasible(c: Counted, moves: seq<Move>) decreases |moves| {
    moves == [] || (Can(c, moves[0]) && Feasible(Next(c, moves[0]), moves[1..]))
  }

  ghost function Run(c: Counted, moves: seq<Move>): Counted
    requires Feasible(c, moves)
    decreases |moves|
  {
    if moves == [] then c else Run(Next(c, moves[0]), moves[1..])
  }

  lemma {:induction false} InvRun(c: Counted, moves: seq<Move>)
    requires ChainInv(c) && Feasible(c, moves)
    ensures ChainInv(Run(c, moves))
    decreases |moves|
  {
    if moves != [] {
      ChainStep(c, moves[0]);
      InvRun(Next(c, moves[0]), moves[1..]);
    }
  }

  lemma {:induction false} AlwaysFollows(c: Counted, moves: seq<Move>)
    requires R.Fresh(c.w) && c.acc == map[] && Feasible(c, moves)
    ensures var c' := Run(c, moves); Inv(c'.w) && Mirrors(c'.acc, c'.w.agg) && B.Chained(c'.acc)
  {
    assert ChainInv(c);
    InvRun(c, moves);
  }

  /** In every run, each aggregated day's count is the previous one's count and transactions together. */
  lemma {:induction false} AlwaysChained(c: Counted, moves: seq<Move>)
    requires R.Fresh(c.w) && c.acc == map[] && Feasible(c, moves)
    ensures B.Chained(Run(c, moves).acc) && Mirrors(Run(c, moves).acc, Run(c, moves).w.agg)
  {
    AlwaysFollows(c, moves);
  }

  // ---------- what the counts are once no late day is left ----------

  lemma {:induction false} TotalTxs(b: Chain, s: set<int>, p: set<int>)
    ensures Total(b, s, p).txs == Sum(s, TxsIn(b))
    decreases |s|
  {
    if s != {} {
      var n := Min(s);
      SumExtract(s, TxsIn(b), n);
      TotalTxs(b, s - {n}, p);
    }
  }

  function DayTxs(b: Chain, wm: int): int -> int { d => Total(b, Day(b, d, wm), Paired(b)).txs }

  lemma {:induction false} DaysSum(b: Chain, wm: int, days: set<int>)
    ensures Sum(days, DayTxs(b, wm)) == Sum(OnDays(b, days, wm), TxsIn(b))
    decreases |days|
  {
    if days == {} {
      assert OnDays(b, days, wm) == {};
    } else {
      var d := Pick(days);
      var rest := days - {d};
      SumExtract(days, DayTxs(b, wm), d);
      DaysSum(b, wm, rest);
      OneMoreDay(b, wm, rest, d);
      assert rest + {d} == days;
    }
  }

  lemma {:induction false} OneMoreDay(b: Chain, wm: int, rest: set<int>, d: int)
    requires d !in rest
    ensures Sum(OnDays(b, rest + {d}, wm), TxsIn(b)) == Sum(OnDays(b, rest, wm), TxsIn(b)) + DayTxs(b, wm)(d)
  {
    var day, others := Day(b, d, wm), OnDays(b, rest, wm);
    assert OnDays(b, rest + {d}, wm) == others + day && others !! day;
    SumDisjoint(others, day, TxsIn(b));
    TotalTxs(b, day, Paired(b));
  }

  /** The stored blocks up to the watermark on days before d. */
  function BlocksBefore(w: World, d: int): set<int> {
    set n | n in w.blocks && n <= w.agg.wm && w.blocks[n].day < d
  }

  lemma {:induction false} QuietEarlier(w: World, acc: B.Acc, d: int)
    requires Inv(w) && R.Quiet(w) && Mirrors(acc, w.agg)
    ensures Sum(B.Earlier(acc, d), B.TxsOf(acc)) == Sum(BlocksBefore(w, d), TxsIn(w.blocks))
  {
    R.QuietIsExact(w);
    var days := B.Earlier(acc, d);
    SumCong(days, B.TxsOf(acc), DayTxs(w.blocks, w.agg.wm));
    DaysSum(w.blocks, w.agg.wm, days);
    assert OnDays(w.blocks, days, w.agg.wm) == BlocksBefore(w, d);
  }

  /**
   Once no late day is left, the transactions before an aggregated day are those before the first one and those of every
   stored block between, each counted once, whatever order the blocks came in.
   */
  lemma {:induction false} QuietCounts(c: Counted, moves: seq<Move>, d: int)
    requires R.Fresh(c.w) && c.acc == map[] && Feasible(c, moves) && R.Quiet(Run(c, moves).w) && d in Run(c, moves).acc
    ensures CountsBefore(Run(c, moves), d)
  {
    AlwaysFollows(c, moves);
    QuietEarlier(Run(c, moves).w, Run(c, moves).acc, d);
    CountsAt(Run(c, moves), d);
  }

  /** The count at d is the first one and the transactions of the blocks between. */
  ghost predicate CountsBefore(c: Counted, d: int)
    requires d in c.acc
  {
    var first := c.acc[Min(c.acc.Keys)].before;
    first.Some? && c.acc[d].before == Some(first.value + Sum(BlocksBefore(c.w, d), TxsIn(c.w.blocks)))
  }

  lemma {:induction false} CountsAt(c: Counted, d: int)
    requires B.Chained(c.acc) && d in c.acc
    requires Sum(B.Earlier(c.acc, d), B.TxsOf(c.acc)) == Sum(BlocksBefore(c.w, d), TxsIn(c.w.blocks))
    ensures CountsBefore(c, d)
  {
    ChainFrom(c.acc, d, Sum(BlocksBefore(c.w, d), TxsIn(c.w.blocks)));
  }

  lemma {:induction false} ChainFrom(acc: B.Acc, d: int, total: int)
    requires B.Chained(acc) && d in acc && Sum(B.Earlier(acc, d), B.TxsOf(acc)) == total
    ensures var first := acc[Min(acc.Keys)].before; first.Some? && acc[d].before == Some(first.value + total)
  {
    B.ChainSums(acc, d);
  }
}
