/**
 The advance as it runs beside block writes and reverts: late days, off-lock counts, applies, refusals and restarts.
 */
module DailyAdvance {
  import opened Sums
  import opened DailyFold

  /**
   What an advance holds: the days it took, those still to recount, those found incomplete, and the watermark it will
   report.
   */
  datatype Held = Held(all: set<int>, todo: set<int>, pending: set<int>, upto: Option<int>)

  /** A counted fold: the aggregate it staged, the days it leaves for later, and what its apply requires unchanged. */
  datatype Staged = Staged(generation: int, agg: Agg, todo: set<int>, pending: set<int>)

  /**
   notedTo is the watermark the last advance returned, days the late days noted since, unnoted the blocks committed and
   not yet noted, and searched whether the stored blocks were searched for late days since the start.
   */
  datatype World = World(blocks: Chain, agg: Agg, generation: int, notedTo: Option<int>, days: set<int>,
                         unnoted: set<int>, searched: bool, held: Option<Held>, staged: Option<Staged>)

  // ---------- what is known to be missing ----------

  function Late(w: World): set<int> { w.days + if w.held.Some? then w.held.value.todo + w.held.value.pending else {} }

  ghost predicate Noted(w: World, n: int) {
    && n in w.blocks
    && (w.blocks[n].day in Late(w) || (n in w.unnoted && (w.notedTo.None? || n <= w.notedTo.value)))
  }

  /** A stored block the aggregate misses is on a late day; so is one of a pair whose block time it misses. */
  ghost predicate Explained(w: World, n: int) {
    n in w.blocks && n <= w.agg.wm ==>
      && (n !in w.agg.own ==> Noted(w, n))
      && (HasBefore(w.blocks, n) && n !in w.agg.paired ==> Noted(w, n) || Noted(w, n - 1))
  }

  ghost predicate Reached(w: World) {
    w.notedTo.Some? ==> forall n :: w.notedTo.value < n <= w.agg.wm ==> n in w.blocks
  }

  ghost predicate Sound(w: World) {
    && Ordered(w.blocks) && Exact(w.blocks, w.agg) && Reached(w)
    && (w.searched ==> forall n :: Explained(w, n))
  }

  /** The world as it will be if the staged fold is applied. */
  function Shadow(w: World): World
    requires w.staged.Some? && w.held.Some?
  {
    w.(agg := w.staged.value.agg,
       held := Some(w.held.value.(todo := w.staged.value.todo,
                                  pending := w.held.value.pending + w.staged.value.pending)))
  }

  ghost predicate Holding(w: World) {
    && (w.held.Some? ==> w.held.value.todo + w.held.value.pending <= w.held.value.all
                         && (w.held.value.upto.Some? ==> w.agg.wm <= w.held.value.upto.value))
    && (w.staged.Some? ==> w.held.Some? && w.held.value.upto.Some? && w.staged.value.generation <= w.generation
                           && w.staged.value.todo + w.staged.value.pending <= w.held.value.all)
  }

  ghost predicate Inv(w: World) {
    && Sound(w) && Holding(w)
    && (w.staged.Some? && w.staged.value.generation == w.generation ==> Sound(Shadow(w)))
  }

  // ---------- block writes ----------

  predicate IsLate(notedTo: Option<int>, n: int) { notedTo.None? || n <= notedTo.value }

  function Committed(w: World, n: int, b: Block): World { w.(blocks := w.blocks[n := b], unnoted := w.unnoted + {n}) }

  /** noteBlock: a block above the watermark the last advance returned is left to the advance itself. */
  function NoteBlock(w: World, n: int): World {
    w.(unnoted := w.unnoted - {n},
       days := if n in w.blocks && IsLate(w.notedTo, n) then w.days + {w.blocks[n].day} else w.days)
  }

  lemma {:induction false} CommitExact(b: Chain, g: Agg, n: int, k: Block)
    requires Exact(b, g) && n !in b
    ensures Exact(b[n := k], g)
  {
    var b' := b[n := k];
    forall d | d in g.acc ensures g.acc[d] == Total(b', OnDay(b', g.own, d), g.paired) {
      assert OnDay(b', g.own, d) == OnDay(b, g.own, d);
      TotalCong(b, b', OnDay(b, g.own, d), g.paired, g.paired);
    }
  }

  lemma {:induction false} CommitSound(w: World, n: int, k: Block)
    requires Sound(w) && n !in w.blocks && Ordered(w.blocks[n := k])
    ensures Sound(Committed(w, n, k))
  {
    CommitExact(w.blocks, w.agg, n, k);
    var w' := Committed(w, n, k);
    if w.searched {
      forall m ensures Explained(w', m) {
        CommitExplains(w, n, k, m);
      }
    }
  }

  lemma {:induction false} CommitExplains(w: World, n: int, k: Block, m: int)
    requires Exact(w.blocks, w.agg) && Reached(w) && n !in w.blocks && Explained(w, m)
    ensures Explained(Committed(w, n, k), m)
  {
    var w' := Committed(w, n, k);
    assert n <= w.agg.wm ==> Noted(w', n);
    assert Noted(w, m) ==> Noted(w', m);
    assert Noted(w, m - 1) ==> Noted(w', m - 1);
  }

  lemma {:induction false} NoteSound(w: World, n: int)
    requires Sound(w)
    ensures Sound(NoteBlock(w, n))
  {
    var w' := NoteBlock(w, n);
    forall m | Noted(w, m) ensures Noted(w', m) {
    }
    if w.searched {
      forall m ensures Explained(w', m) {
        assert Explained(w, m);
      }
    }
  }

  // ---------- reverts ----------

  /**
   daily_stats_invalidate: the block's day and the later ones are to be aggregated again, from the day's first
   stored block.
   */
  function Invalidated(b: Chain, g: Agg, n: int): Agg {
    if n !in b || n > g.wm then g else
      var d := b[n].day;
      Agg(map x | x in g.acc && x < d ::
          g.acc[x], BeforeDay(b, g.own, d), BeforeDay(b, g.paired, d), Min(FromDay(b, n, d)) - 1)
  }

  function BeforeDay(b: Chain, s: set<int>, d: int): set<int> { set m | m in s && m in b && b[m].day < d }

  function FromDay(b: Chain, n: int, d: int): (r: set<int>)
    requires n in b && b[n].day == d
    ensures n in r
  {
    set m | m in b && b[m].day >= d
  }

  /** The watermark stays on a stored block: it goes down to the last one below it, if any day is aggregated. */
  function Lowered(b: Chain, g: Agg): Agg {
    var below, first := MaxOf(set m | m in b && m <= g.wm), MinOf(set m | m in g.own && m <= g.wm);
    if below.None? || first.None? then g else
      var target := if below.value > first.value - 1 then below.value else first.value - 1;
      if target < g.wm then g.(wm := target) else g
  }

  function Reverted(w: World, n: int): World {
    w.(agg := Lowered(w.blocks, Invalidated(w.blocks, w.agg, n)), generation := w.generation + 1,
       blocks := w.blocks - {n}, unnoted := w.unnoted - {n})
  }

  lemma {:induction false} InvalidatedExact(b: Chain, g: Agg, n: int)
    requires Exact(b, g) && Ordered(b) && n in b && n <= g.wm
    ensures var g' := Invalidated(b, g, n);
            && Exact(b, g') && g'.wm < n && g'.wm <= g.wm
            && forall m :: m in b && m <= g'.wm ==> (m in g.own <==> m in g'.own) && (m in g.paired <==> m in g'.paired)
  {
    var d, g' := b[n].day, Invalidated(b, g, n);
    var lo := Min(FromDay(b, n, d));
    assert forall m :: m in b && m > lo ==> b[lo].day <= b[m].day;
    forall m | m in b ensures m < lo <==> b[m].day < d {
      if b[m].day >= d {
        assert m in FromDay(b, n, d);
      }
    }
    forall x | x in g'.acc ensures g'.acc[x] == Total(b, OnDay(b, g'.own, x), g'.paired) {
      assert OnDay(b, g'.own, x) == OnDay(b, g.own, x);
      TotalCong(b, b, OnDay(b, g.own, x), g.paired, g'.paired);
    }
  }

  lemma {:induction false} LoweredExact(b: Chain, g: Agg)
    requires Exact(b, g)
    ensures Exact(b, Lowered(b, g)) && Lowered(b, g) == g.(wm := Lowered(b, g).wm) && Lowered(b, g).wm <= g.wm
  {
    var g' := Lowered(b, g);
    var stored := set m | m in b && m <= g.wm;
    forall m | m in g.own ensures m <= g'.wm {
      assert m in stored;
    }
    forall x | x in g'.acc ensures g'.acc[x] == Total(b, OnDay(b, g'.own, x), g'.paired) {
    }
  }

  lemma {:induction false} RemovedExact(b: Chain, g: Agg, n: int)
    requires Exact(b, g) && (n in b ==> n > g.wm)
    ensures Exact(b - {n}, g)
  {
    var b' := b - {n};
    forall d | d in g.acc ensures g.acc[d] == Total(b', OnDay(b', g.own, d), g.paired) {
      assert OnDay(b', g.own, d) == OnDay(b, g.own, d);
      TotalCong(b, b', OnDay(b, g.own, d), g.paired, g.paired);
    }
  }

  lemma {:induction false} RevertSound(w: World, n: int)
    requires Sound(w)
    ensures Sound(Reverted(w, n)) && Reverted(w, n).agg.wm <= w.agg.wm
  {
    var b, g, w' := w.blocks, w.agg, Reverted(w, n);
    var g1 := Invalidated(b, g, n);
    if n in b && n <= g.wm {
      InvalidatedExact(b, g, n);
    }
    LoweredExact(b, g1);
    var g2 := Lowered(b, g1);
    RemovedExact(b, g2, n);
    if w.searched {
      forall m ensures Explained(w', m) {
        RevertExplains(w, n, m);
      }
    }
  }

  /** A block above the watermark's that the revert of n leaves there: of n's day or later, or above it before. */
  predicate LeftAbove(w: World, n: int, m: int) {
    m > w.agg.wm || (n in w.blocks && n <= w.agg.wm && m in w.blocks && w.blocks[m].day >= w.blocks[n].day)
  }

  /**
   After a revert the stored blocks above the watermark are exactly those that were above it and, if n was counted,
   those of n's day and later; and while any block is counted the watermark is on a stored one.
   */
  lemma {:induction false} RevertWatermark(w: World, n: int)
    requires Sound(w)
    ensures var w' := Reverted(w, n);
            && (forall m :: m in w'.blocks ==> (m > w'.agg.wm <==> LeftAbove(w, n, m)))
            && (w'.agg.own != {} ==> w'.agg.wm in w'.blocks)
  {
    var b, g, w' := w.blocks, w.agg, Reverted(w, n);
    var g1 := Invalidated(b, g, n);
    if n in b && n <= g.wm {
      InvalidatedExact(b, g, n);
      InvalidatedAbove(b, g, n);
    }
    LoweredOntoStored(b, g1);
  }

  lemma {:induction false} InvalidatedAbove(b: Chain, g: Agg, n: int)
    requires Ordered(b) && n in b && n <= g.wm
    ensures forall m :: m in b ==> (m > Invalidated(b, g, n).wm <==> m > g.wm || b[m].day >= b[n].day)
  {
    var d := b[n].day;
    var lo := Min(FromDay(b, n, d));
    assert lo in FromDay(b, n, d) && lo <= n;
    forall m | m in b ensures m >= lo <==> m > g.wm || b[m].day >= d {
      if b[m].day >= d {
        assert m in FromDay(b, n, d);
      }
    }
  }

  lemma {:induction false} LoweredOntoStored(b: Chain, g: Agg)
    requires Exact(b, g)
    ensures forall m :: m in b ==> (m > Lowered(b, g).wm <==> m > g.wm)
    ensures g.own != {} ==> Lowered(b, g).wm in b
  {
    var stored := set m | m in b && m <= g.wm;
    var counted := set m | m in g.own && m <= g.wm;
    assert g.own == counted <= stored;
    assert forall m :: m in b && m <= g.wm ==> m in stored;
    if counted != {} {
      assert MaxOf(stored).value in stored && MinOf(counted).value in stored;
    }
  }

  lemma {:induction false} RevertExplains(w: World, n: int, m: int)
    requires Sound(w) && Explained(w, m)
    ensures Explained(Reverted(w, n), m)
  {
    var b, g, w' := w.blocks, w.agg, Reverted(w, n);
    var g1 := Invalidated(b, g, n);
    if n in b && n <= g.wm {
      InvalidatedExact(b, g, n);
    }
    LoweredExact(b, g1);
    assert Late(w') == Late(w);
    assert forall k :: k != n && Noted(w, k) ==> Noted(w', k);
  }

  // ---------- the search after a start ----------

  lemma {:induction false} CountsBlocks(b: Chain, s: set<int>, p: set<int>)
    requires forall n :: n in s ==> n in b
    requires forall n :: n in s && n in p ==> HasBefore(b, n)
    ensures Total(b, s, p).blocks == |s| && Total(b, s, p).pairs == |s * p|
    decreases |s|
  {
    if s != {} {
      var n := Min(s);
      CountsBlocks(b, s - {n}, p);
      assert (s - {n}) * p == (s * p) - {n};
    } else {
      assert s * p == {};
    }
  }

  /** A stored day the aggregate has no row for, or counts fewer blocks or block times of than are stored. */
  predicate Mismatched(b: Chain, g: Agg, d: int) {
    || d !in g.acc
    || g.acc[d].blocks != |Day(b, d, g.wm)|
    || g.acc[d].pairs != |Day(b, d, g.wm) * Paired(b)|
  }

  function Found(b: Chain, g: Agg): set<int> { set n | n in b && n <= g.wm && Mismatched(b, g, b[n].day) :: b[n].day }

  /** The search finds the day of every block the aggregate misses: equal counts of a subset are the whole set. */
  lemma {:induction false} SearchFinds(b: Chain, g: Agg, n: int)
    requires Exact(b, g) && n in b && n <= g.wm && (n !in g.own || (HasBefore(b, n) && n !in g.paired))
    ensures b[n].day in Found(b, g)
  {
    var d := b[n].day;
    if d in g.acc {
      var own, day := OnDay(b, g.own, d), Day(b, d, g.wm);
      CountsBlocks(b, own, g.paired);
      if n !in g.own {
        Fewer(own, day, n);
      } else {
        Fewer(own * g.paired, day * Paired(b), n);
      }
    }
  }

  lemma {:induction false} Fewer(s: set<int>, t: set<int>, n: int)
    requires s <= t && n in t && n !in s
    ensures |s| < |t|
  {
    assert t == s + (t - s) && n in t - s;
    assert |t| == |s| + |t - s|;
  }

  function Searched(w: World): World
    requires w.held.Some?
  {
    var found, h := Found(w.blocks, w.agg), w.held.value;
    w.(searched := true, held := Some(h.(all := h.all + found, todo := h.todo + found)))
  }

  lemma {:induction false} SearchSound(w: World)
    requires Sound(w) && w.held.Some?
    ensures Sound(Searched(w))
  {
    var w' := Searched(w);
    forall n ensures Explained(w', n) {
      if n in w.blocks && n <= w.agg.wm && (n !in w.agg.own || (HasBefore(w.blocks, n) && n !in w.agg.paired)) {
        SearchFinds(w.blocks, w.agg, n);
        assert w.blocks[n].day in w'.held.value.todo;
      }
    }
  }

  // ---------- the count ----------

  ghost predicate Contiguous(b: Chain, wm: int, upto: int) { wm <= upto && forall n :: wm < n <= upto ==> n in b }

  /** The days whose first block follows, up to the watermark, a block of day d. */
  ghost predicate CarriesInto(b: Chain, d: int, upto: int, next: int) {
    exists n :: n in b && HasBefore(b, n) && n <= upto && b[n - 1].day == d && b[n].day == next && next != d
  }

  /** A day the count was given is left for later, or is recounted with every day it carries into, or has no block. */
  ghost predicate Dealt(b: Chain, upto: int, group: set<int>, left: set<int>, d: int) {
    || d in left
    || Day(b, d, upto) == {}
    || (d in group && forall next :: CarriesInto(b, d, upto, next) ==> next in group)
  }

  function CountedAgg(b: Chain, g: Agg, upto: int, group: set<int>): Agg { Recounted(b, Advanced(b, g, upto), group) }

  ghost predicate CountRules(w: World, upto: int, group: set<int>, later: set<int>, pending: set<int>) {
    && w.held.Some? && w.staged.None? && Contiguous(w.blocks, w.agg.wm, upto)
    && later + pending <= w.held.value.todo
    && forall d :: d in w.held.value.todo ==> Dealt(w.blocks, upto, group, later + pending, d)
  }

  function Stage(w: World, upto: int, group: set<int>, later: set<int>, pending: set<int>): World
    requires w.held.Some?
  {
    w.(held := Some(w.held.value.(upto := Some(w.agg.wm))),
       staged := Some(Staged(w.generation, CountedAgg(w.blocks, w.agg, upto, group), later, pending)))
  }

  lemma {:induction false} LateStays(w: World, upto: int, group: set<int>, later: set<int>, pending: set<int>, n: int)
    requires CountRules(w, upto, group, later, pending) && n in w.blocks && n <= upto && Noted(w, n)
    requires w.blocks[n].day !in group
    ensures Noted(Shadow(Stage(w, upto, group, later, pending)), n)
  {
    var d, w' := w.blocks[n].day, Shadow(Stage(w, upto, group, later, pending));
    assert n in Day(w.blocks, d, upto);
    if d in w.held.value.todo {
      assert Dealt(w.blocks, upto, group, later + pending, d);
      assert d in later + pending;
      assert d in w'.held.value.todo + w'.held.value.pending;
    }
  }

  lemma {:induction false} PairStays(w: World, upto: int, group: set<int>, later: set<int>, pending: set<int>, n: int)
    requires CountRules(w, upto, group, later, pending) && n in w.blocks && HasBefore(w.blocks, n) && n <= upto
    requires Noted(w, n - 1) && w.blocks[n].day !in group
    ensures Noted(Shadow(Stage(w, upto, group, later, pending)), n - 1)
  {
    var d, w' := w.blocks[n - 1].day, Shadow(Stage(w, upto, group, later, pending));
    assert n - 1 in Day(w.blocks, d, upto);
    if d in w.held.value.todo {
      assert Dealt(w.blocks, upto, group, later + pending, d);
      if d != w.blocks[n].day {
        assert CarriesInto(w.blocks, d, upto, w.blocks[n].day);
      }
      assert d in later + pending;
      assert d in w'.held.value.todo + w'.held.value.pending;
    }
  }

  lemma {:induction false} CountExplains(w: World, upto: int, group: set<int>, later: set<int>, pending: set<int>,
                                         n: int)
    requires CountRules(w, upto, group, later, pending) && Explained(w, n)
    ensures Explained(Shadow(Stage(w, upto, group, later, pending)), n)
  {
    var b, w' := w.blocks, Shadow(Stage(w, upto, group, later, pending));
    if n in b && n <= upto && n !in w'.agg.own {
      LateStays(w, upto, group, later, pending, n);
    }
    if n in b && n <= upto && HasBefore(b, n) && n !in w'.agg.paired {
      assert n !in Above(b, w.agg.wm, upto) && b[n].day !in group;
      if Noted(w, n) {
        LateStays(w, upto, group, later, pending, n);
      } else {
        PairStays(w, upto, group, later, pending, n);
      }
    }
  }

  /** A fold counted by the rules would leave the world sound, were it applied at once. */
  lemma {:induction false} CountSound(w: World, upto: int, group: set<int>, later: set<int>, pending: set<int>)
    requires Sound(w) && CountRules(w, upto, group, later, pending)
    ensures Sound(Shadow(Stage(w, upto, group, later, pending)))
  {
    AdvancedExact(w.blocks, w.agg, upto);
    RecountedExact(w.blocks, Advanced(w.blocks, w.agg, upto), group);
    if w.searched {
      forall n ensures Explained(Shadow(Stage(w, upto, group, later, pending)), n) {
        CountExplains(w, upto, group, later, pending, n);
      }
    }
  }
}
