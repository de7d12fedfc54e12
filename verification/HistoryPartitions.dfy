/** The block ranges of the history tables: gaps above the watermark filled while retention prunes and drops ranges. */
module HistoryPartitions {
  import opened Sums
  import opened Division

  const MAX_PARTITIONS_PER_ENSURE := 32

  /** A range; lo is NULL for the legacy partition, and hi while it is unbounded. */
  datatype Part = Part(lo: Option<int>, hi: Option<int>)
  {
    predicate Holds(n: int) { (lo.Some? ==> lo.value <= n) && (hi.Some? ==> n < hi.value) }

    predicate Proper() { lo.Some? && hi.Some? ==> lo.value < hi.value }
  }

  /** pruned is the watermark: every block at or below it is gone on purpose, once it is above 0. */
  datatype State = State(parts: set<Part>, pruned: int)

  predicate Retained(s: State, n: int) { n >= 0 && (s.pruned > 0 ==> n > s.pruned) }

  /** The first retained block. */
  function From(s: State): (from: int)
    ensures forall n :: Retained(s, n) <==> n >= from
  {
    if s.pruned > 0 then s.pruned + 1 else 0
  }

  ghost predicate Disjoint(parts: set<Part>) {
    forall p, q, n :: p in parts && q in parts && p != q && p.Holds(n) ==> !q.Holds(n)
  }

  ghost predicate Inv(s: State) { Disjoint(s.parts) && forall p :: p in s.parts ==> p.Proper() }

  // ---------- creating a range ----------

  predicate Overlaps(p: Part, lo: int, hi: int) {
    (if p.lo.Some? then p.lo.value else lo) < hi && (if p.hi.Some? then p.hi.value else hi) > lo
  }

  predicate Fits(s: State, lo: int, hi: int) { lo >= From(s) && forall p :: p in s.parts ==> !Overlaps(p, lo, hi) }

  function Range(lo: int, hi: int): Part { Part(Some(lo), Some(hi)) }

  lemma {:induction false} OverlapMeans(p: Part, lo: int, hi: int)
    requires p.Proper() && lo < hi
    ensures Overlaps(p, lo, hi) <==> exists n :: lo <= n < hi && p.Holds(n)
  {
    if Overlaps(p, lo, hi) {
      var n := if p.lo.Some? && p.lo.value > lo then p.lo.value else lo;
      assert lo <= n < hi && p.Holds(n);
    }
  }

  /** A range is created only if it starts at or above the first retained block and overlaps none. */
  method CreateInGap(s: State, lo: int, hi: int) returns (s': State, created: bool)
    requires Inv(s) && lo < hi
    ensures Inv(s') && s'.pruned == s.pruned && created == Fits(s, lo, hi)
    ensures s'.parts == if created then s.parts + {Range(lo, hi)} else s.parts
  {
    created := lo >= From(s) && forall p :: p in s.parts ==> !Overlaps(p, lo, hi);
    s' := s;
    if created {
      forall p | p in s.parts ensures forall n :: lo <= n < hi ==> !p.Holds(n) {
        OverlapMeans(p, lo, hi);
      }
      s' := s.(parts := s.parts + {Range(lo, hi)});
    }
  }

  // ---------- finding the gaps ----------

  datatype Gap = Gap(lo: int, hi: int)

  /** The rows in order of lo, the legacy one first. */
  ghost predicate InOrder(rows: seq<Part>) {
    forall i, j :: 0 <= i < j < |rows| ==> rows[j].lo.Some? && (rows[i].lo.Some? ==>
        rows[i].lo.value < rows[j].lo.value)
  }

  ghost predicate InRows(rows: seq<Part>, k: int, n: int)
    requires 0 <= k <= |rows|
  {
    exists i :: 0 <= i < k && rows[i].Holds(n)
  }

  ghost predicate InGaps(gaps: seq<Gap>, n: int) { exists i :: 0 <= i < |gaps| && gaps[i].lo <= n < gaps[i].hi }

  ghost predicate GapsInOrder(gaps: seq<Gap>) {
    && (forall i :: 0 <= i < |gaps| ==> gaps[i].lo < gaps[i].hi)
    && (forall i, j :: 0 <= i < j < |gaps| ==> gaps[i].hi <= gaps[j].lo)
  }

  /** What the scan of the first k rows has found, up to covered. */
  ghost predicate Scanned(rows: seq<Part>, from: int, k: int, covered: int, gaps: seq<Gap>)
    requires 0 <= k <= |rows|
  {
    && from <= covered && GapsInOrder(gaps)
    && (forall i :: 0 <= i < |gaps| ==> from <= gaps[i].lo && gaps[i].hi <= covered)
    && (forall i :: 0 <= i < k ==> rows[i].hi.Some? && rows[i].hi.value <= covered)
    && (forall n :: from <= n < covered ==> InGaps(gaps, n) || InRows(rows, k, n))
    && (forall n :: InGaps(gaps, n) ==> !InRows(rows, |rows|, n))
  }

  lemma {:induction false} ScanStep(rows: seq<Part>, from: int, k: int, covered: int, gaps: seq<Gap>, covered': int,
                                    gaps': seq<Gap>)
    requires InOrder(rows) && 0 <= k < |rows| && Scanned(rows, from, k, covered, gaps) && rows[k].hi.Some?
    requires covered' == if rows[k].hi.value > covered then rows[k].hi.value else covered
    requires rows[k].Proper()
    requires gaps' == if rows[k].lo.Some? && rows[k].lo.value > covered then gaps + [Gap(covered, rows[k].lo.value)]
              else gaps
    ensures Scanned(rows, from, k + 1, covered', gaps')
  {
    forall n | from <= n < covered' ensures InGaps(gaps', n) || InRows(rows, k + 1, n) {
      ScanCovers(rows, from, k, covered, gaps, gaps', n);
    }
    forall n | InGaps(gaps', n) ensures !InRows(rows, |rows|, n) {
      var i :| 0 <= i < |gaps'| && gaps'[i].lo <= n < gaps'[i].hi;
      if i < |gaps| {
        assert gaps[i] == gaps'[i];
        assert InGaps(gaps, n);
      } else {
      }
    }
  }

  lemma {:induction false} ScanCovers(rows: seq<Part>, from: int, k: int, covered: int, gaps: seq<Gap>,
                                      gaps': seq<Gap>, n: int)
    requires 0 <= k < |rows| && Scanned(rows, from, k, covered, gaps) && rows[k].hi.Some?
    requires gaps' == if rows[k].lo.Some? && rows[k].lo.value > covered then gaps + [Gap(covered, rows[k].lo.value)]
              else gaps
    requires from <= n && (n < covered || n < rows[k].hi.value)
    ensures InGaps(gaps', n) || InRows(rows, k + 1, n)
  {
    if n < covered {
      if InGaps(gaps, n) {
        var i :| 0 <= i < |gaps| && gaps[i].lo <= n < gaps[i].hi;
        assert gaps'[i] == gaps[i];
      }
    } else if rows[k].lo.Some? && n < rows[k].lo.value {
      assert gaps'[|gaps|].lo <= n < gaps'[|gaps|].hi;
    } else {
      assert rows[k].Holds(n);
    }
  }

  /** The uncovered ranges from the first retained block to the highest end; none while a range is unbounded. */
  method FindGaps(rows: seq<Part>, from: int) returns (gaps: seq<Gap>, covered: int, bounded: bool)
    requires InOrder(rows) && forall i :: 0 <= i < |rows| ==> rows[i].Proper()
    ensures bounded ==> Scanned(rows, from, |rows|, covered, gaps)
    ensures !bounded ==> gaps == [] && exists i :: 0 <= i < |rows| && rows[i].hi.None?
  {
    gaps, covered := [], from;
    for k := 0 to |rows|
      invariant Scanned(rows, from, k, covered, gaps)
    {
      if rows[k].hi.None? {
        return [], covered, false;
      }
      ghost var was, found := covered, gaps;
      if rows[k].lo.Some? && rows[k].lo.value > covered {
        gaps := gaps + [Gap(covered, rows[k].lo.value)];
      }
      covered := if rows[k].hi.value > covered then rows[k].hi.value else covered;
      ScanStep(rows, from, k, was, found, covered, gaps);
    }
    bounded := true;
  }

  // ---------- filling a gap ----------

  /** What retention does between two creates: the watermark may move up and ranges may be dropped. */
  datatype Meanwhile = Meanwhile(pruned: int, dropped: set<Part>)

  function Disturbed(s: State, m: Meanwhile): State {
    State(s.parts - m.dropped, if m.pruned > s.pruned then m.pruned else s.pruned)
  }

  predicate Calm(m: Meanwhile) { m.pruned <= 0 && m.dropped == {} }

  /** A range created, with the first retained block at the time. */
  datatype Created = Created(lo: int, hi: int, from: int)

  /** The end of the chunk at lo: the first of a gap takes what does not divide, the others are whole. */
  function ChunkEnd(g: Gap, size: int, lo: int): int
    requires size > 0
  {
    if lo == g.lo && (g.hi - g.lo) % size != 0 then lo + (g.hi - g.lo) % size
    else if lo + size < g.hi then lo + size else g.hi
  }

  lemma {:induction false} ChunkIsWhole(g: Gap, size: int, lo: int)
    requires size > 0 && g.lo <= lo < g.hi && (lo == g.lo || (g.hi - lo) % size == 0)
    ensures var hi := ChunkEnd(g, size, lo);
            && lo < hi <= g.hi && (g.hi - hi) % size == 0
            && (hi - lo == size || (lo == g.lo && hi - lo == (g.hi - g.lo) % size))
  {
    WholeParts(g.hi - lo, size);
    if lo == g.lo && (g.hi - g.lo) % size != 0 {
      assert g.hi - ChunkEnd(g, size, lo) == (g.hi - lo) - (g.hi - lo) % size;
    } else {
      assert g.hi - ChunkEnd(g, size, lo) == (g.hi - lo) - size;
    }
  }

  ghost predicate Free(parts: set<Part>, lo: int, hi: int) { forall p, n :: p in parts && lo <= n < hi ==> !p.Holds(n) }

  ghost predicate Held(parts: set<Part>, n: int) { exists p :: p in parts && p.Holds(n) }

  ghost predicate Covered(parts: set<Part>, lo: int, hi: int) { forall n :: lo <= n < hi ==> Held(parts, n) }

  /** parts' is parts with ranges added inside [lo, hi) that cover it. */
  ghost predicate Filled(parts: set<Part>, parts': set<Part>, lo: int, hi: int) {
    && parts <= parts' && Covered(parts', lo, hi)
    && forall p :: p in parts' && p !in parts ==> p.lo.Some? && p.hi.Some? && lo <= p.lo.value && p.hi.value <= hi
  }

  lemma {:induction false} FreeFits(s: State, lo: int, hi: int)
    requires Inv(s) && lo < hi && lo >= From(s) && Free(s.parts, lo, hi)
    ensures Fits(s, lo, hi)
  {
    forall p | p in s.parts ensures !Overlaps(p, lo, hi) {
      OverlapMeans(p, lo, hi);
    }
  }

  lemma {:induction false} FilledMore(parts: set<Part>, now: set<Part>, lo: int, mid: int, hi: int, end: int)
    requires Filled(parts, now, lo, mid) && Free(now, mid, end) && lo <= mid < hi <= end
    ensures Filled(parts, now + {Range(mid, hi)}, lo, hi) && Free(now + {Range(mid, hi)}, hi, end)
  {
    var more := now + {Range(mid, hi)};
    forall n | lo <= n < hi ensures Held(more, n) {
      if n < mid {
        assert Held(now, n);
      } else {
        assert Range(mid, hi).Holds(n);
      }
    }
  }

  lemma {:induction false} DisturbedInv(s: State, m: Meanwhile)
    requires Inv(s)
    ensures Inv(Disturbed(s, m)) && (Calm(m) && s.pruned >= 0 ==> Disturbed(s, m) == s)
  {
    if m.dropped == {} {
      assert s.parts - m.dropped == s.parts;
    }
  }

  ghost predicate Logged(c: Created, g: Gap, size: int)
    requires size > 0
  {
    && c.lo >= c.from && g.lo <= c.lo < c.hi <= g.hi
    && (c.hi - c.lo == size || (c.lo == g.lo && c.hi - c.lo == (g.hi - g.lo) % size))
  }

  /**
   A gap's chunks, lowest first, each in its own transaction; k numbers them among the call's. Whatever retention does
   between them, ranges stay disjoint, none starts below the first retained block, and only the lowest chunk is short.
   Undisturbed, they fill the gap.
   */
  method FillGap(s: State, g: Gap, size: int, between: int -> Meanwhile, first: int)
    returns (s': State, log: seq<Created>, ok: bool)
    requires Inv(s) && size > 0 && g.lo < g.hi && s.pruned >= 0
    ensures Inv(s') && s'.pruned >= s.pruned && forall i :: 0 <= i < |log| ==> Logged(log[i], g, size)
    ensures (forall k :: Calm(between(k))) && Free(s.parts, g.lo, g.hi) && g.lo >= From(s) ==>
              ok && s'.pruned == s.pruned && Filled(s.parts, s'.parts, g.lo, g.hi)
  {
    ghost var calm := (forall k :: Calm(between(k))) && Free(s.parts, g.lo, g.hi) && g.lo >= From(s);
    s', log := s, [];
    var lo := g.lo;
    while lo < g.hi
      invariant g.lo <= lo <= g.hi && (lo == g.lo || (g.hi - lo) % size == 0)
      invariant Inv(s') && s'.pruned >= s.pruned && forall i :: 0 <= i < |log| ==> Logged(log[i], g, size)
      invariant calm ==> s'.pruned == s.pruned && Filled(s.parts, s'.parts, g.lo, lo) && Free(s'.parts, lo, g.hi)
      decreases g.hi - lo
    {
      var hi := ChunkEnd(g, size, lo);
      ChunkIsWhole(g, size, lo);
      DisturbedInv(s', between(first + |log|));
      s' := Disturbed(s', between(first + |log|));
      if calm {
        FreeFits(s', lo, hi);
        FilledMore(s.parts, s'.parts, g.lo, lo, hi, g.hi);
      }
      s', ok := CreateInGap(s', lo, hi);
      if !ok {
        return;
      }
      log := log + [Created(lo, hi, From(s'))];
      lo := hi;
    }
    ok := true;
  }

  ghost predicate InSomeGap(c: Created, gaps: seq<Gap>, size: int)
    requires size > 0
  {
    exists j :: 0 <= j < |gaps| && Logged(c, gaps[j], size)
  }

  ghost predicate Counted(log: seq<Created>, gaps: seq<Gap>, size: int)
    requires size > 0
  {
    forall i :: 0 <= i < |log| ==> InSomeGap(log[i], gaps, size)
  }

  /** Every gap in turn; a gap that changed meanwhile ends the call. */
  method FillGaps(s: State, gaps: seq<Gap>, size: int, between: int -> Meanwhile)
    returns (s': State, log: seq<Created>, ok: bool)
    requires Inv(s) && size > 0 && s.pruned >= 0 && GapsInOrder(gaps)
    ensures Inv(s') && Counted(log, gaps, size)
    ensures (forall k :: Calm(between(k))) && (forall j :: 0 <= j < |gaps| ==>
              Free(s.parts, gaps[j].lo, gaps[j].hi) && gaps[j].lo >= From(s)) ==>
              ok && s'.pruned == s.pruned && s.parts <= s'.parts && forall j :: 0 <= j < |gaps| ==>
                  Covered(s'.parts, gaps[j].lo, gaps[j].hi)
  {
    ghost var calm := (forall k :: Calm(between(k)))
                      && forall j :: 0 <= j < |gaps| ==> Free(s.parts, gaps[j].lo, gaps[j].hi) && gaps[j].lo >= From(s);
    s', log := s, [];
    for i := 0 to |gaps|
      invariant Inv(s') && s'.pruned >= s.pruned && Counted(log, gaps, size)
      invariant calm ==> s'.pruned == s.pruned && s.parts <= s'.parts
      invariant calm ==> forall j :: 0 <= j < i ==> Covered(s'.parts, gaps[j].lo, gaps[j].hi)
      invariant calm ==> forall j :: i <= j < |gaps| ==> Free(s'.parts, gaps[j].lo, gaps[j].hi)
    {
      var more;
      ghost var before := s';
      s', more, ok := FillGap(s', gaps[i], size, between, |log|);
      log := log + more;
      if calm {
        OthersStay(before.parts, s'.parts, gaps, i);
      }
      if !ok {
        return;
      }
    }
    ok := true;
  }

  lemma {:induction false} OthersStay(parts: set<Part>, parts': set<Part>, gaps: seq<Gap>, i: int)
    requires GapsInOrder(gaps) && 0 <= i < |gaps| && Filled(parts, parts', gaps[i].lo, gaps[i].hi)
    ensures forall j :: 0 <= j < |gaps| && Covered(parts, gaps[j].lo, gaps[j].hi) ==>
              Covered(parts', gaps[j].lo, gaps[j].hi)
    ensures forall j :: i < j < |gaps| && Free(parts, gaps[j].lo, gaps[j].hi) ==> Free(parts', gaps[j].lo, gaps[j].hi)
  {
    forall j | 0 <= j < |gaps| && Covered(parts, gaps[j].lo, gaps[j].hi)
        ensures Covered(parts', gaps[j].lo, gaps[j].hi) {
      forall n | gaps[j].lo <= n < gaps[j].hi ensures Held(parts', n) {
        assert Held(parts, n);
      }
    }
  }

  // ---------- the whole call ----------

  ghost predicate Lists(rows: seq<Part>, s: State) { InOrder(rows) && Elements(rows) == s.parts }

  lemma {:induction false} GapsAreFree(rows: seq<Part>, s: State, covered: int, gaps: seq<Gap>)
    requires Lists(rows, s) && Scanned(rows, From(s), |rows|, covered, gaps)
    ensures forall j :: 0 <= j < |gaps| ==> Free(s.parts, gaps[j].lo, gaps[j].hi) && gaps[j].lo >= From(s)
  {
    forall j | 0 <= j < |gaps| ensures Free(s.parts, gaps[j].lo, gaps[j].hi) {
      forall p, n | p in s.parts && gaps[j].lo <= n < gaps[j].hi ensures !p.Holds(n) {
        assert InGaps(gaps, n);
        assert p in Elements(rows);
        var i :| 0 <= i < |rows| && rows[i] == p;
        assert !InRows(rows, |rows|, n);
      }
    }
  }

  lemma {:induction false} AllCovered(rows: seq<Part>, s: State, covered: int, gaps: seq<Gap>, parts: set<Part>)
    requires Lists(rows, s) && Scanned(rows, From(s), |rows|, covered, gaps) && s.parts <= parts
    requires forall j :: 0 <= j < |gaps| ==> Covered(parts, gaps[j].lo, gaps[j].hi)
    ensures Covered(parts, From(s), covered)
  {
    forall n | From(s) <= n < covered ensures Held(parts, n) {
      if InGaps(gaps, n) {
        var j :| 0 <= j < |gaps| && gaps[j].lo <= n < gaps[j].hi;
        assert Held(parts, n);
      } else {
        var i :| 0 <= i < |rows| && rows[i].Holds(n);
        assert rows[i] in Elements(rows);
      }
    }
  }

  /**
   rows is the snapshot of the ranges and size the newest one's. Under any interleaving ranges stay disjoint, none is
   created starting below the first retained block of that moment, and only the lowest chunk of a gap is short;
   undisturbed, every block from the first retained one to the highest end is in exactly one range.
   */
  method FillHistoryGaps(s: State, rows: seq<Part>, size: int, between: int -> Meanwhile)
    returns (s': State, log: seq<Created>, covered: int, bounded: bool, gaps: seq<Gap>)
    requires Inv(s) && size > 0 && s.pruned >= 0 && Lists(rows, s)
    ensures Inv(s') && Counted(log, gaps, size) && (bounded ==> GapsInOrder(gaps))
    ensures bounded ==> forall j :: 0 <= j < |gaps| ==> Free(s.parts, gaps[j].lo, gaps[j].hi) && gaps[j].lo >= From(s)
    ensures bounded <==> forall p :: p in s.parts ==> p.hi.Some?
    ensures bounded ==> forall p :: p in s.parts ==> p.hi.value <= covered
    ensures bounded && (forall k :: Calm(between(k))) ==>
              s.parts <= s'.parts && s'.pruned == s.pruned && Covered(s'.parts, From(s), covered)
  {
    assert forall p :: p in rows <==> p in Elements(rows);
    assert forall i :: 0 <= i < |rows| ==> rows[i] in rows;
    gaps, covered, bounded := FindGaps(rows, From(s));
    if !bounded {
      return s, [], covered, false, gaps;
    }
    GapsAreFree(rows, s, covered, gaps);
    var ok;
    s', log, ok := FillGaps(s, gaps, size, between);
    if (forall k :: Calm(between(k))) {
      AllCovered(rows, s, covered, gaps, s'.parts);
    }
  }

  /** A covered block is in one range only. */
  lemma {:induction false} ExactlyOne(s: State, lo: int, hi: int, n: int)
    requires Inv(s) && Covered(s.parts, lo, hi) && lo <= n < hi
    ensures exists p :: p in s.parts && p.Holds(n) && forall q :: q in s.parts && q.Holds(n) ==> q == p
  {
    assert Held(s.parts, n);
  }

  // ---------- extending above the highest ----------

  function Ends(parts: set<Part>): set<int> { set p | p in parts && p.hi.Some? :: p.hi.value }

  lemma {:induction false} AboveIsFree(parts: set<Part>, lo: int, hi: int)
    requires (forall p :: p in parts ==> p.hi.Some?) && Ends(parts) != {} && lo == Max(Ends(parts)) && lo < hi
    ensures Free(parts, lo, hi) && Ends(parts + {Range(lo, hi)}) != {} && Max(Ends(parts + {Range(lo, hi)})) == hi
  {
    forall p, n | p in parts && lo <= n < hi ensures !p.Holds(n) {
      assert p.hi.value in Ends(parts);
    }
    var ends := Ends(parts + {Range(lo, hi)});
    assert Range(lo, hi).hi.value in ends;
    assert forall x :: x in ends ==> x == hi || x in Ends(parts);
  }

  /**
   Ranges of one size above the highest, until one ends beyond upto or the call has made its share; a no-op while a
   range is unbounded or there is none.
   */
  method EnsurePartitions(s: State, upto: int, size: int) returns (s': State, made: int)
    requires Inv(s) && size > 0
    ensures Inv(s') && s.parts <= s'.parts && s'.pruned == s.pruned && 0 <= made <= MAX_PARTITIONS_PER_ENSURE
    ensures (forall p :: p in s.parts ==> p.hi.Some?) && Ends(s.parts) != {} ==>
              && Ends(s'.parts) != {} && Covered(s'.parts, Max(Ends(s.parts)), Max(Ends(s'.parts)))
              && (made == MAX_PARTITIONS_PER_ENSURE || Max(Ends(s'.parts)) > upto)
  {
    s', made := s, 0;
    if (exists p :: p in s.parts && p.hi.None?) || Ends(s.parts) == {} {
      return;
    }
    var start := Max(Ends(s.parts));
    var top := start;
    while made < MAX_PARTITIONS_PER_ENSURE && top <= upto
      invariant 0 <= made <= MAX_PARTITIONS_PER_ENSURE && s'.pruned == s.pruned && s.parts <= s'.parts
      invariant Inv(s') && (forall p :: p in s'.parts ==> p.hi.Some?) && Ends(s'.parts) != {}
      invariant top == Max(Ends(s'.parts)) >= start
      invariant Covered(s'.parts, start, top)
      decreases MAX_PARTITIONS_PER_ENSURE - made
    {
      AboveIsFree(s'.parts, top, top + size);
      CoverExtends(s'.parts, start, top, top + size);
      s' := s'.(parts := s'.parts + {Range(top, top + size)});
      top, made := top + size, made + 1;
    }
  }

  lemma {:induction false} CoverExtends(parts: set<Part>, lo: int, mid: int, hi: int)
    requires Covered(parts, lo, mid) && lo <= mid < hi
    ensures Covered(parts + {Range(mid, hi)}, lo, hi)
  {
    forall n | lo <= n < hi ensures Held(parts + {Range(mid, hi)}, n) {
      if n < mid {
        assert Held(parts, n);
      } else {
        assert Range(mid, hi).Holds(n);
      }
    }
  }
}
