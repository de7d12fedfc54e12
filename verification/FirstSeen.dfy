/**
 What a rebase batch reports of the first_seens it moves. Each write folds one block into FirstSeenFrom, taken from what
 the batch read; the row it writes has a first_seen before and one after, which a run since the read may have moved.
 */
module FirstSeen {
  import opened Sums
  import opened AddressRebase

  /** What one write of a batch folds into RebaseResult.FirstSeenFrom. */
  function MovedFirst(v: RebaseRow, stale: bool): Option<int> {
    if v.present && (v.want.None? || stale) then v.row.first
    else if v.present && v.Differs() && v.row.first != v.Wanted().first then Least(v.row.first, v.Wanted().first)
    else if v.Creates() then v.Wanted().first
    else None
  }

  function FirstOf(row: Option<Row>): Option<int> { if row.Some? then row.value.first else None }

  /** r is set and at or before n. */
  predicate UpTo(r: Option<int>, n: int) { r.Some? && r.value <= n }

  /** A write that moves first_seen, or removes or creates the row that has it, reports something. */
  predicate Reports(before: Option<int>, after: Option<int>, report: Option<int>) {
    before != after ==> report.Some?
  }

  /** What it reports is at or before the first_seen moved, old and new. */
  predicate Reaches(before: Option<int>, after: Option<int>, report: Option<int>) {
    before != after ==> (before.Some? ==> UpTo(report, before.value)) && (after.Some? ==> UpTo(report, after.value))
  }

  predicate ReportsAt(u: Tables, v: RebaseRow) {
    Reports(FirstOf(Get(u.rows, v.address)), FirstOf(AppliedTo(u, v)), MovedFirst(v, Stale(u, v)))
  }

  predicate ReachesAt(u: Tables, v: RebaseRow) {
    Reaches(FirstOf(Get(u.rows, v.address)), FirstOf(AppliedTo(u, v)), MovedFirst(v, Stale(u, v)))
  }

  /** The read found a row whose first_seen is NULL although blocks saw the address. */
  predicate Null(v: RebaseRow) { v.present && v.want.Some? && v.row.first.None? }

  /** The read found a row whose first_seen is past the first block that saw the address, or NULL. */
  predicate Late(v: RebaseRow) { v.present && v.want.Some? && Least(v.row.first, v.want.value.first) != v.row.first }

  // ---------- no revert since the read ----------

  lemma {:induction false} TrackedReaches(v: View, w: View, a: Address, creatable: bool)
    requires Tracks(v, w)
    ensures var r := RebaseRow(a, creatable, v.row.Some?, v.Shown(), v.Truth(), v.stamp);
            Reaches(FirstOf(w.row), FirstOf(Applied(r, w.row, w.Truth(), false)), MovedFirst(r, false))
  {
    assert v.seen + (w.seen - v.seen) == w.seen;
    if v.seen == {} {
      assert w.seen - v.seen == w.seen;
    } else {
      ExtremesUnion(v.seen, w.seen - v.seen);
    }
  }

  // ---------- a revert since the read ----------

  /**
   The row's first_seen is a block that saw the address, or is at or after r; and no block before it saw the address
   unless that block is at or after r too. r is what a stale write reports.
   */
  ghost predicate FirstKept(w: View, r: Option<int>) {
    if w.row.None? then forall m :: m in w.seen ==> UpTo(r, m)
    else if w.row.value.first.None? then w.seen == {}
    else
      var f := w.row.value.first.value;
      (f in w.seen || UpTo(r, f)) && forall m :: m in w.seen ==> f <= m || UpTo(r, m)
  }

  /** What a stale write of the address reports. */
  function StaleReport(v: View): Option<int> { if v.row.Some? then v.row.value.first else MinOf(v.seen) }

  lemma {:induction false} KeptAtRead(t: Tables, a: Address, creatable: bool)
    requires !Late(Read(t, a, creatable))
    ensures FirstKept(ViewOf(t, a), StaleReport(ViewOf(t, a)))
  {
  }

  lemma {:induction false} KeptIngest(w: View, n: int, c: Counts, r: Option<int>)
    requires FirstKept(w, r)
    ensures FirstKept(View(Some(IngestRow(w.row, n, c)), w.seen + {n}, w.counted.Plus(c), w.stamp), r)
  {
  }

  lemma {:induction false} KeptRevert(w: View, floor: int, n: int, c: Counts, stamp: Option<int>, r: Option<int>)
    requires FirstKept(w, r) && n in w.seen && n >= floor
    ensures FirstKept(View(RevertedRow(w.row, w.seen, floor, n, c), w.seen - {n}, w.counted.Minus(c), stamp), r)
  {
    var others := w.seen - {n};
    var kept := set m | m in others && m >= floor;
    assert forall m :: m in kept <==> m in others && m >= floor;
  }

  lemma {:induction false} KeptNext(t: Tables, s: Step, t': Tables, a: Address, r: Option<int>)
    requires FirstKept(ViewOf(t, a), r) && Next(t, s, t') && Leaves(s, a)
    ensures FirstKept(ViewOf(t', a), r)
  {
    match s
    case Write(n, b) =>
      if n !in t.blocks {
        ViewIngest(t, n, b, a);
        if a in b {
          KeptIngest(ViewOf(t, a), n, b[a], r);
        }
      }
    case Undo(n) =>
      if n in t.blocks {
        ViewRevert(t, n, a);
        if a in t.blocks[n] {
          KeptRevert(ViewOf(t, a), t.floor, n, t.blocks[n][a], Some(t.clock), r);
        }
      }
    case Batch(read) => ViewBatch(t, read, t', a);
  }

  lemma {:induction false} RunKept(states: seq<Tables>, steps: seq<Step>, a: Address, r: Option<int>, k: int)
    requires Run(states, steps) && LeavesAlone(steps, a) && FirstKept(ViewOf(states[0], a), r) && 0 <= k <= |steps|
    ensures FirstKept(ViewOf(states[k], a), r)
    decreases k
  {
    if k > 0 {
      RunKept(states, steps, a, r, k - 1);
      KeptAt(states, steps, a, r, k - 1);
    }
  }

  lemma {:induction false} KeptAt(states: seq<Tables>, steps: seq<Step>, a: Address, r: Option<int>, i: int)
    requires Run(states, steps) && LeavesAlone(steps, a) && 0 <= i < |steps| && FirstKept(ViewOf(states[i], a), r)
    ensures FirstKept(ViewOf(states[i + 1], a), r)
  {
    assert NextAt(states, steps, i);
    assert Leaves(steps[i], a);
    KeptNext(states[i], steps[i], states[i + 1], a, r);
  }

  lemma {:induction false} KeptReaches(v: View, w: View, a: Address, creatable: bool)
    requires FirstKept(w, StaleReport(v))
    ensures var r := RebaseRow(a, creatable, v.row.Some?, v.Shown(), v.Truth(), v.stamp);
            Reaches(FirstOf(w.row), FirstOf(Applied(r, w.row, w.Truth(), true)), MovedFirst(r, true))
  {
  }

  // ---------- every run ----------

  /** A run since the read in which no other batch holds the address. */
  ghost predicate Since(t: Tables, a: Address, states: seq<Tables>, steps: seq<Step>) {
    Run(states, steps) && LeavesAlone(steps, a) && states[0] == t
  }

  /**
   The write of an address reports a block at or before the first_seen it moves, old and new, in every run with no
   revert of the address since the read, and in every run at all when the read was not late.
   */
  lemma {:induction false} RunReaches(t: Tables, a: Address, creatable: bool, states: seq<Tables>, steps: seq<Step>)
    requires WellFormed(t) && Since(t, a, states, steps)
    ensures var v, u := Read(t, a, creatable), states[|steps|]; !Stale(u, v) || !Late(v) ==> ReachesAt(u, v)
  {
    var v, u := Read(t, a, creatable), states[|steps|];
    if !Stale(u, v) {
      RunTracksOrStamped(states, steps, a, |steps|);
      TrackedReaches(ViewOf(t, a), ViewOf(u, a), a, creatable);
    } else if !Late(v) {
      KeptAtRead(t, a, creatable);
      RunKept(states, steps, a, StaleReport(ViewOf(t, a)), |steps|);
      KeptReaches(ViewOf(t, a), ViewOf(u, a), a, creatable);
    }
  }

  /** A write reports whatever it moves, unless the read found a NULL first_seen. */
  lemma {:induction false} RunReports(t: Tables, a: Address, creatable: bool, states: seq<Tables>, steps: seq<Step>)
    requires WellFormed(t) && Since(t, a, states, steps)
    ensures var v, u := Read(t, a, creatable), states[|steps|]; !Stale(u, v) || !Null(v) ==> ReportsAt(u, v)
  {
    RunReaches(t, a, creatable, states, steps);
  }

  // ---------- the runs that break it ----------

  function Above(s: set<int>, lo: int): (n: int)
    ensures n > lo && forall m :: m in s ==> m < n
  {
    var top := MaxOf(s);
    if top.Some? && top.value >= lo then top.value + 1 else lo + 1
  }

  lemma {:induction false} FirstBelowStays(row: Row, seen: set<int>, floor: int, n: int, c: Counts)
    requires row.first.Some? && row.first.value < n
    ensures FirstOf(RevertedRow(Some(row), seen, floor, n, c)) == row.first
  {
  }

  /** A block written and reverted since the read stamps the address and leaves a first_seen below it alone. */
  lemma {:induction false} WrittenAndReverted(t: Tables, b: Contributions, a: Address, n: int)
    requires n !in t.blocks && a in b && a in t.rows
    requires t.rows[a].first.Some? && t.rows[a].first.value < n
    ensures var v, w := ViewOf(t, a), ViewOf(Revert(Ingest(t, n, b), n), a);
            w.stamp == Some(t.clock) && w.seen == v.seen && FirstOf(w.row) == FirstOf(v.row)
  {
    var u := Ingest(t, n, b);
    ViewIngest(t, n, b, a);
    ViewRevert(u, n, a);
    var seen := Seen(t.blocks, a);
    assert seen + {n} - {n} == seen;
    FirstBelowStays(IngestRow(Get(t.rows, a), n, b[a]), Seen(u.blocks, a), u.floor, n, Of(u.blocks, n, a));
  }

  lemma {:induction false} ThreeSteps(t0: Tables, s0: Step, t1: Tables, s1: Step, t2: Tables, s2: Step, t3: Tables,
                                      a: Address)
    requires Next(t0, s0, t1) && Next(t1, s1, t2) && Next(t2, s2, t3) && Leaves(s0, a) && Leaves(s1, a) && Leaves(s2, a)
    ensures Since(t0, a, [t0, t1, t2, t3], [s0, s1, s2])
  {
    var states, steps := [t0, t1, t2, t3], [s0, s1, s2];
    assert NextAt(states, steps, 0) && NextAt(states, steps, 1) && NextAt(states, steps, 2);
  }

  lemma {:induction false} LateEnd(t: Tables, a: Address, b: Contributions, m: int, n: int)
    requires a in b && a in t.rows && m !in t.blocks && n !in t.blocks && m < n
    requires t.rows[a].first.Some? ==> t.rows[a].first.value < m
    ensures var w := ViewOf(Revert(Ingest(Ingest(t, m, b), n, b), n), a);
            w.stamp == Some(t.clock) && w.seen == Seen(t.blocks, a) + {m} &&
            FirstOf(w.row) == Least(t.rows[a].first, Some(m))
  {
    var t1 := Ingest(t, m, b);
    ViewIngest(t, m, b, a);
    RowIngest(t, m, b, a);
    WrittenAndReverted(t1, b, a, n);
  }

  lemma {:induction false} LateWrite(t: Tables, a: Address, creatable: bool, m: int, u: Tables)
    requires WellFormed(t) && Late(Read(t, a, creatable))
    requires (forall k :: k in t.blocks ==> k < m) && (t.rows[a].first.Some? ==> t.rows[a].first.value < m)
    requires Get(u.reverted, a) == Some(t.clock) && Seen(u.blocks, a) == Seen(t.blocks, a) + {m}
    requires FirstOf(Get(u.rows, a)) == Least(t.rows[a].first, Some(m))
    ensures var v := Read(t, a, creatable); !ReachesAt(u, v) && (Null(v) ==> !ReportsAt(u, v))
  {
    var s := Seen(t.blocks, a);
    MinMaxOfAdd(s, m);
    assert MinOf(s).value in s;
  }

  lemma {:induction false} LateSince(t: Tables, a: Address, b: Contributions, m: int, n: int)
    returns (states: seq<Tables>, steps: seq<Step>)
    requires (forall k :: k in b ==> b[k].Natural()) && n >= t.floor
    ensures Since(t, a, states, steps) && states[|steps|] == Revert(Ingest(Ingest(t, m, b), n, b), n)
  {
    var t1 := Ingest(t, m, b);
    var t2 := Ingest(t1, n, b);
    ThreeSteps(t, Write(m, b), t1, Write(n, b), t2, Undo(n), Revert(t2, n), a);
    states, steps := [t, t1, t2, Revert(t2, n)], [Write(m, b), Write(n, b), Undo(n)];
  }

  /** Two blocks that are not stored, above first_seen and every stored block, the second of them retained. */
  lemma {:induction false} LateBlocks(t: Tables, first: Option<int>) returns (m: int, n: int)
    ensures (forall k :: k in t.blocks ==> k < m) && m < n && m !in t.blocks && n !in t.blocks && n >= t.floor
    ensures first.Some? ==> first.value < m
  {
    m := Above(t.blocks.Keys, if first.Some? then first.value else 0);
    n := if t.floor > m then t.floor else m + 1;
  }

  lemma {:induction false} LateOutcome(t: Tables, a: Address, creatable: bool, b: Contributions, m: int, n: int)
    requires WellFormed(t) && Late(Read(t, a, creatable)) && a in b && n !in t.blocks && m < n
    requires (forall k :: k in t.blocks ==> k < m) && (t.rows[a].first.Some? ==> t.rows[a].first.value < m)
    ensures var v, u := Read(t, a, creatable), Revert(Ingest(Ingest(t, m, b), n, b), n);
            !ReachesAt(u, v) && (Null(v) ==> !ReportsAt(u, v))
  {
    LateEnd(t, a, b, m, n);
    LateWrite(t, a, creatable, m, Revert(Ingest(Ingest(t, m, b), n, b), n));
  }

  /** The run that breaks the report of a late read: two blocks written and the second reverted. */
  lemma {:induction false} LateRun(t: Tables, a: Address, creatable: bool)
    returns (states: seq<Tables>, steps: seq<Step>)
    requires WellFormed(t) && Late(Read(t, a, creatable))
    ensures Since(t, a, states, steps)
    ensures var v, u := Read(t, a, creatable), states[|steps|];
            !ReachesAt(u, v) && (Null(v) ==> !ReportsAt(u, v))
  {
    var b: Contributions := map[a := ZERO];
    var m, n := LateBlocks(t, t.rows[a].first);
    states, steps := LateSince(t, a, b, m, n);
    LateOutcome(t, a, creatable, b, m, n);
  }

  /**
   A write's report is at or before the first_seen it moves, old and new, in every run since the read, exactly when the
   read was not late: a stale write reports the first_seen it read, and the recount may set an earlier one.
   */
  lemma {:induction false} ReachesExactly(t: Tables, a: Address, creatable: bool)
    requires WellFormed(t)
    ensures (forall states, steps | Since(t, a, states, steps) ::
              ReachesAt(states[|steps|], Read(t, a, creatable))) <==>
            !Late(Read(t, a, creatable))
  {
    if Late(Read(t, a, creatable)) {
      var states, steps := LateRun(t, a, creatable);
    } else {
      forall states, steps | Since(t, a, states, steps) ensures ReachesAt(states[|steps|], Read(t, a, creatable)) {
        RunReaches(t, a, creatable, states, steps);
      }
    }
  }

  /** A write reports every first_seen it moves in every run exactly when the read did not find a NULL one. */
  lemma {:induction false} ReportsExactly(t: Tables, a: Address, creatable: bool)
    requires WellFormed(t)
    ensures (forall states, steps | Since(t, a, states, steps) ::
              ReportsAt(states[|steps|], Read(t, a, creatable))) <==>
            !Null(Read(t, a, creatable))
  {
    if Null(Read(t, a, creatable)) {
      var states, steps := LateRun(t, a, creatable);
    } else {
      forall states, steps | Since(t, a, states, steps) ensures ReportsAt(states[|steps|], Read(t, a, creatable)) {
        RunReports(t, a, creatable, states, steps);
      }
    }
  }
}
