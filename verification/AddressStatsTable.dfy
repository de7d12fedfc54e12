/** address_stats and the tables beside it, as the writers change them row by row. */
module AddressStatsTable {
  import opened Sums
  import opened AddressRebase
  import opened FirstSeen

  /** What a rebase changed; firstSeenFrom is the earliest first_seen its writes reported as moved. */
  datatype RebaseResult = RebaseResult(changed: int, created: int, removed: int, firstSeenFrom: Option<int>)

  function Self(a: Address): Address { a }

  /** A block's upsert of one address. */
  function Upsert(n: int, stats: Contributions): (Address, Option<Row>) -> Option<Row> {
    (a, row) => Some(IngestRow(row, n, if a in stats then stats[a] else ZERO))
  }

  /** A revert's change to one address's row. */
  function TakeOff(t: Tables, n: int): (Address, Option<Row>) -> Option<Row> {
    (a, row) => RevertedRow(row, Seen(t.blocks, a), t.floor, n, Of(t.blocks, n, a))
  }

  lemma {:induction false} UpsertsAreIngest(t: Tables, n: int, stats: Contributions, order: seq<Address>)
    requires DistinctKeys(order, Self) && Elements(order) == stats.Keys && n !in t.blocks
    ensures var rows := RowByRow(t.rows, order, |order|, Self, Upsert(n, stats));
            Ingest(t, n, stats) == Tables(rows, t.blocks[n := stats], t.floor, t.reverted, t.clock,
                                          t.total + |rows| - |t.rows|)
  {
    IngestedRows(t, n, stats);
    var rows := RowByRow(t.rows, order, |order|, Self, Upsert(n, stats));
    forall a ensures Get(rows, a) == Get(Ingest(t, n, stats).rows, a) {
      UpsertIsIngest(t, n, stats, order, a);
    }
    SameRows(rows, Ingest(t, n, stats).rows);
  }

  lemma {:induction false} UpsertIsIngest(t: Tables, n: int, stats: Contributions, order: seq<Address>, a: Address)
    requires DistinctKeys(order, Self) && Elements(order) == stats.Keys && n !in t.blocks
    ensures Get(RowByRow(t.rows, order, |order|, Self, Upsert(n, stats)), a) == Get(Ingest(t, n, stats).rows, a)
  {
    RowIngest(t, n, stats, a);
    assert a in stats <==> a in Elements(order);
    if j :| 0 <= j < |order| && order[j] == a {
      RowByRowAt(t.rows, order, |order|, Self, Upsert(n, stats), j);
    } else {
      RowByRowElsewhere(t.rows, order, |order|, Self, Upsert(n, stats), a);
    }
  }

  lemma {:induction false} TakeOffsAreRevert(t: Tables, n: int, order: seq<Address>)
    requires n in t.blocks && DistinctKeys(order, Self) && Elements(order) == t.blocks[n].Keys
    ensures RowByRow(t.rows, order, |order|, Self, TakeOff(t, n)) == RevertRows(t, n)
  {
    var rows := RowByRow(t.rows, order, |order|, Self, TakeOff(t, n));
    forall a ensures Get(rows, a) == Get(RevertRows(t, n), a) {
      RowRevert(t, n, a);
      assert a in t.blocks[n] <==> a in Elements(order);
      if j :| 0 <= j < |order| && order[j] == a {
        RowByRowAt(t.rows, order, |order|, Self, TakeOff(t, n), j);
      } else {
        RowByRowElsewhere(t.rows, order, |order|, Self, TakeOff(t, n), a);
      }
    }
    SameRows(rows, RevertRows(t, n));
  }

  /** One write of a rebase batch, and its part in clearing the stamps its snapshot saw. */
  function Correct(t: Tables): (RebaseRow, Option<Row>) -> Option<Row> {
    (v: RebaseRow, row: Option<Row>) => Applied(v, row, Truth(t.blocks, v.address), Stale(t, v))
  }

  function AddressOf(v: RebaseRow): Address { v.address }

  lemma {:induction false} CorrectionsApply(t: Tables, read: seq<RebaseRow>)
    requires DistinctKeys(read, AddressOf)
    ensures RowsApplied(t, read, RowByRow(t.rows, read, |read|, AddressOf, Correct(t)))
  {
    var rows := RowByRow(t.rows, read, |read|, AddressOf, Correct(t));
    forall i | 0 <= i < |read| ensures Get(rows, read[i].address) == AppliedTo(t, read[i]) {
      CorrectedRow(t, read, i);
    }
    forall a | !Reads(read, a) ensures Get(rows, a) == Get(t.rows, a) {
      RowByRowElsewhere(t.rows, read, |read|, AddressOf, Correct(t), a);
    }
  }

  lemma {:induction false} CorrectedRow(t: Tables, read: seq<RebaseRow>, i: int)
    requires DistinctKeys(read, AddressOf) && 0 <= i < |read|
    ensures Get(RowByRow(t.rows, read, |read|, AddressOf, Correct(t)), read[i].address) == AppliedTo(t, read[i])
  {
    RowByRowAt(t.rows, read, |read|, AddressOf, Correct(t), i);
  }

  lemma {:induction false} StampsClear(t: Tables, read: seq<RebaseRow>)
    requires DistinctKeys(read, AddressOf)
    ensures StampsCleared(t, read, RowByRow(t.reverted, read, |read|, AddressOf, ClearStamp))
  {
    var reverted := RowByRow(t.reverted, read, |read|, AddressOf, ClearStamp);
    forall i | 0 <= i < |read|
      ensures Get(reverted, read[i].address) == ClearStamp(read[i], Get(t.reverted, read[i].address))
    {
      RowByRowAt(t.reverted, read, |read|, AddressOf, ClearStamp, i);
    }
    forall a | !Reads(read, a) ensures Get(reverted, a) == Get(t.reverted, a) {
      RowByRowElsewhere(t.reverted, read, |read|, AddressOf, ClearStamp, a);
    }
  }

  /** The batch of upserts, one per address in order; it counts the rows the upserts insert. */
  method UpsertRows(old': map<Address, Row>, n: int, stats: Contributions, order: seq<Address>)
    returns (rows: map<Address, Row>, added: int)
    ensures rows == RowByRow(old', order, |order|, Self, Upsert(n, stats))
    ensures added == |rows| - |old'|
  {
    rows, added := old', 0;
    for i := 0 to |order|
      invariant rows == RowByRow(old', order, i, Self, Upsert(n, stats)) && added == |rows| - |old'|
    {
      var a := order[i];
      var row := Upsert(n, stats)(a, Get(rows, a));
      if a !in rows {
        added := added + 1;
      }
      PutSize(rows, a, row);
      rows := Put(rows, a, row);
    }
  }

  /** The revert's loop over its addresses; it counts the rows it removes. */
  method TakeRowsOff(t: Tables, n: int, order: seq<Address>) returns (rows: map<Address, Row>, forgotten: int)
    ensures rows == RowByRow(t.rows, order, |order|, Self, TakeOff(t, n))
    ensures forgotten == |t.rows| - |rows|
  {
    rows, forgotten := t.rows, 0;
    for i := 0 to |order|
      invariant rows == RowByRow(t.rows, order, i, Self, TakeOff(t, n)) && forgotten == |t.rows| - |rows|
    {
      var gone;
      rows, gone := TakeRowOff(t, n, rows, order[i]);
      forgotten := forgotten + gone;
    }
  }

  method TakeRowOff(t: Tables, n: int, rows: map<Address, Row>, a: Address)
    returns (rows': map<Address, Row>, gone: int)
    ensures rows' == Put(rows, a, TakeOff(t, n)(a, Get(rows, a))) && gone == |rows| - |rows'|
  {
    var row := TakeOff(t, n)(a, Get(rows, a));
    gone := if a in rows && row.None? then 1 else 0;
    PutSize(rows, a, row);
    rows' := Put(rows, a, row);
  }

  /** RebaseResult after one write: what the switch and the statement's returned row add to it. */
  function Counted(r: RebaseResult, v: RebaseRow, row: Option<Row>, gone: bool, stale: bool): RebaseResult {
    var from := Least(r.firstSeenFrom, MovedFirst(v, stale));
    if v.present && (v.want.None? || stale) then
      (if gone then r.(removed := r.removed + 1, firstSeenFrom := from)
       else r.(changed := r.changed + 1, firstSeenFrom := from))
    else if v.present && v.Differs() then r.(changed := r.changed + 1, firstSeenFrom := from)
    else if v.Creates() && stale then
      (if row.None? then
         (if gone then r.(firstSeenFrom := from)
          else r.(created := r.created + 1, changed := r.changed + 1, firstSeenFrom := from))
       else if gone then r.(removed := r.removed + 1, firstSeenFrom := from)
       else r.(changed := r.changed + 1, firstSeenFrom := from))
    else if v.Creates() then
      r.(created := r.created + (if row.None? then 1 else 0), changed := r.changed + 1, firstSeenFrom := from)
    else r
  }

  /** Whether the batch writes the address at all. */
  predicate Writes(v: RebaseRow, stale: bool) {
    v.Creates() || (v.present && (v.want.None? || stale || v.Differs()))
  }

  /**
   What one write adds to the result: Created and Removed are the rows that appear and go, Changed the writes that do
   not end in the address having lost or missed its row, FirstSeenFrom the earliest first_seen reported so far.
   */
  predicate CountsWrite(r: RebaseResult, r': RebaseResult, v: RebaseRow, row: Option<Row>, row': Option<Row>,
                        stale: bool)
  {
    && r'.created - r.created == (if row.None? && row'.Some? then 1 else 0)
    && r'.removed - r.removed == (if row.Some? && row'.None? then 1 else 0)
    && r'.changed - r.changed == (if Writes(v, stale) && (row'.Some? || (v.present && row.None?)) then 1 else 0)
    && r'.firstSeenFrom == Least(r.firstSeenFrom, MovedFirst(v, stale))
  }

  lemma {:induction false} CountedOnce(r: RebaseResult, v: RebaseRow, row: Option<Row>, truth: Option<Row>, stale: bool)
    ensures var row' := Applied(v, row, truth, stale);
            var r' := Counted(r, v, row, (row.Some? || v.Creates()) && row'.None?, stale);
            CountsWrite(r, r', v, row, row', stale)
  {
  }

  /** The first_seen a write of the batch reports as moved. */
  function MovedBy(t: Tables, v: RebaseRow): Option<int> { MovedFirst(v, Stale(t, v)) }

  function LeastMoved(t: Tables, read: seq<RebaseRow>, n: int): Option<int>
    requires 0 <= n <= |read|
    decreases n
  {
    if n == 0 then None else Least(LeastMoved(t, read, n - 1), MovedBy(t, read[n - 1]))
  }

  /** The fold is the earliest of the reports: at or before each of them, and one of them. */
  lemma {:induction false} LeastMovedIsEarliest(t: Tables, read: seq<RebaseRow>, n: int)
    requires 0 <= n <= |read|
    ensures forall i :: 0 <= i < n && MovedBy(t, read[i]).Some? ==>
              LeastMoved(t, read, n).Some? && LeastMoved(t, read, n).value <= MovedBy(t, read[i]).value
    ensures LeastMoved(t, read, n).Some? ==> exists i :: 0 <= i < n && MovedBy(t, read[i]) == LeastMoved(t, read, n)
    decreases n
  {
    if n > 0 {
      LeastMovedIsEarliest(t, read, n - 1);
      assert LeastMoved(t, read, n) == MovedBy(t, read[n - 1]) || LeastMoved(t, read, n) == LeastMoved(t, read, n - 1);
    }
  }

  /** Every row of the batch was read in the snapshot t, and no other batch holds its address in the run since. */
  ghost predicate ReadIn(t: Tables, read: seq<RebaseRow>, states: seq<Tables>, steps: seq<Step>) {
    forall i :: 0 <= i < |read| ==>
      read[i] == Read(t, read[i].address, read[i].creatable) && Since(t, read[i].address, states, steps)
  }

  /**
   A batch's FirstSeenFrom is set when any row's first_seen moved, and is at or before the old and the new one, for
   every row not reverted since the read and every row that was not read late; NULL is the only late read whose move may
   go unreported. FirstSeen.ReachesExactly and FirstSeen.ReportsExactly say that no more can be promised of a row.
   */
  lemma {:induction false} FirstSeenFromReaches(t: Tables, read: seq<RebaseRow>, states: seq<Tables>, steps: seq<Step>,
                                                t': Tables, i: int)
    requires WellFormed(t) && ReadIn(t, read, states, steps) && 0 <= i < |read| && |states| == |steps| + 1
    requires BatchApplied(states[|steps|], read, t')
    ensures var u, a := states[|steps|], read[i].address;
            var before, after, from := FirstOf(Get(u.rows, a)), FirstOf(Get(t'.rows, a)), LeastMoved(u, read, |read|);
            && (!Stale(u, read[i]) || !Late(read[i]) ==> Reaches(before, after, from))
            && (!Stale(u, read[i]) || !Null(read[i]) ==> Reports(before, after, from))
  {
    var u, v := states[|steps|], read[i];
    RunReaches(t, v.address, v.creatable, states, steps);
    RunReports(t, v.address, v.creatable, states, steps);
    LeastMovedIsEarliest(u, read, |read|);
    assert Get(t'.rows, v.address) == AppliedTo(u, v) && MovedBy(u, v) == MovedFirst(v, Stale(u, v));
  }

  /**
   One write of a batch: a row to be created is inserted empty first, and a recount that finds no truth leaves it gone.
   */
  method ApplyRow(t: Tables, v: RebaseRow, rows: map<Address, Row>, r: RebaseResult)
    returns (rows': map<Address, Row>, r': RebaseResult)
    ensures rows' == Put(rows, v.address, Correct(t)(v, Get(rows, v.address)))
    ensures CountsWrite(r, r', v, Get(rows, v.address), Get(rows', v.address), Stale(t, v))
    ensures r'.created - r'.removed - (r.created - r.removed) == |rows'| - |rows|
  {
    var row, stale := Get(rows, v.address), Stale(t, v);
    var row' := Correct(t)(v, row);
    CountedOnce(r, v, row, Truth(t.blocks, v.address), stale);
    r' := Counted(r, v, row, (row.Some? || v.Creates()) && row'.None?, stale);
    PutSize(rows, v.address, row');
    rows' := Put(rows, v.address, row');
  }

  /** The batch's writes in address order. */
  method ApplyRows(t: Tables, read: seq<RebaseRow>) returns (rows: map<Address, Row>, r: RebaseResult)
    ensures rows == RowByRow(t.rows, read, |read|, AddressOf, Correct(t))
    ensures r.created - r.removed == |rows| - |t.rows|
    ensures r.firstSeenFrom == LeastMoved(t, read, |read|)
  {
    rows, r := t.rows, RebaseResult(0, 0, 0, None);
    for i := 0 to |read|
      invariant rows == RowByRow(t.rows, read, i, AddressOf, Correct(t))
      invariant r.created - r.removed == |rows| - |t.rows|
      invariant r.firstSeenFrom == LeastMoved(t, read, i)
    {
      rows, r := ApplyRow(t, read[i], rows, r);
    }
  }

  method RebaseTables(t: Tables, read: seq<RebaseRow>) returns (t': Tables, r: RebaseResult)
    requires DistinctKeys(read, AddressOf)
    ensures BatchApplied(t, read, t')
    ensures r.firstSeenFrom == LeastMoved(t, read, |read|)
  {
    var rows;
    rows, r := ApplyRows(t, read);
    CorrectionsApply(t, read);
    StampsClear(t, read);
    t' := Tables(rows, t.blocks, t.floor, RowByRow(t.reverted, read, |read|, AddressOf, ClearStamp), t.clock,
                 t.total + r.created - r.removed);
  }

  method WriteTables(t: Tables, n: int, stats: Contributions, order: seq<Address>) returns (t': Tables)
    requires n !in t.blocks && DistinctKeys(order, Self) && Elements(order) == stats.Keys
    ensures t' == Ingest(t, n, stats) && t' == Tables(t'.rows, t'.blocks, t.floor, t.reverted, t.clock, t'.total)
  {
    var rows, added := UpsertRows(t.rows, n, stats, order);
    UpsertsAreIngest(t, n, stats, order);
    t' := Tables(rows, t.blocks[n := stats], t.floor, t.reverted, t.clock, t.total + added);
  }

  lemma {:induction false} RevertIs(t: Tables, n: int, rows: map<Address, Row>, forgotten: int)
    requires n in t.blocks && rows == RevertRows(t, n) && forgotten == |t.rows| - |rows|
    ensures Revert(t, n) ==
            Tables(rows, t.blocks - {n}, t.floor, Stamped(t, n), t.clock + 1, Floor(t.total - forgotten))
  {
    RevertedRows(t, n);
  }

  method RevertTables(t: Tables, n: int, order: seq<Address>) returns (t': Tables)
    requires n in t.blocks && DistinctKeys(order, Self) && Elements(order) == t.blocks[n].Keys
    ensures t' == Revert(t, n) && t'.floor == t.floor
  {
    var rows, forgotten := TakeRowsOff(t, n, order);
    TakeOffsAreRevert(t, n, order);
    RevertIs(t, n, rows, forgotten);
    t' := Tables(rows, t.blocks - {n}, t.floor, Stamped(t, n), t.clock + 1, Floor(t.total - forgotten));
  }

  class AddressStats {
    var rows: map<Address, Row>
    var blocks: map<int, Contributions>
    var floor: int
    var reverted: map<Address, int>
    var clock: int
    var total: int
    // address_days_recount: batches that reported a moved first_seen since the days were last counted.
    var moves: int

    function State(): Tables
      reads this
    {
      Tables(rows, blocks, floor, reverted, clock, total)
    }

    /** A block's address_stats rows, upserted in the order of its sorted addresses. */
    method WriteBlock(n: int, stats: Contributions, order: seq<Address>)
      requires DistinctKeys(order, Self) && Elements(order) == stats.Keys
      modifies this
      ensures State() == Ingest(old(State()), n, stats)
      ensures moves == old(moves)
    {
      if n in blocks {
        return;
      }
      var t' := WriteTables(State(), n, stats, order);
      rows, blocks, total := t'.rows, t'.blocks, t'.total;
    }

    /**
     A reverted block's addresses taken off in order, each row read before it is decided, then stamped for the next
     rebase. The caller's reverts never reach below the retained blocks.
     */
    method RevertBlock(n: int, order: seq<Address>)
      requires n in blocks ==> DistinctKeys(order, Self) && Elements(order) == blocks[n].Keys
      modifies this
      ensures State() == Revert(old(State()), n)
      ensures moves == old(moves)
    {
      if n !in blocks {
        return;
      }
      var t' := RevertTables(State(), n, order);
      rows, blocks, reverted, clock, total := t'.rows, t'.blocks, t'.reverted, t'.clock, t'.total;
    }

    /** A rebase batch's transaction once its rows are taken; read is what its snapshot saw. */
    method RebaseBatch(read: seq<RebaseRow>) returns (r: RebaseResult)
      requires DistinctKeys(read, AddressOf)
      modifies this
      ensures BatchApplied(old(State()), read, State())
      ensures moves == old(moves) + if LeastMoved(old(State()), read, |read|).Some? then 1 else 0
    {
      var t';
      t', r := RebaseTables(State(), read);
      rows, reverted, total := t'.rows, t'.reverted, t'.total;
      if r.firstSeenFrom.Some? {
        moves := moves + 1;
      }
    }
  }
}
