/**
 The address_stats rebase. A batch reads each address's row and its truth in one snapshot, lets ingest and reverts
 commit, and later adds truth - row to the row it finds. Reverts subtract with a floor at zero and move first_seen and
 last_seen, so a version stamp per reverted address says which rows are counted again under their lock instead.
 */
module AddressRebase {
  import opened Sums

  type Address = int

  // ---------- the tables ----------

  datatype Counts = Counts(txs: int, sent: int, internal: int, transfers: int)
  {
    function Plus(o: Counts): Counts {
      Counts(txs + o.txs, sent + o.sent, internal + o.internal, transfers + o.transfers)
    }
    function Minus(o: Counts): Counts {
      Counts(txs - o.txs, sent - o.sent, internal - o.internal, transfers - o.transfers)
    }
    /** A revert's subtraction: each counter stops at zero. */
    function Floored(): Counts {
      Counts(Floor(txs), Floor(sent), Floor(internal), Floor(transfers))
    }
    predicate Natural() { txs >= 0 && sent >= 0 && internal >= 0 && transfers >= 0 }
  }

  const ZERO := Counts(0, 0, 0, 0)

  datatype Row = Row(counts: Counts, first: Option<int>, last: Option<int>)

  const EMPTY := Row(ZERO, None, None)

  /** What one stored block counts for each address it saw. */
  type Contributions = map<Address, Counts>

  /**
   rows is address_stats, total the addresses_total counter, reverted the versions of ledger_reverted_address and clock
   the next version. blocks is every block counted, the closed ledger's included; those below floor keep no rows of
   their own (history_from), only their ledger totals.
   */
  datatype Tables = Tables(rows: map<Address, Row>, blocks: map<int, Contributions>, floor: int,
                           reverted: map<Address, int>, clock: int, total: int)

  ghost predicate WellFormed(t: Tables) {
    && (forall a :: a in t.reverted ==> t.reverted[a] < t.clock)
    && (forall n, a :: n in t.blocks && a in t.blocks[n] ==> t.blocks[n][a].Natural())
  }

  // ---------- the truth ----------

  function Seen(blocks: map<int, Contributions>, a: Address): set<int> {
    set n | n in blocks && a in blocks[n]
  }

  function Of(blocks: map<int, Contributions>, n: int, a: Address): Counts {
    if n in blocks && a in blocks[n] then blocks[n][a] else ZERO
  }

  function Total(blocks: map<int, Contributions>, s: set<int>, a: Address): Counts {
    if s == {} then ZERO else
      var n := Min(s);
      Of(blocks, n, a).Plus(Total(blocks, s - {n}, a))
  }

  /** ledger_address_truth: the sums over every block that saw the address, and the first and last such block. */
  function Truth(blocks: map<int, Contributions>, a: Address): Option<Row> {
    var s := Seen(blocks, a);
    if s == {} then None else Some(Row(Total(blocks, s, a), MinOf(s), MaxOf(s)))
  }

  lemma {:induction false} MinStays(s: set<int>, n: int)
    requires s != {} && n != Min(s)
    ensures s - {n} != {} && Min(s - {n}) == Min(s)
  {
    assert Min(s) in s - {n};
  }

  lemma {:induction false} PlusSwaps(x: Counts, y: Counts, z: Counts)
    ensures x.Plus(y.Plus(z)) == y.Plus(x.Plus(z))
  {
  }

  lemma {:induction false} TotalExtract(blocks: map<int, Contributions>, s: set<int>, a: Address, n: int)
    requires n in s
    ensures Total(blocks, s, a) == Of(blocks, n, a).Plus(Total(blocks, s - {n}, a))
    decreases |s|
  {
    var m := Min(s);
    if m != n {
      var less, rest := s - {n}, s - {m} - {n};
      TotalExtract(blocks, s - {m}, a, n);
      MinStays(s, n);
      assert less - {m} == rest;
      PlusSwaps(Of(blocks, m, a), Of(blocks, n, a), Total(blocks, rest, a));
    }
  }

  lemma {:induction false} TotalCong(b: map<int, Contributions>, c: map<int, Contributions>, s: set<int>, a: Address)
    requires forall n :: n in s ==> Of(b, n, a) == Of(c, n, a)
    ensures Total(b, s, a) == Total(c, s, a)
    decreases |s|
  {
    if s != {} {
      TotalCong(b, c, s - {Min(s)}, a);
    }
  }

  lemma {:induction false} TotalNatural(blocks: map<int, Contributions>, s: set<int>, a: Address)
    requires forall n :: n in s ==> Of(blocks, n, a).Natural()
    ensures Total(blocks, s, a).Natural()
    decreases |s|
  {
    if s != {} {
      TotalNatural(blocks, s - {Min(s)}, a);
    }
  }

  // ---------- ingest ----------

  /** The address_stats upsert of one address of a written block. */
  function IngestRow(row: Option<Row>, n: int, c: Counts): Row {
    if row.None? then Row(c, Some(n), Some(n))
    else Row(row.value.counts.Plus(c), Least(row.value.first, Some(n)), Greatest(row.value.last, Some(n)))
  }

  /** A block's commit; a block another writer has stored already changes nothing. */
  function Ingest(t: Tables, n: int, b: Contributions): Tables {
    if n in t.blocks then t else
      t.(rows := map a | a in t.rows.Keys + b.Keys ::
                   if a in b then IngestRow(Get(t.rows, a), n, b[a]) else t.rows[a],
         blocks := t.blocks[n := b],
         total := t.total + |b.Keys - t.rows.Keys|)
  }

  // ---------- revert ----------

  /**
   One address of a reverted block n, which counted c for it; seen is every block that saw it. The remaining first and
   last blocks are read from the retained rows; with none left the row's own first_seen decides whether older, pruned
   blocks saw the address, and last_seen comes from the closed ledger.
   */
  function RevertedRow(row: Option<Row>, seen: set<int>, floor: int, n: int, c: Counts): Option<Row> {
    var others := seen - {n};
    var kept := set m | m in others && m >= floor;
    var first, last := MinOf(kept), MaxOf(kept);
    var stillSeen := row.Some? && row.value.first.Some? && row.value.first.value < n;
    if last.None? && !stillSeen then None
    else if row.None? then None
    else
      var r := row.value;
      var last' := if last.None? then MaxOf(others) else last;
      Some(Row(r.counts.Minus(c).Floored(),
               if r.first.Some? && r.first.value >= n && first.Some? then first else r.first,
               if r.last.Some? && r.last.value >= n && last'.Some? then last' else r.last))
  }

  function RevertRow(t: Tables, n: int, a: Address): Option<Row> {
    RevertedRow(Get(t.rows, a), Seen(t.blocks, a), t.floor, n, Of(t.blocks, n, a))
  }

  function RevertRows(t: Tables, n: int): map<Address, Row>
    requires n in t.blocks
  {
    map a | a in t.rows && (a in t.blocks[n] ==> RevertRow(t, n, a).Some?) ::
      if a in t.blocks[n] then RevertRow(t, n, a).value else t.rows[a]
  }

  function Stamped(t: Tables, n: int): map<Address, int>
    requires n in t.blocks
  {
    map a | a in t.reverted.Keys + t.blocks[n].Keys :: if a in t.blocks[n] then t.clock else t.reverted[a]
  }

  /** A block's revert: its addresses' rows, then their stamps, and addresses_total by the rows it removed. */
  function Revert(t: Tables, n: int): Tables {
    if n !in t.blocks then t else
      var rows := RevertRows(t, n);
      Tables(rows, t.blocks - {n}, t.floor,
             Stamped(t, n), t.clock + 1, Floor(t.total - |t.rows.Keys - rows.Keys|))
  }

  // ---------- the rebase batch ----------

  /** One address as a batch reads it, in one snapshot: its row (zeros when missing), its truth, its stamp. */
  datatype RebaseRow = RebaseRow(address: Address, creatable: bool, present: bool, row: Row, want: Option<Row>,
                                 stamp: Option<int>)
  {
    function Wanted(): Row { if want.Some? then want.value else EMPTY }
    predicate Differs() { row != Wanted() }
    predicate Creates() { !present && want.Some? && creatable && Differs() }
  }

  function Read(t: Tables, a: Address, creatable: bool): RebaseRow {
    var row := Get(t.rows, a);
    RebaseRow(a, creatable, row.Some?, if row.Some? then row.value else EMPTY, Truth(t.blocks, a), Get(t.reverted, a))
  }

  /** A stamp the read did not see. */
  predicate Stale(t: Tables, v: RebaseRow) {
    v.address in t.reverted && v.stamp != Some(t.reverted[v.address])
  }

  /** first_seen of a corrected row, as the CASE of its UPDATE; truth is the address's truth counted now. */
  function CorrectFirst(now: Option<int>, read: Option<int>, want: Option<int>, truth: Option<int>): Option<int> {
    if now != read then Least(now, want) else if want == read then now else truth
  }

  function CorrectLast(now: Option<int>, read: Option<int>, want: Option<int>, truth: Option<int>): Option<int> {
    if now != read then Greatest(now, want) else if want == read then now else truth
  }

  /** What one of a batch's writes leaves of its address's row: cur is the row it finds, truth the truth then. */
  function Applied(v: RebaseRow, cur: Option<Row>, truth: Option<Row>, stale: bool): Option<Row> {
    if v.present && (v.want.None? || stale) then
      (if truth.None? || cur.None? then None else truth)
    else if v.present && v.Differs() then
      (if cur.None? then None else
         var r := cur.value;
         Some(Row(r.counts.Plus(v.Wanted().counts.Minus(v.row.counts)),
                  CorrectFirst(r.first, v.row.first, v.Wanted().first, if truth.Some? then truth.value.first else None),
                  CorrectLast(r.last, v.row.last, v.Wanted().last, if truth.Some? then truth.value.last else None))))
    else if v.Creates() && stale then truth
    else if v.Creates() then
      var r := if cur.Some? then cur.value else EMPTY;
      Some(Row(r.counts.Plus(v.Wanted().counts), Least(r.first, v.Wanted().first), Greatest(r.last, v.Wanted().last)))
    else cur
  }

  function AppliedTo(t: Tables, v: RebaseRow): Option<Row> {
    Applied(v, Get(t.rows, v.address), Truth(t.blocks, v.address), Stale(t, v))
  }

  ghost predicate DistinctAddresses(read: seq<RebaseRow>) {
    forall i, j :: 0 <= i < j < |read| ==> read[i].address != read[j].address
  }

  ghost predicate Reads(read: seq<RebaseRow>, a: Address) {
    exists i :: 0 <= i < |read| && read[i].address == a
  }

  /** Each read address's row is as its write leaves it, and no other row has changed. */
  ghost predicate RowsApplied(t: Tables, read: seq<RebaseRow>, rows: map<Address, Row>) {
    && (forall i :: 0 <= i < |read| ==> Get(rows, read[i].address) == AppliedTo(t, read[i]))
    && (forall a :: !Reads(read, a) ==> Get(rows, a) == Get(t.rows, a))
  }

  function ClearStamp(v: RebaseRow, stamp: Option<int>): Option<int> {
    if v.stamp.Some? && v.stamp == stamp then None else stamp
  }

  /** The stamps the snapshot saw are cleared, unless a revert has renewed them. */
  ghost predicate StampsCleared(t: Tables, read: seq<RebaseRow>, reverted: map<Address, int>) {
    && (forall i :: 0 <= i < |read| ==>
          Get(reverted, read[i].address) == ClearStamp(read[i], Get(t.reverted, read[i].address)))
    && (forall a :: !Reads(read, a) ==> Get(reverted, a) == Get(t.reverted, a))
  }

  /** The state a committed batch leaves; addresses_total moves by the rows it created and removed. */
  ghost predicate BatchApplied(t: Tables, read: seq<RebaseRow>, t': Tables) {
    && t'.blocks == t.blocks && t'.floor == t.floor && t'.clock == t.clock
    && RowsApplied(t, read, t'.rows)
    && StampsCleared(t, read, t'.reverted)
    && t'.total - t.total == |t'.rows| - |t.rows|
  }

  // ---------- runs ----------

  /** What can commit between a batch's read and its writes; another batch never holds the same address meanwhile. */
  datatype Step = Write(number: int, block: Contributions) | Undo(number: int) | Batch(read: seq<RebaseRow>)

  ghost predicate Next(t: Tables, s: Step, t': Tables) {
    match s
    case Write(n, b) => (forall a :: a in b ==> b[a].Natural()) && t' == Ingest(t, n, b)
    case Undo(n) => n >= t.floor && t' == Revert(t, n)
    case Batch(read) => DistinctAddresses(read) && BatchApplied(t, read, t')
  }

  ghost predicate Run(states: seq<Tables>, steps: seq<Step>) {
    |states| == |steps| + 1 && forall i :: 0 <= i < |steps| ==> NextAt(states, steps, i)
  }

  ghost predicate NextAt(states: seq<Tables>, steps: seq<Step>, i: int)
    requires |states| == |steps| + 1 && 0 <= i < |steps|
  {
    Next(states[i], steps[i], states[i + 1])
  }

  ghost predicate Leaves(s: Step, a: Address) { s.Batch? ==> !Reads(s.read, a) }

  ghost predicate LeavesAlone(steps: seq<Step>, a: Address) { forall i :: 0 <= i < |steps| ==> Leaves(steps[i], a) }

  ghost predicate Right(t: Tables, a: Address) { WellFormed(t) && Get(t.rows, a) == Truth(t.blocks, a) }

  // ---------- one address's part of the tables ----------

  datatype View = View(row: Option<Row>, seen: set<int>, counted: Counts, stamp: Option<int>)
  {
    function Truth(): Option<Row> {
      if seen == {} then None else Some(Row(counted, MinOf(seen), MaxOf(seen)))
    }
    ghost predicate Consistent() { row == Truth() }
    function Shown(): Row { if row.Some? then row.value else EMPTY }
    function Drift(): Counts { Shown().counts.Minus(counted) }
  }

  function ViewOf(t: Tables, a: Address): (v: View)
    ensures v.Truth() == Truth(t.blocks, a)
  {
    View(Get(t.rows, a), Seen(t.blocks, a), Total(t.blocks, Seen(t.blocks, a), a), Get(t.reverted, a))
  }

  lemma {:induction false} CountedIngest(blocks: map<int, Contributions>, n: int, b: Contributions, a: Address)
    requires n !in blocks
    ensures Seen(blocks[n := b], a) == Seen(blocks, a) + if a in b then {n} else {}
    ensures Total(blocks[n := b], Seen(blocks[n := b], a), a) ==
            Total(blocks, Seen(blocks, a), a).Plus(if a in b then b[a] else ZERO)
  {
    var blocks' := blocks[n := b];
    var s := Seen(blocks, a);
    assert forall m :: m in s ==> Of(blocks', m, a) == Of(blocks, m, a);
    TotalCong(blocks', blocks, s, a);
    if a in b {
      assert Seen(blocks', a) == s + {n};
      TotalExtract(blocks', s + {n}, a, n);
      assert s + {n} - {n} == s;
    } else {
      assert Seen(blocks', a) == s;
    }
  }

  lemma {:induction false} CountedRevert(blocks: map<int, Contributions>, n: int, a: Address)
    requires n in blocks
    ensures Seen(blocks - {n}, a) == Seen(blocks, a) - {n}
    ensures Total(blocks - {n}, Seen(blocks - {n}, a), a) == Total(blocks, Seen(blocks, a), a).Minus(Of(blocks, n, a))
  {
    var s := Seen(blocks, a);
    assert Seen(blocks - {n}, a) == s - {n};
    assert forall m :: m in s - {n} ==> Of(blocks - {n}, m, a) == Of(blocks, m, a);
    TotalCong(blocks - {n}, blocks, s - {n}, a);
    if n in s {
      TotalExtract(blocks, s, a, n);
    } else {
      assert s - {n} == s;
    }
  }

  lemma {:induction false} RowIngest(t: Tables, n: int, b: Contributions, a: Address)
    requires n !in t.blocks
    ensures Get(Ingest(t, n, b).rows, a) == if a in b then Some(IngestRow(Get(t.rows, a), n, b[a])) else Get(t.rows, a)
  {
  }

  lemma {:induction false} RowRevert(t: Tables, n: int, a: Address)
    requires n in t.blocks
    ensures Get(Revert(t, n).rows, a) == if a in t.blocks[n] then RevertRow(t, n, a) else Get(t.rows, a)
    ensures Get(Revert(t, n).reverted, a) == if a in t.blocks[n] then Some(t.clock) else Get(t.reverted, a)
  {
  }

  lemma {:induction false} ViewIngest(t: Tables, n: int, b: Contributions, a: Address)
    requires n !in t.blocks
    ensures var v := ViewOf(t, a);
            ViewOf(Ingest(t, n, b), a) ==
            if a in b then View(Some(IngestRow(v.row, n, b[a])), v.seen + {n}, v.counted.Plus(b[a]), v.stamp) else v
  {
    CountedIngest(t.blocks, n, b, a);
    RowIngest(t, n, b, a);
  }

  lemma {:induction false} ViewRevert(t: Tables, n: int, a: Address)
    requires n in t.blocks
    ensures var v := ViewOf(t, a);
            ViewOf(Revert(t, n), a) ==
            if a in t.blocks[n] then
              View(RevertRow(t, n, a), v.seen - {n}, v.counted.Minus(t.blocks[n][a]), Some(t.clock)) else v
  {
    CountedRevert(t.blocks, n, a);
    RowRevert(t, n, a);
    if a !in t.blocks[n] {
      assert Seen(t.blocks, a) - {n} == Seen(t.blocks, a);
    }
  }

  lemma {:induction false} ViewBatch(t: Tables, read: seq<RebaseRow>, t': Tables, a: Address)
    requires BatchApplied(t, read, t') && !Reads(read, a)
    ensures ViewOf(t', a) == ViewOf(t, a)
  {
  }

  // ---------- rows that start right stay right ----------

  lemma {:induction false} TruthGrows(v: View, n: int, c: Counts)
    ensures View(v.row, v.seen + {n}, v.counted.Plus(c), v.stamp).Truth() ==
            Some(if v.seen == {} then Row(v.counted.Plus(c), Some(n), Some(n)) else IngestRow(v.Truth(), n, c))
  {
    MinMaxOfAdd(v.seen, n);
  }

  /** A revert of a right row needs no floor, and finds the first and last blocks that remain. */
  lemma {:induction false} RevertKeepsRight(v: View, floor: int, n: int, c: Counts)
    requires v.Consistent() && n in v.seen && n >= floor
    requires v.counted.Minus(c).Natural() && (v.seen == {n} ==> v.counted == c)
    ensures RevertedRow(v.row, v.seen, floor, n, c) == View(None, v.seen - {n}, v.counted.Minus(c), None).Truth()
  {
    var others := v.seen - {n};
    var kept := set m | m in others && m >= floor;
    if MinOf(v.seen).value == n {
      assert kept == others;
      if others == {} {
        assert v.seen == {n};
      }
    } else {
      assert MinOf(v.seen).value in others;
      assert kept != {} ==> MaxOf(others).value in kept;
    }
  }

  predicate RetainedOther(seen: set<int>, floor: int, n: int, m: int) { m in seen && m != n && m >= floor }

  ghost predicate LeastRetained(seen: set<int>, floor: int, n: int, f: int) {
    RetainedOther(seen, floor, n, f) && forall m :: RetainedOther(seen, floor, n, m) ==> f <= m
  }

  ghost predicate GreatestOther(seen: set<int>, n: int, l: int) {
    l in seen && l != n && forall m :: m in seen && m != n ==> m <= l
  }

  /**
   A revert of any row, a drifted one included: the row goes exactly when no other retained block saw the address and
   its own first_seen is not below n. A first or last block from n up is replaced, a lower one kept.
   */
  lemma {:induction false} RevertedExactly(row: Row, seen: set<int>, floor: int, n: int, c: Counts)
    ensures var r := RevertedRow(Some(row), seen, floor, n, c);
            && (r.None? <==> (forall m :: !RetainedOther(seen, floor, n, m))
                             && (row.first.None? || row.first.value >= n))
            && (r.Some? ==>
                  && r.value.counts == row.counts.Minus(c).Floored()
                  && (if row.first.None? || row.first.value < n then r.value.first == row.first
                      else r.value.first.Some? && LeastRetained(seen, floor, n, r.value.first.value))
                  && (if row.last.None? || row.last.value < n || seen <= {n} then r.value.last == row.last
                      else r.value.last.Some? && GreatestOther(seen, n, r.value.last.value)))
  {
    var others := seen - {n};
    var kept := set m | m in others && m >= floor;
    assert forall m :: m in kept <==> RetainedOther(seen, floor, n, m);
    assert forall m :: m in others <==> m in seen && m != n;
    assert seen <= {n} <==> others == {};
    if kept != {} {
      var top := MaxOf(kept).value;
      assert top in kept;
      forall m | m in seen && m != n ensures m <= top {
        assert m in kept || m < floor;
      }
    }
  }

  lemma {:induction false} ConsistentIngest(t: Tables, n: int, b: Contributions, a: Address)
    requires ViewOf(t, a).Consistent() && n !in t.blocks
    ensures ViewOf(Ingest(t, n, b), a).Consistent()
  {
    ViewIngest(t, n, b, a);
    if a in b {
      TruthGrows(ViewOf(t, a), n, b[a]);
      assert Seen(t.blocks, a) == {} ==> ViewOf(t, a).counted == ZERO;
    }
  }

  lemma {:induction false} CountedWithout(t: Tables, n: int, a: Address)
    requires WellFormed(t) && n in t.blocks && a in t.blocks[n]
    ensures var v := ViewOf(t, a);
            n in v.seen && v.counted.Minus(t.blocks[n][a]).Natural() && (v.seen == {n} ==> v.counted == t.blocks[n][a])
  {
    var seen := Seen(t.blocks, a);
    TotalExtract(t.blocks, seen, a, n);
    TotalNatural(t.blocks, seen - {n}, a);
  }

  lemma {:induction false} ConsistentRevert(t: Tables, n: int, a: Address)
    requires WellFormed(t) && ViewOf(t, a).Consistent() && n in t.blocks && n >= t.floor
    ensures ViewOf(Revert(t, n), a).Consistent()
  {
    ViewRevert(t, n, a);
    if a in t.blocks[n] {
      CountedWithout(t, n, a);
      RevertKeepsRight(ViewOf(t, a), t.floor, n, t.blocks[n][a]);
    }
  }

  lemma {:induction false} ConsistentNext(t: Tables, s: Step, t': Tables, a: Address)
    requires WellFormed(t) && ViewOf(t, a).Consistent() && Next(t, s, t') && (s.Batch? ==> !Reads(s.read, a))
    ensures ViewOf(t', a).Consistent()
  {
    match s
    case Write(n, b) => if n !in t.blocks { ConsistentIngest(t, n, b, a); }
    case Undo(n) => if n in t.blocks { ConsistentRevert(t, n, a); }
    case Batch(read) => ViewBatch(t, read, t', a);
  }

  lemma {:induction false} WellFormedBatch(t: Tables, read: seq<RebaseRow>, t': Tables)
    requires WellFormed(t) && BatchApplied(t, read, t')
    ensures WellFormed(t') && t'.clock >= t.clock
  {
    forall a | a in t'.reverted ensures t'.reverted[a] < t'.clock {
      if Reads(read, a) {
        var i :| 0 <= i < |read| && read[i].address == a;
      }
      assert Get(t'.reverted, a) == Get(t.reverted, a);
    }
  }

  lemma {:induction false} WellFormedIngest(t: Tables, n: int, b: Contributions)
    requires WellFormed(t) && forall a :: a in b ==> b[a].Natural()
    ensures WellFormed(Ingest(t, n, b)) && Ingest(t, n, b).clock == t.clock
  {
  }

  lemma {:induction false} WellFormedRevert(t: Tables, n: int)
    requires WellFormed(t)
    ensures WellFormed(Revert(t, n)) && Revert(t, n).clock >= t.clock
  {
  }

  lemma {:induction false} WellFormedNext(t: Tables, s: Step, t': Tables)
    requires WellFormed(t) && Next(t, s, t')
    ensures WellFormed(t') && t'.clock >= t.clock
  {
    match s
    case Write(n, b) => WellFormedIngest(t, n, b);
    case Undo(n) => WellFormedRevert(t, n);
    case Batch(read) => WellFormedBatch(t, read, t');
  }

  // ---------- whole runs between a read and its writes ----------

  /**
   The row has moved exactly as its truth has since v: every block that saw the address since is counted in both, so
   the row is as far from its truth as it was, and first_seen and last_seen have taken the new blocks in.
   */
  ghost predicate Tracks(v: View, w: View) {
    && v.seen <= w.seen
    && w.stamp == v.stamp
    && (w.seen == v.seen ==> w.row == v.row)
    && (w.seen != v.seen ==> w.row.Some?)
    && w.Drift() == v.Drift()
    && w.Shown().first == Least(v.Shown().first, MinOf(w.seen - v.seen))
    && w.Shown().last == Greatest(v.Shown().last, MaxOf(w.seen - v.seen))
  }

  lemma {:induction false} TracksIngest(v: View, w: View, n: int, c: Counts)
    requires Tracks(v, w) && n !in w.seen
    ensures Tracks(v, View(Some(IngestRow(w.row, n, c)), w.seen + {n}, w.counted.Plus(c), w.stamp))
  {
    assert w.seen + {n} - v.seen == (w.seen - v.seen) + {n};
    assert n in w.seen + {n} && n !in v.seen;
    MinMaxOfAdd(w.seen - v.seen, n);
  }

  /** Since a read, either no revert has touched the address and its row tracks its truth, or its stamp is new. */
  ghost predicate TracksOrStamped(t: Tables, u: Tables, a: Address) {
    Tracks(ViewOf(t, a), ViewOf(u, a)) || (a in u.reverted && u.reverted[a] >= t.clock)
  }

  lemma {:induction false} TracksOrStampedNext(t: Tables, u: Tables, s: Step, u': Tables, a: Address)
    requires u.clock >= t.clock
    requires TracksOrStamped(t, u, a) && Next(u, s, u') && (s.Batch? ==> !Reads(s.read, a))
    ensures TracksOrStamped(t, u', a)
  {
    match s
    case Write(n, b) =>
      if n !in u.blocks {
        ViewIngest(u, n, b, a);
        if a in b && Tracks(ViewOf(t, a), ViewOf(u, a)) {
          TracksIngest(ViewOf(t, a), ViewOf(u, a), n, b[a]);
        }
      }
    case Undo(n) =>
      if n in u.blocks { ViewRevert(u, n, a); }
    case Batch(read) =>
      ViewBatch(u, read, u', a);
      assert Get(u'.reverted, a) == Get(u.reverted, a);
  }

  lemma {:induction false} RunTracksOrStamped(states: seq<Tables>, steps: seq<Step>, a: Address, k: int)
    requires Run(states, steps) && LeavesAlone(steps, a) && WellFormed(states[0]) && 0 <= k <= |steps|
    ensures WellFormed(states[k]) && states[k].clock >= states[0].clock
    ensures TracksOrStamped(states[0], states[k], a)
    decreases k
  {
    if k == 0 {
      var v := ViewOf(states[0], a);
      assert v.seen - v.seen == {};
    } else {
      RunTracksOrStamped(states, steps, a, k - 1);
      TracksAt(states, steps, a, k - 1);
    }
  }

  lemma {:induction false} TracksAt(states: seq<Tables>, steps: seq<Step>, a: Address, i: int)
    requires Run(states, steps) && LeavesAlone(steps, a) && 0 <= i < |steps|
    requires WellFormed(states[i]) && states[i].clock >= states[0].clock && TracksOrStamped(states[0], states[i], a)
    requires WellFormed(states[0])
    ensures WellFormed(states[i + 1]) && states[i + 1].clock >= states[0].clock
    ensures TracksOrStamped(states[0], states[i + 1], a)
  {
    assert NextAt(states, steps, i);
    assert Leaves(steps[i], a);
    WellFormedNext(states[i], steps[i], states[i + 1]);
    TracksOrStampedNext(states[0], states[i], steps[i], states[i + 1], a);
  }

  /** A row equal to its truth stays equal through every run of ingest, reverts and rebases of other addresses. */
  lemma {:induction false} RunConsistent(states: seq<Tables>, steps: seq<Step>, a: Address, k: int)
    requires Run(states, steps) && LeavesAlone(steps, a) && Right(states[0], a) && 0 <= k <= |steps|
    ensures Right(states[k], a)
    decreases k
  {
    if k > 0 {
      RunConsistent(states, steps, a, k - 1);
      ConsistentAt(states, steps, a, k - 1);
    }
  }

  lemma {:induction false} ConsistentAt(states: seq<Tables>, steps: seq<Step>, a: Address, i: int)
    requires Run(states, steps) && LeavesAlone(steps, a) && 0 <= i < |steps| && Right(states[i], a)
    ensures Right(states[i + 1], a)
  {
    assert NextAt(states, steps, i);
    assert Leaves(steps[i], a);
    WellFormedNext(states[i], steps[i], states[i + 1]);
    ConsistentNext(states[i], steps[i], states[i + 1], a);
  }

  // ---------- the rebase theorem ----------

  lemma {:induction false} ExtremesUnion(s: set<int>, u: set<int>)
    requires s != {}
    ensures MinOf(s + u) == Least(MinOf(s), MinOf(u)) && MaxOf(s + u) == Greatest(MaxOf(s), MaxOf(u))
  {
    assert MinOf(s).value in s + u && MaxOf(s).value in s + u;
    if u == {} {
      assert s + u == s;
    } else {
      assert MinOf(u).value in s + u && MaxOf(u).value in s + u;
    }
  }

  /** Added to the row found later, the correction of a read with a truth gives the truth then. */
  lemma {:induction false} CorrectionReachesTruth(v: View, w: View, a: Address, creatable: bool)
    requires Tracks(v, w) && v.seen != {} && (v.row.Some? || creatable)
    ensures var r := RebaseRow(a, creatable, v.row.Some?, v.Shown(), v.Truth(), v.stamp);
            Applied(r, w.row, w.Truth(), false) == w.Truth()
  {
    assert v.seen + (w.seen - v.seen) == w.seen;
    ExtremesUnion(v.seen, w.seen - v.seen);
  }

  /**
   For any drift at the read and any run of ingest, reverts and other batches after it, the batch leaves every address
   that had a row at the read, or may have one created, with a row exactly when it has a truth, and equal to it. Only
   a row that was there at the read and is gone by the writes, which a revert since has removed, stays gone.
   */
  lemma {:induction false} RebaseReachesTruth(states: seq<Tables>, steps: seq<Step>, a: Address, creatable: bool,
                                              read: seq<RebaseRow>, t': Tables)
    requires Run(states, steps) && LeavesAlone(steps, a) && WellFormed(states[0])
    requires a in states[0].rows || creatable
    requires Read(states[0], a, creatable) in read && DistinctAddresses(read)
    requires BatchApplied(states[|steps|], read, t')
    ensures Get(t'.rows, a) ==
            if a in states[0].rows && a !in states[|steps|].rows then None else Truth(t'.blocks, a)
  {
    var t, u := states[0], states[|steps|];
    var r := Read(t, a, creatable);
    var i :| 0 <= i < |read| && read[i] == r;
    assert Get(t'.rows, read[i].address) == AppliedTo(u, r);
    RunTracksOrStamped(states, steps, a, |steps|);
    if Stale(u, r) {
      if !r.present && !r.Creates() {
        assert Get(t.rows, a) == Truth(t.blocks, a);
        RunConsistent(states, steps, a, |steps|);
      }
    } else if Truth(t.blocks, a).None? {
      if !r.present {
        RunConsistent(states, steps, a, |steps|);
      }
    } else {
      assert Tracks(ViewOf(t, a), ViewOf(u, a));
      CorrectionReachesTruth(ViewOf(t, a), ViewOf(u, a), a, creatable);
    }
  }

  // ---------- addresses_total ----------

  lemma {:induction false} IngestedKeys(t: Tables, n: int, b: Contributions)
    requires n !in t.blocks
    ensures Ingest(t, n, b).rows.Keys == t.rows.Keys + (b.Keys - t.rows.Keys)
  {
  }

  lemma {:induction false} IngestedRows(t: Tables, n: int, b: Contributions)
    requires n !in t.blocks
    ensures |Ingest(t, n, b).rows| == |t.rows| + |b.Keys - t.rows.Keys|
  {
    IngestedKeys(t, n, b);
    var keys := Ingest(t, n, b).rows.Keys;
    assert |Ingest(t, n, b).rows| == |keys|;
  }

  lemma {:induction false} RevertedRows(t: Tables, n: int)
    requires n in t.blocks
    ensures |t.rows| == |RevertRows(t, n)| + |t.rows.Keys - RevertRows(t, n).Keys|
  {
    var rows := RevertRows(t, n);
    assert rows.Keys <= t.rows.Keys;
    assert t.rows.Keys == rows.Keys + (t.rows.Keys - rows.Keys);
    assert |rows| == |rows.Keys| && |t.rows| == |t.rows.Keys|;
  }

  /** addresses_total is the number of address_stats rows, kept by every step. */
  lemma {:induction false} TotalIsRows(t: Tables, s: Step, t': Tables)
    requires Next(t, s, t') && t.total == |t.rows|
    ensures t'.total == |t'.rows|
  {
    match s
    case Write(n, b) => IngestTotal(t, n, b);
    case Undo(n) => RevertTotal(t, n);
    case Batch(read) =>
  }

  lemma {:induction false} IngestTotal(t: Tables, n: int, b: Contributions)
    requires t.total == |t.rows|
    ensures Ingest(t, n, b).total == |Ingest(t, n, b).rows|
  {
    if n !in t.blocks {
      IngestedRows(t, n, b);
    }
  }

  lemma {:induction false} RevertTotal(t: Tables, n: int)
    requires t.total == |t.rows|
    ensures Revert(t, n).total == |Revert(t, n).rows|
  {
    if n in t.blocks {
      RevertedRows(t, n);
    }
  }

  /** An address a revert stamps after the read stays recorded for the next rebase. */
  lemma {:induction false} RevertedSinceStaysRecorded(t: Tables, read: seq<RebaseRow>, t': Tables, a: Address)
    requires BatchApplied(t, read, t') && DistinctAddresses(read)
    ensures a in t'.reverted <==>
            a in t.reverted && !exists i ::
                0 <= i < |read| && read[i].address == a && read[i].stamp == Some(t.reverted[a])
  {
    if Reads(read, a) {
      var i :| 0 <= i < |read| && read[i].address == a;
      assert Get(t'.reverted, read[i].address).Some? <==> a in t'.reverted;
    } else {
      assert Get(t'.reverted, a) == Get(t.reverted, a);
    }
  }
}
