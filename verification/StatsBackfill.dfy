/**
 The stats backfill: batches of blocks counted into the spans of the ledger's grid, through failures, retries and
 resumes.
 */
module StatsBackfill {
  import opened Sums
  import opened Division
  import opened SpanTotals
  import C = SpanContents

  datatype Closed = Closed(hi: int, totals: Totals)

  /**
   through is the last block committed (-1 before the first), stage the totals of spans in progress, closed the spans
   in the ledger and open the span in progress.
   */
  datatype State = State(through: int, target: int, span: int, stage: map<int, Totals>, closed: map<int, Closed>,
                         open: Option<int>)

  // ---------- the grid ----------

  /** The start of the grid's span that holds block n: n less its remainder. */
  function SpanLo(span: int, n: int): int
    requires span > 0
    decreases n
  {
    if n < span then 0 else span + SpanLo(span, n - span)
  }

  lemma {:induction false} SpanLoIsRemainder(span: int, n: int)
    requires span > 0 && n >= 0
    ensures SpanLo(span, n) == n - n % span
    decreases n
  {
    if n < span {
      Remainder(span, 0, n);
    } else {
      SpanLoIsRemainder(span, n - span);
      RemainderRepeats(n, span);
    }
  }

  function SpanHi(s: State, lo: int): int { if lo + s.span < s.target + 1 then lo + s.span else s.target + 1 }

  /** lo starts a span of the grid below target + 1. */
  predicate Starts(s: State, lo: int)
    requires s.span > 0
  {
    0 <= lo <= s.target && SpanLo(s.span, lo) == lo
  }

  lemma {:induction false} SpanHolds(span: int, n: int)
    requires span > 0 && n >= 0
    ensures var lo := SpanLo(span, n); 0 <= lo <= n < lo + span && SpanLo(span, lo) == lo
    decreases n
  {
    if n >= span {
      SpanHolds(span, n - span);
    }
  }

  /** A block is in one span only. */
  lemma {:induction false} OneSpan(span: int, lo: int, n: int)
    requires span > 0 && 0 <= lo <= n < lo + span && SpanLo(span, lo) == lo
    ensures SpanLo(span, n) == lo
    decreases n
  {
    if lo >= span {
      OneSpan(span, lo - span, n - span);
    }
  }

  // ---------- a batch ----------

  function Larger(a: int, b: int): int { if a < b then b else a }

  function Smaller(a: int, b: int): int { if a < b then a else b }

  /** The part of a span that blocks from to to, to excluded, are. */
  function Part(s: State, data: int -> BlockData, from: int, to: int, lo: int): Option<Totals>
    requires s.span > 0
  {
    var (a, b) := (Larger(lo, from), Smaller(SpanHi(s, lo), to));
    if Starts(s, lo) && a < b then Some(Fold(data, a, b)) else None
  }

  /** What a batch holds: each span it touches with its share of it. */
  ghost predicate IsBatch(s: State, data: int -> BlockData, from: int, to: int, spans: map<int, Totals>)
    requires s.span > 0
  {
    forall lo :: Get(spans, lo) == Part(s, data, from, to, lo)
  }

  lemma {:induction false} PartGrows(s: State, data: int -> BlockData, from: int, n: int, x: int)
    requires s.span > 0 && 0 <= from <= n <= s.target
    ensures var was, now := Part(s, data, from, n, x), Part(s, data, from, n + 1, x);
            if x == SpanLo(s.span, n) then now == Some(Plus(if was.Some? then was.value else NOTHING, Of(data(n))))
                else now == was
  {
    SpanHolds(s.span, n);
    if x == SpanLo(s.span, n) {
      PlusNothing(Of(data(n)));
      assert Fold(data, n, n) == NOTHING;
    } else if Starts(s, x) && x <= n < SpanHi(s, x) {
      OneSpan(s.span, x, n);
    }
  }

  /** One block added to its span. */
  lemma {:induction false} BatchGrows(s: State, data: int -> BlockData, from: int, n: int, spans: map<int, Totals>,
                                      after: map<int, Totals>)
    requires s.span > 0 && 0 <= from <= n <= s.target && IsBatch(s, data, from, n, spans)
    requires var lo := SpanLo(s.span, n);
             after == spans[lo := Plus(if lo in spans then spans[lo] else NOTHING, Of(data(n)))]
    ensures IsBatch(s, data, from, n + 1, after)
  {
    forall x ensures Get(after, x) == Part(s, data, from, n + 1, x) {
      PartGrows(s, data, from, n, x);
      assert Get(spans, x) == Part(s, data, from, n, x);
    }
  }

  /** A failed batch's cache: the blocks it built before the one that failed, in order. */
  datatype Retry = Retry(from: int, to: int, built: seq<BlockData>)

  ghost predicate Cached(data: int -> BlockData, r: Retry) {
    |r.built| <= r.to - r.from && forall i :: 0 <= i < |r.built| ==> r.built[i] == data(r.from + i)
  }

  method AddToSpan(s: State, ghost data: int -> BlockData, ghost from: int, n: int, b: BlockData, spans: map<int,
                   Totals>)
    returns (spans': map<int, Totals>, ok: bool)
    requires s.span > 0 && 0 <= from <= n <= s.target && IsBatch(s, data, from, n, spans) && b == data(n)
    ensures ok <==> Counts(b)
    ensures ok ==> IsBatch(s, data, from, n + 1, spans')
  {
    var lo := SpanLo(s.span, n);
    var sum;
    sum, ok := AddBlock(if lo in spans then spans[lo] else NOTHING, b);
    spans' := spans[lo := sum];
    if ok {
      BatchGrows(s, data, from, n, spans, spans');
    }
  }

  /**
   Builds and merges the blocks of a batch; builds says which blocks build this time. What it returns is the same
   whether it starts anew or from the blocks an earlier failure left.
   */
  method Build(s: State, data: int -> BlockData, cache: Retry, builds: int -> bool)
    returns (spans: map<int, Totals>, r: Retry, ok: bool)
    requires s.span > 0 && 0 <= cache.from <= cache.to <= s.target + 1 && Cached(data, cache)
    ensures Cached(data, r) && r.from == cache.from && r.to == cache.to && |r.built| >= |cache.built|
    ensures ok ==> IsBatch(s, data, cache.from, cache.to, spans)
    ensures (forall n :: cache.from <= n < cache.to ==> builds(n) && Counts(data(n))) ==> ok
  {
    spans, r := map[], cache;
    for n := cache.from to cache.to
      invariant Cached(data, r) && r.from == cache.from && r.to == cache.to && n - r.from <= |r.built|
      invariant |r.built| >= |cache.built|
      invariant IsBatch(s, data, cache.from, n, spans)
    {
      var b;
      b, r, ok := Built(data, r, n, builds(n));
      if !ok {
        return;
      }
      spans, ok := AddToSpan(s, data, cache.from, n, b, spans);
      if !ok {
        return;
      }
    }
    ok := true;
  }

  /** A block of the batch: from the cache, or built now and kept there. */
  method Built(data: int -> BlockData, r: Retry, n: int, builds: bool) returns (b: BlockData, r': Retry, ok: bool)
    requires Cached(data, r) && r.from <= n < r.to && n - r.from <= |r.built|
    ensures Cached(data, r') && r'.from == r.from && r'.to == r.to && |r'.built| >= |r.built|
    ensures ok <==> builds || n - r.from < |r.built|
    ensures ok ==> b == data(n) && n - r.from < |r'.built|
  {
    b, r', ok := data(n), r, true;
    if n - r.from < |r.built| {
      b := r.built[n - r.from];
    } else if builds {
      r' := r.(built := r.built + [b]);
    } else {
      ok := false;
    }
  }

  class Backfiller {
    var retrying: Option<Retry>

    constructor ()
      ensures retrying == None
    {
      retrying := None;
    }

    ghost predicate Valid(data: int -> BlockData)
      reads this
    {
      retrying.Some? ==> Cached(data, retrying.value)
    }

    /** A batch that fails keeps what it built for its retry. */
    method Batch(s: State, data: int -> BlockData, from: int, to: int, builds: int -> bool)
      returns (spans: map<int, Totals>, ok: bool)
      requires s.span > 0 && 0 <= from <= to <= s.target + 1 && Valid(data)
      modifies this
      ensures Valid(data)
      ensures ok ==> IsBatch(s, data, from, to, spans) && retrying == None
      ensures !ok ==> retrying.Some? && retrying.value.from == from && retrying.value.to == to
      ensures (forall n :: from <= n < to ==> builds(n) && Counts(data(n))) ==> ok
    {
      var r := if retrying.Some? && retrying.value.from == from && retrying.value.to == to then retrying.value
          else Retry(from, to, []);
      spans, r, ok := Build(s, data, r, builds);
      retrying := if ok then None else Some(r);
    }
  }

  // ---------- the commit ----------

  predicate IsNext(s: State, from: int, to: int) { s.through + 1 == from < to && to - 1 <= s.target }

  function StagedWith(s: State, spans: map<int, Totals>, lo: int): Totals
    requires lo in spans
  {
    Plus(if lo in s.stage then s.stage[lo] else NOTHING, spans[lo])
  }

  function StageAfter(s: State, spans: map<int, Totals>, to: int, lo: int): Option<Totals> {
    if lo !in spans then Get(s.stage, lo)
    else if SpanHi(s, lo) <= to then None
    else Some(StagedWith(s, spans, lo))
  }

  function ClosedAfter(s: State, spans: map<int, Totals>, to: int, lo: int): Option<Closed> {
    if lo in spans && SpanHi(s, lo) <= to then Some(Closed(SpanHi(s, lo), StagedWith(s, spans, lo)))
    else Get(s.closed, lo)
  }

  /** A batch's share of each span staged, and the spans it completes moved into the ledger. */
  ghost predicate Lands(s: State, spans: map<int, Totals>, to: int, s': State) {
    && (forall lo :: Get(s'.stage, lo) == StageAfter(s, spans, to, lo))
    && (forall lo :: Get(s'.closed, lo) == ClosedAfter(s, spans, to, lo))
    && s'.through == to - 1 && s'.target == s.target && s'.span == s.span
    && (s'.open.Some? ==> s'.open.value in spans && SpanHi(s, s'.open.value) > to)
    && (s'.open.None? ==> forall lo :: lo in spans ==> SpanHi(s, lo) <= to)
  }

  /** The batch's spans in order: each staged, and moved into the ledger when the batch reaches its end. */
  method CommitSpans(s: State, spans: map<int, Totals>, los: seq<int>, to: int)
    returns (stage: map<int, Totals>, closed: map<int, Closed>, open: Option<int>)
    requires Distinct(los) && Elements(los) == spans.Keys
    ensures forall lo :: Get(stage, lo) == StageAfter(s, spans, to, lo)
    ensures forall lo :: Get(closed, lo) == ClosedAfter(s, spans, to, lo)
    ensures open.Some? ==> open.value in spans && SpanHi(s, open.value) > to
    ensures open.None? ==> forall lo :: lo in spans ==> SpanHi(s, lo) <= to
  {
    stage, closed, open := s.stage, s.closed, None;
    for i := 0 to |los|
      invariant forall lo ::
                  Get(stage, lo) == if lo in Elements(los[..i]) then StageAfter(s, spans, to, lo) else Get(s.stage, lo)
      invariant forall lo ::
                  Get(closed, lo) ==
                  if lo in Elements(los[..i]) then ClosedAfter(s, spans, to, lo) else Get(s.closed, lo)
      invariant Elements(los[..i]) <= spans.Keys
      invariant open.Some? ==> open.value in spans && SpanHi(s, open.value) > to
      invariant open.None? ==> forall lo :: lo in Elements(los[..i]) ==> SpanHi(s, lo) <= to
    {
      ElementsSnoc(los, i);
      assert los[i] in Elements(los);
      assert Get(stage, los[i]) == Get(s.stage, los[i]);
      var done;
      stage, closed, done := CommitSpan(s, spans, los[i], to, stage, closed);
      if !done {
        open := Some(los[i]);
      }
    }
    assert los[..|los|] == los;
  }

  /** One span: its share staged on top of what the stage holds, and all of it moved into the ledger once complete. */
  method CommitSpan(s: State, spans: map<int, Totals>, lo: int, to: int, stage: map<int, Totals>,
                    closed: map<int, Closed>)
    returns (stage': map<int, Totals>, closed': map<int, Closed>, done: bool)
    requires lo in spans && Get(stage, lo) == Get(s.stage, lo)
    ensures done == (SpanHi(s, lo) <= to)
    ensures stage' == Put(stage, lo, if done then None else Some(StagedWith(s, spans, lo)))
    ensures closed' == if done then Put(closed, lo, Some(Closed(SpanHi(s, lo), StagedWith(s, spans, lo)))) else closed
  {
    var sum := Plus(if lo in stage then stage[lo] else NOTHING, spans[lo]);
    done := SpanHi(s, lo) <= to;
    stage', closed' := Put(stage, lo, Some(sum)), closed;
    if done {
      closed' := Put(closed, lo, Some(Closed(SpanHi(s, lo), sum)));
      stage' := Put(stage, lo, None);
    }
  }

  function ClosedAt(s: State, data: int -> BlockData, lo: int): Option<Closed>
    requires s.span > 0
  {
    if Starts(s, lo) && SpanHi(s, lo) <= s.through + 1 then Some(Closed(SpanHi(s, lo), Fold(data, lo, SpanHi(s, lo))))
        else None
  }

  predicate InProgress(s: State, lo: int)
    requires s.span > 0
  {
    Starts(s, lo) && lo <= s.through && s.through + 1 < SpanHi(s, lo)
  }

  function StageAt(s: State, data: int -> BlockData, lo: int): Option<Totals>
    requires s.span > 0
  {
    if InProgress(s, lo) then Some(Fold(data, lo, s.through + 1)) else None
  }

  /**
   The ledger holds the spans of the grid that are complete, each the sum over its blocks, and the stage the one in
   progress.
   */
  ghost predicate Inv(s: State, data: int -> BlockData) {
    && s.span > 0 && -1 <= s.through <= s.target
    && (forall lo :: Get(s.closed, lo) == ClosedAt(s, data, lo))
    && (forall lo :: Get(s.stage, lo) == StageAt(s, data, lo))
    && (s.open.Some? ==> InProgress(s, s.open.value)) && (s.open.None? ==> forall lo :: !InProgress(s, lo))
  }

  lemma {:induction false} StagedIsSum(s: State, data: int -> BlockData, from: int, to: int, spans: map<int, Totals>,
                                       lo: int)
    requires Inv(s, data) && IsNext(s, from, to) && IsBatch(s, data, from, to, spans) && lo in spans
    ensures StagedWith(s, spans, lo) == Fold(data, lo, Smaller(SpanHi(s, lo), to)) && Starts(s, lo)
    ensures lo < to && from < SpanHi(s, lo)
  {
    assert Get(spans, lo) == Part(s, data, from, to, lo);
    assert Get(s.stage, lo) == StageAt(s, data, lo);
    PartSum(s, data, from, to, lo);
  }

  lemma {:induction false} PartSum(s: State, data: int -> BlockData, from: int, to: int, lo: int)
    requires s.span > 0 && IsNext(s, from, to) && Part(s, data, from, to, lo).Some?
    ensures var staged := StageAt(s, data, lo);
            Plus(if staged.Some? then staged.value else NOTHING, Part(s, data, from, to, lo).value) == Fold(data, lo,
                  Smaller(SpanHi(s, lo), to))
    ensures Starts(s, lo) && lo < to && from < SpanHi(s, lo)
  {
    if lo < from {
      FoldSplits(data, lo, from, Smaller(SpanHi(s, lo), to));
    } else {
      PlusNothing(Part(s, data, from, to, lo).value);
    }
  }

  lemma {:induction false} UntouchedSpan(s: State, data: int -> BlockData, from: int, to: int, spans: map<int,
                                         Totals>, lo: int)
    requires s.span > 0 && IsNext(s, from, to) && from >= 0 && IsBatch(s, data, from, to, spans) && lo !in spans
    requires Starts(s, lo)
    ensures lo >= to || SpanHi(s, lo) <= from
  {
    assert Get(spans, lo) == Part(s, data, from, to, lo);
  }

  function After(s: State, to: int): State { s.(through := to - 1) }

  lemma {:induction false} TouchedAt(s: State, data: int -> BlockData, from: int, to: int, lo: int)
    requires s.span > 0 && IsNext(s, from, to) && from >= 0 && Starts(s, lo) && lo < to && from < SpanHi(s, lo)
    ensures ClosedAt(After(s, to), data, lo) ==
            if SpanHi(s, lo) <= to then Some(Closed(SpanHi(s, lo), Fold(data, lo, SpanHi(s, lo)))) else None
    ensures StageAt(After(s, to), data, lo) == if SpanHi(s, lo) <= to then None else Some(Fold(data, lo, to))
    ensures ClosedAt(s, data, lo) == None && (InProgress(After(s, to), lo) <==> SpanHi(s, lo) > to)
  {
  }

  lemma {:induction false} UntouchedAt(s: State, data: int -> BlockData, from: int, to: int, lo: int)
    requires s.span > 0 && IsNext(s, from, to) && (Starts(s, lo) ==> lo >= to || SpanHi(s, lo) <= from)
    ensures ClosedAt(After(s, to), data, lo) == ClosedAt(s, data, lo)
    ensures StageAt(After(s, to), data, lo) == StageAt(s, data, lo) == None
    ensures !InProgress(After(s, to), lo)
  {
  }

  lemma {:induction false} SameShape(s: State, s': State, data: int -> BlockData, to: int, lo: int)
    requires s.span > 0 && s'.through == to - 1 && s'.target == s.target && s'.span == s.span
    ensures ClosedAt(s', data, lo) == ClosedAt(After(s, to), data, lo)
    ensures StageAt(s', data, lo) == StageAt(After(s, to), data, lo)
    ensures InProgress(s', lo) <==> InProgress(After(s, to), lo)
  {
  }

  lemma {:induction false} CommitAt(s: State, data: int -> BlockData, from: int, to: int, spans: map<int, Totals>,
                                    s': State, lo: int)
    requires Inv(s, data) && IsNext(s, from, to) && IsBatch(s, data, from, to, spans) && Lands(s, spans, to, s')
    ensures Get(s'.closed, lo) == ClosedAt(s', data, lo) && Get(s'.stage, lo) == StageAt(s', data, lo)
    ensures InProgress(s', lo) <==> lo in spans && SpanHi(s, lo) > to
  {
    LandsAt(s, spans, to, s', lo);
    SameShape(s, s', data, to, lo);
    InvAt(s, data, lo);
    if lo in spans {
      StagedIsSum(s, data, from, to, spans, lo);
      TouchedAt(s, data, from, to, lo);
    } else {
      if Starts(s, lo) {
        UntouchedSpan(s, data, from, to, spans, lo);
      }
      UntouchedAt(s, data, from, to, lo);
    }
  }

  lemma {:induction false} InvAt(s: State, data: int -> BlockData, lo: int)
    requires Inv(s, data)
    ensures Get(s.closed, lo) == ClosedAt(s, data, lo) && Get(s.stage, lo) == StageAt(s, data, lo)
  {
  }

  lemma {:induction false} LandsAt(s: State, spans: map<int, Totals>, to: int, s': State, lo: int)
    requires Lands(s, spans, to, s')
    ensures Get(s'.stage, lo) == StageAfter(s, spans, to, lo) && Get(s'.closed, lo) == ClosedAfter(s, spans, to, lo)
  {
  }

  lemma {:induction false} CommitKeeps(s: State, data: int -> BlockData, from: int, to: int, spans: map<int, Totals>,
                                       s': State)
    requires Inv(s, data) && IsNext(s, from, to) && IsBatch(s, data, from, to, spans) && Lands(s, spans, to, s')
    ensures Inv(s', data)
  {
    forall lo ensures Get(s'.closed, lo) == ClosedAt(s', data, lo) && Get(s'.stage, lo) == StageAt(s', data, lo) {
      CommitAt(s, data, from, to, spans, s', lo);
    }
    forall lo ensures InProgress(s', lo) <==> lo in spans && SpanHi(s, lo) > to {
      CommitAt(s, data, from, to, spans, s', lo);
    }
  }

  method SortedSpans(spans: map<int, Totals>) returns (los: seq<int>)
    ensures Distinct(los) && Elements(los) == spans.Keys && forall i, j :: 0 <= i < j < |los| ==> los[i] < los[j]
  {
    los := [];
    var todo := spans.Keys;
    while todo != {}
      invariant todo <= spans.Keys && forall x :: x in los <==> x in spans && x !in todo
      invariant forall i, j :: 0 <= i < j < |los| ==> los[i] < los[j]
      invariant forall i, x :: 0 <= i < |los| && x in todo ==> los[i] < x
      decreases |todo|
    {
      var lo := Min(todo);
      los, todo := los + [lo], todo - {lo};
    }
    assert forall x :: x in Elements(los) <==> x in spans;
  }

  /** One transaction: refused unless the batch is the next one, and otherwise the whole batch at once. */
  method CommitBatch(s: State, ghost data: int -> BlockData, from: int, to: int, spans: map<int, Totals>)
    returns (s': State, ok: bool)
    requires Inv(s, data) && (IsNext(s, from, to) ==> IsBatch(s, data, from, to, spans))
    ensures Inv(s', data) && ok == IsNext(s, from, to)
    ensures if ok then Lands(s, spans, to, s') else s' == s
  {
    if s.through + 1 != from || to - 1 > s.target || from >= to {
      return s, false;
    }
    var los := SortedSpans(spans);
    var stage, closed, open := CommitSpans(s, spans, los, to);
    s', ok := s.(through := to - 1, stage := stage, closed := closed, open := open), true;
    CommitKeeps(s, data, from, to, spans, s');
  }

  // ---------- every run ----------

  /**
   An attempt at a batch, which may fail to build or lose its transaction, at whatever point the progress was read.
   */
  datatype Attempt = Attempt(from: int, to: int, spans: map<int, Totals>, fails: bool)

  /** A run: each attempt commits its batch if it can, and changes nothing otherwise. */
  ghost predicate IsRun(states: seq<State>, data: int -> BlockData, attempts: seq<Attempt>) {
    && |states| == |attempts| + 1
    && forall i :: 0 <= i < |attempts| ==> StepsAt(states, data, attempts, i)
  }

  ghost predicate StepsAt(states: seq<State>, data: int -> BlockData, attempts: seq<Attempt>, i: int)
    requires |states| == |attempts| + 1 && 0 <= i < |attempts|
  {
    Steps(states[i], states[i + 1], data, attempts[i])
  }

  ghost predicate Steps(s: State, s': State, data: int -> BlockData, a: Attempt) {
    if s.span > 0 && !a.fails && IsNext(s, a.from, a.to)
    then IsBatch(s, data, a.from, a.to, a.spans) && Lands(s, a.spans, a.to, s')
    else s' == s
  }

  ghost predicate Fresh(s: State) {
    s.span > 0 && s.target >= -1 && s.through == -1 && s.stage == map[] && s.closed == map[] && s.open == None
  }

  lemma {:induction false} RunKeeps(states: seq<State>, data: int -> BlockData, attempts: seq<Attempt>, n: int)
    requires IsRun(states, data, attempts) && Inv(states[0], data) && 0 <= n < |states|
    ensures Inv(states[n], data) && states[n].target == states[0].target && states[n].span == states[0].span
    decreases n
  {
    if n > 0 {
      RunKeeps(states, data, attempts, n - 1);
      var a := attempts[n - 1];
      assert StepsAt(states, data, attempts, n - 1);
      if !a.fails && IsNext(states[n - 1], a.from, a.to) {
        CommitKeeps(states[n - 1], data, a.from, a.to, a.spans, states[n]);
      }
    }
  }

  /**
   Once the progress reaches the target the ledger's spans are the grid cut at target + 1, each the sum over its own
   blocks, and nothing is left in progress, however the blocks were batched and whatever failed.
   */
  lemma {:induction false} Conservation(states: seq<State>, data: int -> BlockData, attempts: seq<Attempt>, n: int,
                                        lo: int)
    requires IsRun(states, data, attempts) && Fresh(states[0]) && 0 <= n < |states|
    requires states[n].through == states[n].target
    ensures var s := states[n];
            && s.span > 0 && (lo in s.closed <==> Starts(s, lo)) && s.stage == map[] && s.open == None
            && (lo in s.closed ==> s.closed[lo] == Closed(SpanHi(s, lo), Fold(data, lo, SpanHi(s, lo)))
                                   && s.closed[lo].totals.blocks == SpanHi(s, lo) - lo)
  {
    RunKeeps(states, data, attempts, n);
    var s := states[n];
    assert Get(s.closed, lo) == ClosedAt(s, data, lo);
    forall x ensures Get(s.stage, x) == Get(map[], x) {
      assert Get(s.stage, x) == StageAt(s, data, x);
    }
    SameRows(s.stage, map[]);
    if lo in s.closed {
      FoldCountsBlocks(data, lo, SpanHi(s, lo));
    }
  }

  /**
   What the ledger then holds, said over the blocks alone: each span's counters, addresses and tokens are the sums over
   its own blocks, and an address's first_seen and last_seen the first and the last of them that list it.
   */
  lemma {:induction false} LedgerContents(states: seq<State>, data: int -> BlockData, attempts: seq<Attempt>, n: int,
                                          lo: int, a: int, token: int)
    requires IsRun(states, data, attempts) && Fresh(states[0]) && 0 <= n < |states| && C.Numbered(data)
    requires states[n].through == states[n].target && states[n].span > 0 && Starts(states[n], lo)
    ensures lo in states[n].closed
    ensures var t, hi := states[n].closed[lo].totals, SpanHi(states[n], lo);
            && t.blocks == hi - lo && t.txs == Sum(C.Range(lo, hi), C.TxsAt(data))
            && t.transfers == Sum(C.Range(lo, hi), C.TransfersAt(data))
            && C.AddressIs(data, C.Listing(data, lo, hi, a), a, Get(t.addresses, a))
            && C.TokenIs(Get(t.tokens, token), Sum(C.Range(lo, hi), C.CountAt(data, token)),
                         Sum(C.Range(lo, hi), C.SupplyAt(data, token)))
  {
    Conservation(states, data, attempts, n, lo);
    var hi := SpanHi(states[n], lo);
    SpanNotEmpty(states[n], lo);
    C.FoldCounts(data, lo, hi);
    C.FoldAddress(data, lo, hi, a);
    C.FoldToken(data, lo, hi, token);
  }

  lemma {:induction false} SpanNotEmpty(s: State, lo: int)
    requires s.span > 0 && Starts(s, lo)
    ensures lo < SpanHi(s, lo)
  {
  }

  /** Every block up to the target is in exactly one of them. */
  lemma {:induction false} EachBlockInOneSpan(s: State, n: int, lo: int)
    requires s.span > 0 && 0 <= n <= s.target
    ensures Starts(s, SpanLo(s.span, n)) && SpanLo(s.span, n) <= n < SpanHi(s, SpanLo(s.span, n))
    ensures Starts(s, lo) && lo <= n < SpanHi(s, lo) ==> lo == SpanLo(s.span, n)
  {
    SpanHolds(s.span, n);
    if Starts(s, lo) && lo <= n < SpanHi(s, lo) {
      OneSpan(s.span, lo, n);
    }
  }

  /** At most one span is ever in progress. */
  lemma {:induction false} AtMostOneOpen(states: seq<State>, data: int -> BlockData, attempts: seq<Attempt>, n: int,
                                         x: int, y: int)
    requires IsRun(states, data, attempts) && Fresh(states[0]) && 0 <= n < |states|
    requires x in states[n].stage && y in states[n].stage
    ensures x == y && states[n].open == Some(x)
  {
    RunKeeps(states, data, attempts, n);
    var s := states[n];
    assert Get(s.stage, x) == StageAt(s, data, x) && Get(s.stage, y) == StageAt(s, data, y);
    EachBlockInOneSpan(s, s.through, x);
    EachBlockInOneSpan(s, s.through, y);
    if s.open.Some? {
      EachBlockInOneSpan(s, s.through, s.open.value);
    }
  }
}
