/**
 The block ranges of days, some of whose first blocks are not recorded, and the one-pass recount of their addresses.
 */
module DailyRefill {
  import opened Sums

  /** A day of daily_stats, with its first block where it is recorded. */
  datatype DayRow = DayRow(date: int, total: int, first: Option<int>)

  /** A day's blocks, hi excluded. */
  datatype Span = Span(date: int, lo: int, hi: int)

  ghost predicate ByDate(days: seq<DayRow>) { forall i, j :: 0 <= i < j < |days| ==> days[i].date < days[j].date }

  predicate Next(days: seq<DayRow>, i: int)
    requires 0 <= i < |days|
  {
    i + 1 < |days| && days[i + 1].date == days[i].date + 1
  }

  // ---------- where a day starts ----------

  /** The blocks of days p to q, q excluded. */
  function Blocks(days: seq<DayRow>, p: int, q: int): int
    requires 0 <= p <= q <= |days|
    decreases q - p
  {
    if p == q then 0 else Blocks(days, p, q - 1) + days[q - 1].total
  }

  /** The last recorded day at or before k, if only unknown days on consecutive dates lie between; -1 if none. */
  function Below(days: seq<DayRow>, k: int): (p: int)
    requires 0 <= k < |days|
    ensures -1 <= p <= k && (p >= 0 ==> days[p].first.Some?)
    decreases k
  {
    if days[k].first.Some? then k else if k > 0 && Next(days, k - 1) then Below(days, k - 1) else -1
  }

  /** The next recorded day at or after k, likewise; the number of days if none. */
  function Above(days: seq<DayRow>, k: int): (q: int)
    requires 0 <= k < |days|
    ensures k <= q <= |days| && (q < |days| ==> days[q].first.Some?)
    decreases |days| - k
  {
    if days[k].first.Some? then k else if Next(days, k) then Above(days, k + 1) else |days|
  }

  /** The totals of the days between two recorded ones land exactly on the second's first block. */
  predicate Lands(days: seq<DayRow>, p: int, q: int)
    requires 0 <= p <= q < |days| && days[p].first.Some? && days[q].first.Some?
  {
    days[p].first.value + Blocks(days, p, q) == days[q].first.value
  }

  /** A recorded first block is kept, and one between two recorded days whose totals land is inferred. */
  function FirstOf(days: seq<DayRow>, k: int): Option<int>
    requires 0 <= k < |days|
  {
    var (p, q) := (Below(days, k), Above(days, k));
    if days[k].first.Some? then days[k].first
    else if p >= 0 && q < |days| && Lands(days, p, q) then Some(days[p].first.value + Blocks(days, p, k))
    else None
  }

  /** Day x is unknown and on the date after the day before it. */
  predicate Unknown(days: seq<DayRow>, x: int)
    requires 0 < x < |days|
  {
    days[x].first.None? && Next(days, x - 1)
  }

  ghost predicate IsRun(days: seq<DayRow>, i: int, j: int) {
    && 0 < i < j <= |days| && days[i - 1].first.Some?
    && forall x :: i <= x < j ==> Unknown(days, x)
  }

  ghost predicate RunEnds(days: seq<DayRow>, j: int)
    requires 0 < j <= |days|
  {
    j == |days| || !Unknown(days, j)
  }

  lemma {:induction false} BelowRun(days: seq<DayRow>, i: int, j: int, k: int)
    requires IsRun(days, i, j) && i <= k < j
    ensures Below(days, k) == i - 1
    decreases k
  {
    assert Unknown(days, k);
    if k > i {
      BelowRun(days, i, j, k - 1);
    }
  }

  predicate RunMeets(days: seq<DayRow>, j: int)
    requires 0 < j <= |days|
  {
    j < |days| && days[j].first.Some? && Next(days, j - 1)
  }

  lemma {:induction false} AboveRun(days: seq<DayRow>, i: int, j: int, k: int)
    requires IsRun(days, i, j) && i <= k < j && RunEnds(days, j)
    ensures Above(days, k) == if RunMeets(days, j) then j else |days|
    decreases j - k
  {
    assert Unknown(days, k);
    if k + 1 < j {
      assert Unknown(days, k + 1);
      AboveRun(days, i, j, k + 1);
    }
  }

  lemma {:induction false} RunFirsts(days: seq<DayRow>, i: int, j: int, k: int)
    requires IsRun(days, i, j) && i <= k < j && RunEnds(days, j)
    ensures FirstOf(days, k) ==
            if RunMeets(days, j) && Lands(days, i - 1, j) then Some(days[i - 1].first.value + Blocks(days, i - 1, k))
                else None
  {
    assert Unknown(days, k);
    BelowRun(days, i, j, k);
    AboveRun(days, i, j, k);
  }

  /** Beside an unknown day that stays unknown, a day that is not recorded stays unknown too. */
  lemma {:induction false} UnknownSpreads(days: seq<DayRow>, i: int)
    requires 0 < i < |days| && days[i].first.None? && FirstOf(days, i - 1).None?
    ensures FirstOf(days, i).None?
  {
  }

  /** The run of unknown days from i on, and what each would start at if the totals are right. */
  method GuessRun(days: seq<DayRow>, i: int) returns (j: int, guess: seq<int>, at: int)
    requires 0 < i < |days| && days[i - 1].first.Some? && Unknown(days, i)
    ensures IsRun(days, i, j) && RunEnds(days, j) && |guess| == j - i
    ensures forall y :: 0 <= y < |guess| ==> guess[y] == days[i - 1].first.value + Blocks(days, i - 1, i + y)
    ensures at == days[i - 1].first.value + Blocks(days, i - 1, j)
  {
    j, guess, at := i, [], days[i - 1].first.value + days[i - 1].total;
    assert Blocks(days, i - 1, i) == Blocks(days, i - 1, i - 1) + days[i - 1].total;
    while j < |days| && days[j].first.None? && (j == i || Next(days, j - 1))
      invariant i <= j <= |days| && |guess| == j - i && at == days[i - 1].first.value + Blocks(days, i - 1, j)
      invariant forall x :: i <= x < j ==> Unknown(days, x)
      invariant forall y :: 0 <= y < |guess| ==> guess[y] == days[i - 1].first.value + Blocks(days, i - 1, i + y)
    {
      guess := guess + [at];
      at := at + days[j].total;
      j := j + 1;
    }
  }

  ghost predicate Inferred(days: seq<DayRow>, first: seq<Option<int>>, from: int, to: int) {
    |first| == |days| && forall k :: from <= k < to && 0 <= k < |days| ==> first[k] == FirstOf(days, k)
  }

  function Known(guess: seq<int>): seq<Option<int>> {
    seq(|guess|, y requires 0 <= y < |guess| => Some(guess[y]))
  }

  method InferRun(days: seq<DayRow>, first: seq<Option<int>>, i: int) returns (first': seq<Option<int>>, j: int)
    requires |first| == |days| && 0 < i < |days| && days[i - 1].first.Some? && Unknown(days, i)
    requires forall k :: i <= k < |days| ==> first[k] == days[k].first
    ensures IsRun(days, i, j) && RunEnds(days, j) && Inferred(days, first', i, j)
    ensures forall k :: 0 <= k < |days| && (k < i || j <= k) ==> first'[k] == first[k]
  {
    var guess, at;
    j, guess, at := GuessRun(days, i);
    var meets := j < |days| && first[j].Some? && Next(days, j - 1) && at == first[j].value;
    first' := if meets then first[..i] + Known(guess) + first[j..] else first;
    forall k | i <= k < j ensures first'[k] == FirstOf(days, k) {
      RunFirsts(days, i, j, k);
      assert Unknown(days, k);
      if meets {
        assert first'[k] == Some(guess[k - i]);
      } else {
        assert first'[k] == first[k];
      }
    }
  }

  lemma {:induction false} Joined(days: seq<DayRow>, first: seq<Option<int>>, first': seq<Option<int>>, i: int, j: int)
    requires 0 < i < j <= |days| && RunEnds(days, j) && Inferred(days, first, 0, i) && Inferred(days, first', i, j)
    requires forall k :: 0 <= k < |days| && (k < i || j <= k) ==> first'[k] == first[k]
    requires forall k :: i <= k < |days| ==> first[k] == days[k].first
    ensures Inferred(days, first', 0, j + 1)
  {
    if j < |days| {
      RunEnd(days, j);
    }
  }

  /** Every day's first block, recorded or inferred. */
  method InferFirsts(days: seq<DayRow>) returns (first: seq<Option<int>>)
    ensures |first| == |days| && forall k :: 0 <= k < |days| ==> first[k] == FirstOf(days, k)
  {
    first := seq(|days|, x requires 0 <= x < |days| => days[x].first);
    var i := 1;
    while i < |days|
      invariant 1 <= i && Inferred(days, first, 0, i)
      invariant forall k :: i <= k < |days| ==> first[k] == days[k].first
      invariant i <= |days| && first[i - 1].Some? ==> days[i - 1].first.Some?
      decreases |days| - i
    {
      if first[i].Some? || first[i - 1].None? || !Next(days, i - 1) {
        Passed(days, i, first[i - 1]);
        i := i + 1;
        continue;
      }
      var filled, j := InferRun(days, first, i);
      Joined(days, first, filled, i, j);
      first := filled;
      i := j + 1;
    }
  }

  lemma {:induction false} Passed(days: seq<DayRow>, i: int, before: Option<int>)
    requires 0 < i < |days| && before == FirstOf(days, i - 1)
    requires days[i].first.Some? || before.None? || !Next(days, i - 1)
    ensures FirstOf(days, i) == days[i].first
  {
    if days[i].first.None? && before.None? {
      UnknownSpreads(days, i);
    }
  }

  lemma {:induction false} RunEnd(days: seq<DayRow>, j: int)
    requires 0 < j < |days| && RunEnds(days, j)
    ensures FirstOf(days, j) == days[j].first
  {
  }

  // ---------- the spans ----------

  /** A day's range: from its first block to the next date's, the newest to the watermark. */
  function SpanOf(days: seq<DayRow>, watermark: int, i: int): Option<Span>
    requires 0 <= i < |days|
  {
    var first := FirstOf(days, i);
    if first.None? then None
    else if i == |days| - 1 then
      (if watermark + 1 > first.value then Some(Span(days[i].date, first.value, watermark + 1)) else None)
    else if Next(days, i)
        && FirstOf(days, i + 1).Some? then Some(Span(days[i].date, first.value, FirstOf(days, i + 1).value))
    else None
  }

  function SpansTo(days: seq<DayRow>, watermark: int, n: int): seq<Span>
    requires 0 <= n <= |days|
  {
    if n == 0 then [] else
      var rest := SpansTo(days, watermark, n - 1);
      if SpanOf(days, watermark, n - 1).Some? then rest + [SpanOf(days, watermark, n - 1).value] else rest
  }

  function SkippedTo(days: seq<DayRow>, watermark: int, n: int): seq<int>
    requires 0 <= n <= |days|
  {
    if n == 0 then [] else
      var rest := SkippedTo(days, watermark, n - 1);
      if SpanOf(days, watermark, n - 1).Some? then rest else rest + [days[n - 1].date]
  }

  /** The spans and the days left out, in date order, and the first blocks it inferred. */
  method DaySpans(days: seq<DayRow>, watermark: int)
    returns (spans: seq<Span>, inferred: map<int, int>, skipped: seq<int>)
    requires ByDate(days)
    ensures spans == SpansTo(days, watermark, |days|) && skipped == SkippedTo(days, watermark, |days|)
    ensures forall k :: 0 <= k < |days| ==>
              Get(inferred, days[k].date) == if days[k].first.None? then FirstOf(days, k) else None
  {
    var first := InferFirsts(days);
    inferred := InferredMap(days, first);
    spans, skipped := [], [];
    for i := 0 to |days|
      invariant spans == SpansTo(days, watermark, i) && skipped == SkippedTo(days, watermark, i)
    {
      var d := days[i];
      if first[i].None? {
        skipped := skipped + [d.date];
      } else if i == |days| - 1 {
        if watermark + 1 > first[i].value {
          spans := spans + [Span(d.date, first[i].value, watermark + 1)];
        } else {
          skipped := skipped + [d.date];
        }
      } else if Next(days, i) && first[i + 1].Some? {
        spans := spans + [Span(d.date, first[i].value, first[i + 1].value)];
      } else {
        skipped := skipped + [d.date];
      }
    }
  }

  method InferredMap(days: seq<DayRow>, first: seq<Option<int>>) returns (inferred: map<int, int>)
    requires ByDate(days) && Inferred(days, first, 0, |days|)
    ensures forall k :: 0 <= k < |days| ==> Get(inferred, days[k].date) == if days[k].first.None? then FirstOf(days, k)
              else None
  {
    inferred := map[];
    for i := 0 to |days|
      invariant forall k :: 0 <= k < i ==> Get(inferred, days[k].date) == if days[k].first.None? then FirstOf(days, k)
                else None
      invariant forall k :: i <= k < |days| ==> days[k].date !in inferred
    {
      if days[i].first.None? && first[i].Some? {
        inferred := inferred[days[i].date := first[i].value];
      }
    }
  }

  /** Each day is in exactly one of the two. */
  lemma {:induction false} PlacedOnce(days: seq<DayRow>, watermark: int, n: int, i: int)
    requires ByDate(days) && 0 <= i < |days| && 0 <= n <= |days|
    ensures |SpansTo(days, watermark, n)| + |SkippedTo(days, watermark, n)| == n
    ensures (i < n && SpanOf(days, watermark, i).Some?) <==>
              exists s :: s in SpansTo(days, watermark, n) && s.date == days[i].date
    ensures (i < n && SpanOf(days, watermark, i).None?) <==> days[i].date in SkippedTo(days, watermark, n)
    decreases n
  {
    if n > 0 {
      PlacedOnce(days, watermark, n - 1, i);
      var more, rest := SpansTo(days, watermark, n), SpansTo(days, watermark, n - 1);
      assert forall s :: s in rest ==> s in more;
      if SpanOf(days, watermark, n - 1).Some? {
        assert more[|rest|] == SpanOf(days, watermark, n - 1).value;
        assert SpanOf(days, watermark, n - 1).value.date == days[n - 1].date;
      }
      assert i != n - 1 ==> days[i].date != days[n - 1].date;
    }
  }

  /** An inferred day's range is exactly its total of blocks. */
  lemma {:induction false} InferredWidth(days: seq<DayRow>, watermark: int, i: int)
    requires 0 <= i < |days| && days[i].first.None? && FirstOf(days, i).Some?
    ensures var f := FirstOf(days, i).value;
            SpanOf(days, watermark, i) == Some(Span(days[i].date, f, f + days[i].total))
  {
    var p, q := Below(days, i), Above(days, i);
    assert Next(days, i) && Above(days, i + 1) == q;
    assert Blocks(days, p, i + 1) == Blocks(days, p, i) + days[i].total;
    if days[i + 1].first.None? {
      assert Below(days, i + 1) == p;
    }
  }

  /**
   The newest day has a range exactly when its first block is known and not above the watermark; the watermark's block
   is then the last one in it.
   */
  lemma {:induction false} NewestEndsAtWatermark(days: seq<DayRow>, watermark: int, n: int)
    requires |days| > 0
    ensures var last, first := SpanOf(days, watermark, |days| - 1), days[|days| - 1].first;
            && (last.Some? <==> first.Some? && first.value <= watermark)
            && (last.Some? ==> (last.value.lo <= n < last.value.hi <==> first.value <= n <= watermark))
  {
    if days[|days| - 1].first.None? {
      assert Above(days, |days| - 1) == |days|;
    }
  }

  /** Neighbouring ranges meet. */
  lemma {:induction false} SpansMeet(days: seq<DayRow>, watermark: int, i: int)
    requires 0 <= i < |days| - 1 && SpanOf(days, watermark, i).Some? && SpanOf(days, watermark, i + 1).Some?
    ensures SpanOf(days, watermark, i).value.hi == SpanOf(days, watermark, i + 1).value.lo
  {
  }

  /**
   A day is unknown exactly when no two recorded days around it, on consecutive dates, are landed on by the totals.
   */
  lemma {:induction false} UnknownExactly(days: seq<DayRow>, k: int)
    requires ByDate(days) && 0 <= k < |days| && days[k].first.None?
    ensures FirstOf(days, k).Some? <==>
            exists p, q :: 0 <= p < k < q < |days| && days[p].first.Some? && days[q].first.Some? && Lands(days, p, q)
                           && (forall x :: p < x < q ==> days[x].first.None?) && days[q].date - days[p].date == q - p
  {
    if FirstOf(days, k).Some? {
      BelowMeans(days, k);
      AboveMeans(days, k);
      assert days[Above(days, k)].date - days[Below(days, k)].date == Above(days, k) - Below(days, k);
    }
    if p, q :| 0 <= p < k < q < |days| && days[p].first.Some? && days[q].first.Some? && Lands(days, p, q)
               && (forall x :: p < x < q ==> days[x].first.None?) && days[q].date - days[p].date == q - p {
      DatesStep(days, p, q);
      BelowReaches(days, p, q, k);
      AboveReaches(days, p, q, k);
    }
  }

  lemma {:induction false} BelowMeans(days: seq<DayRow>, k: int)
    requires 0 <= k < |days| && Below(days, k) >= 0
    ensures days[k].date - days[Below(days, k)].date == k - Below(days, k)
    ensures forall x :: Below(days, k) < x <= k ==> days[x].first.None?
    decreases k
  {
    if days[k].first.None? {
      BelowMeans(days, k - 1);
    }
  }

  lemma {:induction false} AboveMeans(days: seq<DayRow>, k: int)
    requires 0 <= k < |days| && Above(days, k) < |days|
    ensures days[Above(days, k)].date - days[k].date == Above(days, k) - k
    ensures forall x :: k <= x < Above(days, k) ==> days[x].first.None?
    decreases |days| - k
  {
    if days[k].first.None? {
      AboveMeans(days, k + 1);
    }
  }

  lemma {:induction false} DateGap(days: seq<DayRow>, p: int, q: int)
    requires ByDate(days) && 0 <= p <= q < |days|
    ensures days[q].date - days[p].date >= q - p
    decreases q - p
  {
    if p < q {
      DateGap(days, p, q - 1);
    }
  }

  /** Dates as far apart as their places are consecutive in between. */
  lemma {:induction false} DatesStep(days: seq<DayRow>, p: int, q: int)
    requires ByDate(days) && 0 <= p <= q < |days| && days[q].date - days[p].date == q - p
    ensures forall x :: p <= x < q ==> Next(days, x)
  {
    forall x | p <= x < q ensures Next(days, x) {
      DateGap(days, p, x);
      DateGap(days, x + 1, q);
    }
  }

  lemma {:induction false} BelowReaches(days: seq<DayRow>, p: int, q: int, k: int)
    requires 0 <= p <= k < q < |days| && days[p].first.Some? && forall x :: p <= x < q ==> Next(days, x)
    requires forall x :: p < x < q ==> days[x].first.None?
    ensures Below(days, k) == p
    decreases k
  {
    if k > p {
      assert Next(days, k - 1);
      BelowReaches(days, p, q, k - 1);
    }
  }

  lemma {:induction false} AboveReaches(days: seq<DayRow>, p: int, q: int, k: int)
    requires 0 <= p < k <= q < |days| && days[q].first.Some? && forall x :: p <= x < q ==> Next(days, x)
    requires forall x :: p < x < q ==> days[x].first.None?
    ensures Above(days, k) == q
    decreases q - k
  {
    if k < q {
      AboveReaches(days, p, q, k + 1);
    }
  }
}
