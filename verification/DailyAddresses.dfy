/** New and cumulative addresses per day: one pass over the addresses against a count per day. */
module DailyAddresses {
  import opened Sums
  import opened DailyRefill

  /** first_seen by address, NULL on a row not seen in any block yet. */
  type Seen = map<int, Option<int>>

  predicate Rising(spans: seq<Span>) { forall i, j :: 0 <= i < j < |spans| ==> spans[i].hi < spans[j].hi }

  predicate Apart(spans: seq<Span>) { forall i, j :: 0 <= i < j < |spans| ==> spans[i].hi <= spans[j].lo }

  // ---------- one pass ----------

  /** The first span, from i on, that ends above f. */
  function Place(spans: seq<Span>, f: int, i: int): (p: int)
    requires 0 <= i <= |spans|
    ensures i <= p <= |spans|
    ensures p < |spans| ==> spans[p].hi > f
    ensures forall j :: i <= j < p ==> spans[j].hi <= f
    decreases |spans| - i
  {
    if i == |spans| || spans[i].hi > f then i else Place(spans, f, i + 1)
  }

  function PlacedIn(spans: seq<Span>, seen: Seen, who: set<int>, d: int): set<int> {
    set a | a in who && a in seen && seen[a].Some? && Place(spans, seen[a].value, 0) == d
  }

  /** The addresses placed in the span that are not from before it. */
  function NewByPass(spans: seq<Span>, seen: Seen, who: set<int>, d: int): int
    requires 0 <= d < |spans|
  {
    |set a | a in PlacedIn(spans, seen, who, d) && seen[a].Some? && seen[a].value >= spans[d].lo|
  }

  /** The running sum of the placed addresses, in span order. */
  function TotalByPass(spans: seq<Span>, seen: Seen, who: set<int>, d: int): int
    requires -1 <= d < |spans|
    decreases d + 1
  {
    if d < 0 then 0 else TotalByPass(spans, seen, who, d - 1) + |PlacedIn(spans, seen, who, d)|
  }

  // ---------- a count per day ----------

  function Within(seen: Seen, who: set<int>, lo: int, hi: int): set<int> {
    set a | a in who && a in seen && seen[a].Some? && lo <= seen[a].value < hi
  }

  function Under(seen: Seen, who: set<int>, hi: int): set<int> {
    set a | a in who && a in seen && seen[a].Some? && seen[a].value < hi
  }

  // ---------- the two agree ----------

  lemma {:induction false} UnderGrows(spans: seq<Span>, seen: Seen, who: set<int>, d: int)
    requires Rising(spans) && 0 <= d < |spans|
    ensures var placed := PlacedIn(spans, seen, who, d);
            var before := if d > 0 then Under(seen, who, spans[d - 1].hi) else {};
            before !! placed && Under(seen, who, spans[d].hi) == before + placed
  {
    var placed, before := PlacedIn(spans, seen, who, d), if d > 0 then Under(seen, who, spans[d - 1].hi) else {};
    forall a | a in seen && seen[a].Some? ensures a in placed <==>
      a in who && seen[a].value < spans[d].hi && (d > 0 ==> spans[d - 1].hi <= seen[a].value)
    {
    }
    assert d > 0 ==> spans[d - 1].hi < spans[d].hi;
    forall a ensures a in Under(seen, who, spans[d].hi) <==> a in before || a in placed {
    }
  }

  /** The running sums are the counts below each day's end, whatever the starts. */
  lemma {:induction false} TotalsAgree(spans: seq<Span>, seen: Seen, who: set<int>, d: int)
    requires Rising(spans) && 0 <= d < |spans|
    ensures TotalByPass(spans, seen, who, d) == |Under(seen, who, spans[d].hi)|
    decreases d
  {
    UnderGrows(spans, seen, who, d);
    if d > 0 {
      TotalsAgree(spans, seen, who, d - 1);
    } else {
      assert Under(seen, who, spans[d].hi) == PlacedIn(spans, seen, who, d);
    }
  }

  lemma {:induction false} NewAgree(spans: seq<Span>, seen: Seen, who: set<int>, d: int)
    requires Rising(spans) && Apart(spans) && 0 <= d < |spans|
    ensures NewByPass(spans, seen, who, d) == |Within(seen, who, spans[d].lo, spans[d].hi)|
  {
    forall a | a in seen && seen[a].Some? ensures Place(spans, seen[a].value, 0) == d <==>
      seen[a].value < spans[d].hi && (d > 0 ==> spans[d - 1].hi <= seen[a].value)
    {
    }
    assert (set a | a in PlacedIn(spans, seen, who, d) && seen[a].Some? && seen[a].value >= spans[d].lo)
        == Within(seen, who, spans[d].lo, spans[d].hi);
  }

  /** An address first seen at the start of a span that begins inside an earlier one is placed in the earlier one. */
  lemma {:induction false} OverlapMisplaces(spans: seq<Span>, i: int, j: int)
    requires Rising(spans) && 0 <= i < j < |spans| && spans[j].lo < spans[i].hi
    ensures var seen := map[0 := Some(spans[j].lo)];
            NewByPass(spans, seen, {0}, j) != |Within(seen, {0}, spans[j].lo, spans[j].hi)|
  {
    var seen: Seen := map[0 := Some(spans[j].lo)];
    assert PlacedIn(spans, seen, {0}, j) == {};
    assert Within(seen, {0}, spans[j].lo, spans[j].hi) == {0};
  }

  /**
   The one pass gives every day's new addresses, for all addresses, exactly when no span begins before an earlier
   one ends.
   */
  lemma {:induction false} OnePassExactly(spans: seq<Span>)
    requires Rising(spans)
    ensures (forall seen: Seen, who, d :: 0 <= d < |spans| ==>
               NewByPass(spans, seen, who, d) == |Within(seen, who, spans[d].lo, spans[d].hi)|) <==> Apart(spans)
  {
    if Apart(spans) {
      forall seen: Seen, who, d | 0 <= d < |spans| ensures
        NewByPass(spans, seen, who, d) == |Within(seen, who, spans[d].lo, spans[d].hi)|
      {
        NewAgree(spans, seen, who, d);
      }
    } else {
      var i, j :| 0 <= i < j < |spans| && spans[i].hi > spans[j].lo;
      OverlapMisplaces(spans, i, j);
    }
  }

  /** The days' first blocks, recorded and inferred, increase. */
  ghost predicate FirstsIncrease(days: seq<DayRow>) {
    forall i, j :: 0 <= i < j < |days| && FirstOf(days, i).Some? && FirstOf(days, j).Some? ==>
      FirstOf(days, i).value < FirstOf(days, j).value
  }

  lemma {:induction false} AppendRises(spans: seq<Span>, s: Span)
    requires Rising(spans) && Apart(spans) && s.lo < s.hi && forall i :: 0 <= i < |spans| ==> spans[i].hi <= s.lo
    ensures Rising(spans + [s]) && Apart(spans + [s])
  {
  }

  ghost predicate EndsBy(days: seq<DayRow>, s: Span, n: int) {
    forall m :: 0 <= m < |days| && n <= m && FirstOf(days, m).Some? ==> s.hi <= FirstOf(days, m).value
  }

  lemma {:induction false} SpanRises(days: seq<DayRow>, watermark: int, i: int)
    requires FirstsIncrease(days) && 0 <= i < |days| && SpanOf(days, watermark, i).Some?
    ensures var s := SpanOf(days, watermark, i).value;
            Some(s.lo) == FirstOf(days, i) && s.lo < s.hi && EndsBy(days, s, i + 1)
  {
  }

  /** Then the ranges of days rise and do not overlap, and the one pass is right. */
  lemma {:induction false} SpansRise(days: seq<DayRow>, watermark: int, n: int)
    requires FirstsIncrease(days) && 0 <= n <= |days|
    ensures Rising(SpansTo(days, watermark, n)) && Apart(SpansTo(days, watermark, n))
    ensures forall s :: s in SpansTo(days, watermark, n) ==> EndsBy(days, s, n)
    decreases n
  {
    if n > 0 {
      SpansRise(days, watermark, n - 1);
      if SpanOf(days, watermark, n - 1).Some? {
        SpanRises(days, watermark, n - 1);
        OneMore(days, SpansTo(days, watermark, n - 1), SpanOf(days, watermark, n - 1).value, n);
      }
    }
  }

  lemma {:induction false} OneMore(days: seq<DayRow>, rest: seq<Span>, s: Span, n: int)
    requires 0 < n <= |days| && Rising(rest) && Apart(rest) && forall x :: x in rest ==> EndsBy(days, x, n - 1)
    requires Some(s.lo) == FirstOf(days, n - 1) && s.lo < s.hi
    ensures Rising(rest + [s]) && Apart(rest + [s]) && forall x :: x in rest ==> EndsBy(days, x, n)
  {
    forall i | 0 <= i < |rest| ensures rest[i].hi <= s.lo {
      assert rest[i] in rest;
    }
    AppendRises(rest, s);
  }
}
