/** How a count chooses its blocks and the late days it recounts. */
module DailyRecount {
  import opened Sums
  import opened DailyFold
  import opened DailyAdvance

  /** The blocks above the watermark a fold counts: the contiguous stored ones, up to limit of them. */
  method NextBlocks(b: Chain, wm: int, limit: int) returns (upto: int)
    requires limit >= 0
    ensures Contiguous(b, wm, upto) && upto <= wm + limit
    ensures upto < wm + limit ==> upto + 1 !in b
  {
    upto := wm;
    while upto < wm + limit && upto + 1 in b
      invariant Contiguous(b, wm, upto) && upto <= wm + limit
    {
      upto := upto + 1;
    }
  }

  // ---------- the days to recount ----------

  /**
   No block missing between the day's first and last, the ones beside it stored, or nothing below and the watermark
   above.
   */
  predicate Whole(b: Chain, d: int, upto: int) {
    var s := Day(b, d, upto);
    s != {} &&
      var (lo, hi) := (Min(s), Max(s));
      && |s| == hi - lo + 1
      && (lo == Min(b.Keys) || lo - 1 in b)
      && (hi == upto || hi + 1 in b)
  }

  predicate OnDayUpTo(b: Chain, d: int, upto: int, n: int) { n in b && n <= upto && b[n].day == d }

  /**
   A complete day, over its blocks up to the watermark: there are some, they are consecutive, the block before the first
   is stored or none below it is, and the last is the watermark or the block after it is stored.
   */
  ghost predicate Complete(b: Chain, d: int, upto: int) {
    && (exists n :: OnDayUpTo(b, d, upto, n))
    && (forall m, k, n :: OnDayUpTo(b, d, upto, m) && OnDayUpTo(b, d, upto, n) && m < k < n ==>
          OnDayUpTo(b, d, upto, k))
    && (forall n :: IsFirst(b, d, upto, n) ==> BeforeStored(b, n))
    && (forall n :: IsLast(b, d, upto, n) ==> AfterStored(b, upto, n))
  }

  predicate IsFirst(b: Chain, d: int, upto: int, n: int) {
    OnDayUpTo(b, d, upto, n) && !OnDayUpTo(b, d, upto, n - 1)
  }

  predicate IsLast(b: Chain, d: int, upto: int, n: int) {
    OnDayUpTo(b, d, upto, n) && !OnDayUpTo(b, d, upto, n + 1)
  }

  ghost predicate BeforeStored(b: Chain, n: int) { n - 1 in b || forall m :: m in b ==> n <= m }

  predicate AfterStored(b: Chain, upto: int, n: int) { n == upto || n + 1 in b }

  predicate Within(lo: int, n: int, hi: int) { lo <= n <= hi }

  function Interval(lo: int, hi: int): set<int> { set n | lo <= n <= hi && Within(lo, n, hi) }

  lemma {:induction false} IntervalSize(lo: int, hi: int)
    requires lo <= hi + 1
    ensures |Interval(lo, hi)| == hi - lo + 1
    decreases hi - lo + 1
  {
    if lo <= hi {
      IntervalSize(lo, hi - 1);
      var less := Interval(lo, hi - 1);
      forall n ensures n in Interval(lo, hi) <==> n in less + {hi} {
        assert Within(lo, n, hi) <==> Within(lo, n, hi - 1) || n == hi;
      }
      assert Interval(lo, hi) == less + {hi} && hi !in less;
    } else {
      assert Interval(lo, hi) == {};
    }
  }

  /** As many blocks as numbers between the first and the last are all of them. */
  lemma {:induction false} FullIsInterval(s: set<int>)
    requires s != {}
    ensures |s| == Max(s) - Min(s) + 1 <==> s == Interval(Min(s), Max(s))
  {
    var all := Interval(Min(s), Max(s));
    IntervalSize(Min(s), Max(s));
    assert s <= all;
    if s != all {
      assert exists n :: n in all && n !in s;
      var n :| n in all && n !in s;
      Fewer(s, all, n);
    }
  }

  lemma {:induction false} DayIs(b: Chain, d: int, upto: int)
    ensures forall n :: n in Day(b, d, upto) <==> OnDayUpTo(b, d, upto, n)
  {
  }

  /** What the query calls whole is a complete day. */
  lemma {:induction false} WholeIsComplete(b: Chain, d: int, upto: int)
    ensures Whole(b, d, upto) <==> Complete(b, d, upto)
  {
    var s := Day(b, d, upto);
    DayIs(b, d, upto);
    if s != {} {
      FullIsInterval(s);
      WholeForward(b, d, upto);
      WholeBack(b, d, upto);
    } else {
      forall n ensures !OnDayUpTo(b, d, upto, n) {
        assert n !in s;
      }
    }
  }

  lemma {:induction false} WholeForward(b: Chain, d: int, upto: int)
    requires Day(b, d, upto) != {}
    ensures Whole(b, d, upto) ==> Complete(b, d, upto)
  {
    var s := Day(b, d, upto);
    DayIs(b, d, upto);
    if Whole(b, d, upto) {
      FullIsInterval(s);
      var lo, hi := Min(s), Max(s);
      assert OnDayUpTo(b, d, upto, lo);
      assert forall n :: OnDayUpTo(b, d, upto, n) <==> n in Interval(lo, hi);
      assert forall n :: IsFirst(b, d, upto, n) ==> n == lo;
      assert forall n :: IsLast(b, d, upto, n) ==> n == hi;
    }
  }

  lemma {:induction false} WholeBack(b: Chain, d: int, upto: int)
    requires Day(b, d, upto) != {}
    ensures Complete(b, d, upto) ==> Whole(b, d, upto)
  {
    var s := Day(b, d, upto);
    DayIs(b, d, upto);
    if Complete(b, d, upto) {
      FullIsInterval(s);
      var lo, hi := Min(s), Max(s);
      forall k | lo <= k <= hi ensures k in s {
        assert OnDayUpTo(b, d, upto, lo) && OnDayUpTo(b, d, upto, hi);
      }
      assert s == Interval(lo, hi);
      assert IsFirst(b, d, upto, lo) by {
        assert lo - 1 !in s;
      }
      assert IsLast(b, d, upto, hi) by {
        assert hi + 1 !in s;
      }
      assert lo in b;
    }
  }

  /** The day of the block after the day's last one, if it is another day. */
  function After(b: Chain, d: int, upto: int): Option<int> {
    var s := Day(b, d, upto);
    if s != {} && Max(s) + 1 in b && b[Max(s) + 1].day != d then Some(b[Max(s) + 1].day) else None
  }

  lemma {:induction false} CarriesIntoAfter(b: Chain, d: int, upto: int, next: int)
    requires Ordered(b) && CarriesInto(b, d, upto, next)
    ensures After(b, d, upto) == Some(next)
  {
    var n :| n in b && HasBefore(b, n) && n <= upto && b[n - 1].day == d && b[n].day == next && next != d;
    var s := Day(b, d, upto);
    assert n - 1 in s;
    assert forall m :: m in b && m > n ==> b[n].day <= b[m].day;
    assert b[n - 1].day <= b[n].day;
    assert Max(s) == n - 1;
  }

  method Classify(b: Chain, upto: int, days: seq<int>)
    returns (complete: set<int>, pending: set<int>, next: map<int, int>)
    ensures forall d :: d in complete <==> d in days && Complete(b, d, upto)
    ensures forall d :: d in pending <==> d in days && !Complete(b, d, upto) && Day(b, d, upto) != {}
    ensures forall d :: Get(next, d) == if d in complete then After(b, d, upto) else None
  {
    complete, pending, next := {}, {}, map[];
    for i := 0 to |days|
      invariant forall d :: d in complete <==> d in days[..i] && Whole(b, d, upto)
      invariant forall d :: d in pending <==> d in days[..i] && !Whole(b, d, upto) && Day(b, d, upto) != {}
      invariant forall d :: Get(next, d) == if d in complete then After(b, d, upto) else None
    {
      var d := days[i];
      if Whole(b, d, upto) {
        complete := complete + {d};
        if After(b, d, upto).Some? {
          next := next[d := After(b, d, upto).value];
        }
      } else if Day(b, d, upto) != {} {
        pending := pending + {d};
      }
    }
    forall d ensures Whole(b, d, upto) <==> Complete(b, d, upto) {
      WholeIsComplete(b, d, upto);
    }
  }

  function Follows(next: map<int, int>, group: set<int>): set<int> { set d | d in group && d in next :: next[d] }

  /** A day carries only into a later one. */
  predicate Forward(next: map<int, int>) { forall d :: d in next ==> d < next[d] }

  predicate NotBefore(group: set<int>, first: int) { forall d :: d in group ==> first <= d }

  /** The first day of a group has stored blocks: it is the complete day the group was started for. */
  predicate StartsStored(b: Chain, upto: int, group: set<int>) { group != {} ==> Day(b, Min(group), upto) != {} }

  ghost predicate EndsBefore(b: Chain, d: int, upto: int, n: int, next: int) {
    && OnDayUpTo(b, d, upto, n) && (forall m :: OnDayUpTo(b, d, upto, m) ==> m <= n)
    && n + 1 in b && b[n + 1].day == next != d
  }

  /** The day after d is the day of the stored block next to d's last block up to upto, if it is another day. */
  lemma {:induction false} AfterExactly(b: Chain, d: int, upto: int, next: int)
    ensures After(b, d, upto) == Some(next) <==> exists n :: EndsBefore(b, d, upto, n, next)
  {
    var s := Day(b, d, upto);
    assert forall n :: n in s <==> OnDayUpTo(b, d, upto, n);
    if After(b, d, upto) == Some(next) {
      assert EndsBefore(b, d, upto, Max(s), next);
    }
    if n :| EndsBefore(b, d, upto, n, next) {
      assert n in s && Max(s) == n;
    }
  }

  lemma {:induction false} AfterIsLater(b: Chain, d: int, upto: int)
    requires Ordered(b) && After(b, d, upto).Some?
    ensures d < After(b, d, upto).value
  {
    var n := Max(Day(b, d, upto));
    assert n in b && n + 1 in b && b[n].day <= b[n + 1].day;
  }

  /** One pass over the group, adding the days its days carry into. */
  method GrowOnce(group: set<int>, next: map<int, int>, ghost first: int) returns (group': set<int>)
    requires Forward(next) && NotBefore(group, first)
    ensures group <= group' && Follows(next, group) <= group' && group' <= group + next.Values
              && NotBefore(group', first)
  {
    group' := group;
    var todo := group;
    while todo != {}
      invariant todo <= group <= group' <= group + next.Values && Follows(next, group - todo) <= group'
      invariant NotBefore(group', first)
      decreases |todo|
    {
      var d := Min(todo);
      if d in next && next[d] !in group' {
        assert d in next.Keys && next[d] in next.Values;
        group' := group' + {next[d]};
      }
      todo := todo - {d};
    }
    assert group - {} == group;
  }

  method Grow(group: set<int>, next: map<int, int>, ghost first: int) returns (group': set<int>)
    requires Forward(next) && NotBefore(group, first)
    ensures group <= group' && Follows(next, group') <= group' && NotBefore(group', first)
  {
    group' := group;
    var grew := true;
    while grew
      invariant group <= group' <= group + next.Values && (!grew ==> Follows(next, group') <= group')
      invariant NotBefore(group', first)
      decreases |group + next.Values - group'|, grew
    {
      var bigger := GrowOnce(group', next, first);
      grew := bigger != group';
      if grew {
        assert bigger - group' != {};
        ghost var d := Pick(bigger - group');
        ghost var before, after := group + next.Values - group', group + next.Values - bigger;
        Fewer(after, before, d);
      }
      group' := bigger;
    }
  }

  /**
   The days from one to before another: a day older than every aggregated one takes the days up to the first with
   it.
   */
  method DaysBetween(from: int, to: int) returns (days: set<int>)
    ensures forall d :: d in days <==> from <= d < to
  {
    days := {};
    var d := from;
    while d < to
      invariant from <= d && (d <= to || days == {}) && forall x :: x in days <==> from <= x < d && x < to
    {
      days := days + {d};
      d := d + 1;
    }
  }

  /**
   The first complete day with every day its recount carries into; the other complete days are left for later and the
   incomplete ones until their blocks are there. Every given day is dealt with as the fold's soundness requires.
   */
  method RecountDays(b: Chain, acc: map<int, Row>, upto: int, days: seq<int>)
    returns (group: set<int>, later: set<int>, pending: set<int>)
    requires Ordered(b)
    ensures forall d :: d in later || d in pending ==> d in days
    ensures forall d :: d in days ==> Dealt(b, upto, group, later + pending, d)
    ensures forall d :: d in pending <==> d in days && !Complete(b, d, upto) && Day(b, d, upto) != {}
    ensures forall d :: d in days && Day(b, d, upto) != {} ==>
              (d in group + later && d !in pending <==> Complete(b, d, upto))
    ensures forall d :: d in later ==> d !in group && Complete(b, d, upto)
    ensures group == {} <==> forall d :: d in days ==> !Complete(b, d, upto)
    ensures group != {} ==> Min(group) in days && Complete(b, Min(group), upto)
    ensures StartsStored(b, upto, group)
  {
    var complete, next;
    complete, pending, next := Classify(b, upto, days);
    if complete == {} {
      return {}, {}, pending;
    }
    var first := Min(complete);
    forall d | d in next ensures d < next[d] {
      assert Get(next, d) == Some(next[d]);
      AfterIsLater(b, d, upto);
    }
    group := {first};
    if acc.Keys != {} {
      var older := DaysBetween(first, Min(acc.Keys));
      group := group + older;
    }
    ghost var started := group;
    group := Grow(group, next, first);
    later := set d | d in complete && d !in group;
    assert first in started && Min(group) == first && first in complete;
    assert Day(b, first, upto) != {} by {
      DayIs(b, first, upto);
      var n :| OnDayUpTo(b, first, upto, n);
      assert n in Day(b, first, upto);
    }
    forall d | d in days ensures Dealt(b, upto, group, later + pending, d) {
      if d in complete && d in group {
        forall x | CarriesInto(b, d, upto, x) ensures x in group {
          CarriesIntoAfter(b, d, upto, x);
          assert Get(next, d) == Some(x);
          assert next[d] in Follows(next, group);
        }
      }
    }
  }

  method SortedDays(days: set<int>) returns (r: seq<int>)
    ensures forall i, j :: 0 <= i < j < |r| ==> r[i] < r[j]
    ensures forall d :: d in r <==> d in days
  {
    r := [];
    var todo := days;
    while todo != {}
      invariant todo <= days && (forall d :: d in r <==> d in days && d !in todo)
      invariant forall i, j :: 0 <= i < j < |r| ==> r[i] < r[j]
      invariant forall i, d :: 0 <= i < |r| && d in todo ==> r[i] < d
      decreases |todo|
    {
      var d := Min(todo);
      r, todo := r + [d], todo - {d};
    }
  }

  /** A count of the stored blocks as they are now, which is what the soundness of the fold asks of one. */
  method CountFold(w: World, limit: int) returns (upto: int, group: set<int>, later: set<int>, pending: set<int>)
    requires Inv(w) && w.held.Some? && w.staged.None? && limit >= 0
    ensures CountRules(w, upto, group, later, pending) && upto <= w.agg.wm + limit
    ensures upto < w.agg.wm + limit ==> upto + 1 !in w.blocks
    ensures StartsStored(w.blocks, upto, group)
    ensures forall d :: d in pending <==>
              d in w.held.value.todo && !Complete(w.blocks, d, upto) && Day(w.blocks, d, upto) != {}
    ensures forall d :: d in later ==> d !in group
    ensures group == {} <==> forall d :: d in w.held.value.todo ==> !Complete(w.blocks, d, upto)
    ensures group != {} ==> Min(group) in w.held.value.todo
  {
    upto := NextBlocks(w.blocks, w.agg.wm, limit);
    var days := SortedDays(w.held.value.todo);
    group, later, pending := RecountDays(w.blocks, Advanced(w.blocks, w.agg, upto).acc, upto, days);
    forall d | d in later + pending ensures d in w.held.value.todo {
      assert d in later || d in pending;
      assert d in days;
    }
    if group != {} {
      assert Min(group) in days && Complete(w.blocks, Min(group), upto);
      assert Min(group) in w.held.value.todo;
    }
  }
}
