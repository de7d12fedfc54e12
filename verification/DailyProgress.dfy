/** An advance that no writer disturbs gets through its late days. */
module DailyProgress {
  import opened Sums
  import opened DailyFold
  import opened DailyAdvance
  import opened DailyRecount
  import opened DailyRun

  /** From any stored block up to the watermark every block is stored. */
  ghost predicate Gapless(b: Chain, wm: int) { forall m, n :: m in b && m <= n <= wm ==> n in b }

  lemma {:induction false} StillGapless(b: Chain, wm: int, upto: int)
    requires Gapless(b, wm) && Contiguous(b, wm, upto)
    ensures Gapless(b, upto)
  {
  }

  /** With no block missing every day that has blocks is complete. */
  lemma {:induction false} GaplessIsComplete(b: Chain, upto: int, d: int)
    requires Ordered(b) && Gapless(b, upto) && Day(b, d, upto) != {}
    ensures Complete(b, d, upto)
  {
    DayIs(b, d, upto);
    assert OnDayUpTo(b, d, upto, Min(Day(b, d, upto)));
    forall m, k, n | OnDayUpTo(b, d, upto, m) && OnDayUpTo(b, d, upto, n) && m < k < n
      ensures OnDayUpTo(b, d, upto, k)
    {
      assert k in b && b[m].day <= b[k].day <= b[n].day;
    }
    forall n | IsFirst(b, d, upto, n) ensures BeforeStored(b, n) {
      if m :| m in b && m < n {
        assert m <= n - 1 <= upto;
      }
    }
    forall n | IsLast(b, d, upto, n) ensures AfterStored(b, upto, n) {
      assert n < upto ==> n + 1 in b;
    }
  }

  lemma {:induction false} RunConcat(w: World, steps: seq<Step>, more: seq<Step>)
    requires Feasible(w, steps) && Feasible(Run(w, steps), more)
    ensures Feasible(w, steps + more) && Run(w, steps + more) == Run(Run(w, steps), more)
    decreases |steps|
  {
    if steps == [] {
      assert [] + more == more;
    } else {
      assert (steps + more)[0] == steps[0] && (steps + more)[1..] == steps[1..] + more;
      RunConcat(Apply(w, steps[0]), steps[1..], more);
    }
  }

  predicate ByFolds(steps: seq<Step>) {
    forall i :: 0 <= i < |steps| ==> steps[i].Count? || steps[i].ApplyFold? || steps[i].Nothing?
  }

  function BlocksAbove(w: World): set<int> { set n | n in w.blocks && n > w.agg.wm }

  /** An advance between two counts, with nothing found incomplete so far and no block missing below the watermark. */
  ghost predicate Folding(w: World) {
    Inv(w) && w.held.Some? && w.staged.None? && w.held.value.pending == {} && Gapless(w.blocks, w.agg.wm)
  }

  /** One count of a gapless store leaves nothing incomplete, and fewer late days if any day is recounted. */
  lemma {:induction false} CountShrinks(w: World, upto: int, group: set<int>, later: set<int>, pending: set<int>)
    requires Folding(w) && CountRules(w, upto, group, later, pending)
    requires forall d :: d in pending ==> !Complete(w.blocks, d, upto) && Day(w.blocks, d, upto) != {}
    requires group != {} ==> Min(group) in w.held.value.todo
    requires forall d :: d in later ==> d !in group
    ensures pending == {} && later <= w.held.value.todo && (group != {} ==> |later| < |w.held.value.todo|)
  {
    StillGapless(w.blocks, w.agg.wm, upto);
    forall d | d in pending ensures false {
      GaplessIsComplete(w.blocks, upto, d);
    }
    assert later + pending <= w.held.value.todo;
    if group != {} {
      Fewer(later, w.held.value.todo, Min(group));
    }
  }

  /** What folds leave alone. */
  predicate Beside(w: World, w': World) {
    && w'.blocks == w.blocks && w'.agg.wm >= w.agg.wm && w'.days == w.days && w'.unnoted == w.unnoted
    && w'.searched == w.searched && w'.notedTo == w.notedTo
  }

  ghost predicate Reaches(w: World, steps: seq<Step>, w': World) {
    Feasible(w, steps) && Run(w, steps) == w' && ByFolds(steps) && Folding(w') && Beside(w, w')
  }

  lemma {:induction false} TwoSteps(w: World, s1: Step, w1: World, s2: Step, w2: World)
    requires Enabled(w, s1) && Apply(w, s1) == w1 && Enabled(w1, s2) && Apply(w1, s2) == w2
    ensures Feasible(w, [s1, s2]) && Run(w, [s1, s2]) == w2
  {
    assert [s1, s2][1..] == [s2] && [s2][1..] == [];
    assert Run(w1, [s2]) == Run(w2, []);
  }

  /** A fold counted and applied with no writer between. */
  function Folded(w: World, upto: int, group: set<int>, later: set<int>): World
    requires w.held.Some?
  {
    Applied(Stage(w, upto, group, later, {}))
  }

  lemma {:induction false} FoldedIs(w: World, upto: int, group: set<int>, later: set<int>)
    requires w.held.Some? && w.staged.None? && w.held.value.pending == {} && w.agg.wm <= upto
    ensures var w' := Folded(w, upto, group, later);
            && Beside(w, w') && w'.agg.wm == upto && w'.staged.None?
            && w'.held == Some(Held(w.held.value.all, later, {}, Some(upto)))
  {
    assert w.held.value.pending + {} == {};
  }

  lemma {:induction false} FoldedKeeps(w: World, upto: int, group: set<int>, later: set<int>)
    requires Inv(w) && CountRules(w, upto, group, later, {})
    ensures Inv(Folded(w, upto, group, later))
    ensures var steps := [Count(upto, group, later, {}), ApplyFold];
            Feasible(w, steps) && Run(w, steps) == Folded(w, upto, group, later)
  {
    var w1 := Stage(w, upto, group, later, {});
    CountKeeps(w, upto, group, later, {});
    ApplyKeeps(w1);
    TwoSteps(w, Count(upto, group, later, {}), w1, ApplyFold, Applied(w1));
  }

  lemma {:induction false} CountThenApply(w: World, upto: int, group: set<int>, later: set<int>)
    requires Folding(w) && CountRules(w, upto, group, later, {})
    ensures Reaches(w, [Count(upto, group, later, {}), ApplyFold], Folded(w, upto, group, later))
  {
    FoldedIs(w, upto, group, later);
    FoldedKeeps(w, upto, group, later);
    StillGapless(w.blocks, w.agg.wm, upto);
  }

  /** Through everything the fold is for: the blocks after the watermark and the late days. */
  ghost predicate Through(w: World) {
    w.held.Some? && w.held.value.todo == {} && w.held.value.upto == Some(w.agg.wm) && w.agg.wm + 1 !in w.blocks
  }

  ghost predicate Closer(w: World, w': World)
    requires w.held.Some? && w'.held.Some?
  {
    || |BlocksAbove(w')| < |BlocksAbove(w)|
    || (|BlocksAbove(w')| == |BlocksAbove(w)| && |w'.held.value.todo| < |w.held.value.todo|)
  }

  lemma {:induction false} FoldedCloser(w: World, upto: int, group: set<int>, later: set<int>)
    requires Folding(w) && CountRules(w, upto, group, later, {}) && (upto > w.agg.wm || group != {})
    requires group != {} ==> |later| < |w.held.value.todo|
    ensures Folded(w, upto, group, later).held.Some? && Closer(w, Folded(w, upto, group, later))
  {
    FoldedIs(w, upto, group, later);
    FewerAbove(w, Folded(w, upto, group, later));
  }

  /** One count and its apply, or nothing left to count. */
  method FoldOnce(w: World, limit: int) returns (w': World, done: bool, ghost steps: seq<Step>)
    requires Folding(w) && limit > 0
    ensures Reaches(w, steps, w') && (done ==> Through(w')) && (!done ==> Closer(w, w'))
  {
    var upto, group, later, pending := CountFold(w, limit);
    CountShrinks(w, upto, group, later, pending);
    if upto == w.agg.wm && group == {} {
      NothingLeft(w, later);
      return NothingDone(w), true, [Nothing({})];
    }
    CountThenApply(w, upto, group, later);
    FoldedIs(w, upto, group, later);
    FoldedCloser(w, upto, group, later);
    w' := Folded(w, upto, group, later);
    done := upto - w.agg.wm < limit && later == {};
    steps := [Count(upto, group, later, {}), ApplyFold];
  }

  /**
   The fold's loop with no writer between its counts and applies: it ends with every block that follows the watermark
   counted, no late day left and none incomplete. steps is the run it makes.
   */
  method FoldUndisturbed(w: World, limit: int) returns (w': World, ghost steps: seq<Step>)
    requires Folding(w) && limit > 0
    ensures Reaches(w, steps, w') && Through(w')
  {
    w', steps := w, [];
    var done := false;
    while !done
      invariant Reaches(w, steps, w') && (done ==> Through(w'))
      decreases !done, |BlocksAbove(w')|, |w'.held.value.todo|
    {
      ghost var more;
      w', done, more := FoldOnce(w', limit);
      RunConcat(w, steps, more);
      steps := steps + more;
    }
  }

  function NothingDone(w: World): World
    requires w.held.Some?
  {
    w.(held := Some(w.held.value.(todo := {}, pending := w.held.value.pending + {}, upto := Some(w.agg.wm))))
  }

  /** No complete day among the late ones: none of them has a block. */
  lemma {:induction false} NothingLeft(w: World, later: set<int>)
    requires Folding(w) && CountRules(w, w.agg.wm, {}, later, {})
    requires forall d :: d in w.held.value.todo ==> !Complete(w.blocks, d, w.agg.wm)
    ensures Reaches(w, [Nothing({})], NothingDone(w))
  {
    forall d | d in w.held.value.todo ensures Day(w.blocks, d, w.agg.wm) == {} {
      if Day(w.blocks, d, w.agg.wm) != {} {
        GaplessIsComplete(w.blocks, w.agg.wm, d);
      }
    }
    assert Enabled(w, Nothing({})) && Apply(w, Nothing({})) == NothingDone(w);
    NothingKeeps(w, {});
    assert [Nothing({})][1..] == [] && Run(NothingDone(w), []) == NothingDone(w);
  }

  lemma {:induction false} FewerAbove(w: World, w': World)
    requires w'.blocks == w.blocks && Contiguous(w.blocks, w.agg.wm, w'.agg.wm)
    ensures BlocksAbove(w') <= BlocksAbove(w)
    ensures w'.agg.wm > w.agg.wm ==> |BlocksAbove(w')| < |BlocksAbove(w)|
    ensures w'.agg.wm == w.agg.wm ==> BlocksAbove(w') == BlocksAbove(w)
  {
    if w'.agg.wm > w.agg.wm {
      Fewer(BlocksAbove(w'), BlocksAbove(w), w.agg.wm + 1);
    }
  }

  /**
   So an advance that takes the notes, has searched, and is not disturbed leaves a quiet run, in which each stored block
   up to the watermark counts once, if no block is missing below it and every write is noted.
   */
  method AdvanceQuietly(w: World, limit: int) returns (w': World, ghost steps: seq<Step>)
    requires Inv(w) && w.held.None? && w.staged.None? && w.unnoted == {} && Gapless(w.blocks, w.agg.wm) && limit > 0
    ensures Feasible(w, steps) && Run(w, steps) == w' && Quiet(w')
    ensures w'.blocks == w.blocks && w'.agg.wm + 1 !in w.blocks
    ensures forall d :: d in w'.agg.acc ==> w'.agg.acc[d] == Recount(w', d)
  {
    TakenFolds(w);
    ghost var folds;
    w', folds := FoldUndisturbed(Taken(w), limit);
    steps := [Take, Search] + folds + [GiveBack(true), Report];
    QuietRun(w, folds, w');
    w' := Returned(w');
  }

  lemma {:induction false} QuietRun(w: World, folds: seq<Step>, w1: World)
    requires Inv(w) && w.held.None? && w.staged.None? && w.unnoted == {} && Gapless(w.blocks, w.agg.wm)
    requires Reaches(Taken(w), folds, w1) && Through(w1)
    ensures var steps, w' := [Take, Search] + folds + [GiveBack(true), Report], Returned(w1);
            && Feasible(w, steps) && Run(w, steps) == w' && Quiet(w') && w'.blocks == w.blocks
            && w'.agg.wm + 1 !in w.blocks
            && forall d :: d in w'.agg.acc ==> w'.agg.acc[d] == Recount(w', d)
  {
    TakenFolds(w);
    Returns(w1);
    ThreeRuns(w, [Take, Search], folds, [GiveBack(true), Report]);
    EndsQuiet(w, [Take, Search] + folds + [GiveBack(true), Report], Returned(w1));
  }

  lemma {:induction false} ThreeRuns(w: World, a: seq<Step>, b: seq<Step>, c: seq<Step>)
    requires Feasible(w, a) && Feasible(Run(w, a), b) && Feasible(Run(Run(w, a), b), c)
    ensures Feasible(w, a + b + c) && Run(w, a + b + c) == Run(Run(Run(w, a), b), c)
  {
    RunConcat(w, a, b);
    RunConcat(w, a + b, c);
  }

  lemma {:induction false} EndsQuiet(w: World, steps: seq<Step>, w': World)
    requires Inv(w) && Feasible(w, steps) && Run(w, steps) == w' && Quiet(w')
    ensures forall d :: d in w'.agg.acc ==> w'.agg.acc[d] == Recount(w', d)
  {
    InvRun(w, steps);
    QuietIsExact(w');
    forall d | d in w'.agg.acc ensures w'.agg.acc[d] == Recount(w', d) {
      RecountIs(w', d);
    }
  }

  /** The notes taken and the stored blocks searched. */
  function Taken(w: World): World {
    Searched(w.(held := Some(Held(w.days, w.days, {}, None)), days := {}))
  }

  lemma {:induction false} TakenFolds(w: World)
    requires Inv(w) && w.held.None? && w.staged.None? && Gapless(w.blocks, w.agg.wm)
    ensures Feasible(w, [Take, Search]) && Run(w, [Take, Search]) == Taken(w) && Folding(Taken(w))
    ensures Taken(w).days == {} && Taken(w).unnoted == w.unnoted && Taken(w).searched && Taken(w).blocks == w.blocks
  {
    var w1 := Apply(w, Take);
    TakeKeeps(w);
    SearchSound(w1);
    assert [Take, Search][1..] == [Search] && [Search][1..] == [];
    assert Run(w1, [Search]) == Run(Taken(w), []);
  }

  function Returned(w: World): World
    requires w.held.Some?
  {
    GivenBack(w, true).(held := None, notedTo := w.held.value.upto)
  }

  lemma {:induction false} Returns(w: World)
    requires Folding(w) && Through(w)
    ensures Feasible(w, [GiveBack(true), Report]) && Run(w, [GiveBack(true), Report]) == Returned(w)
    ensures Returned(w).days == w.days
  {
    var w1 := GivenBack(w, true);
    assert [GiveBack(true), Report][1..] == [Report] && [Report][1..] == [];
    assert Enabled(w1, Report) && Apply(w1, Report) == Returned(w);
    assert Run(w1, [Report]) == Run(Returned(w), []);
    assert w.days + {} == w.days;
  }
}
