/** Every run of block writes, reverts, advances and restarts. */
module DailyRun {
  import opened Sums
  import opened DailyFold
  import opened DailyAdvance

  datatype Step =
    | StoreBlock(n: int, b: Block)
    | Note(n: int)
    | Revert(n: int)
    | Take
    | Search
    | Count(upto: int, group: set<int>, later: set<int>, pending: set<int>)
    | Nothing(pending: set<int>)
    | ApplyFold
    | Locked(upto: int)
    | GiveBack(done: bool)
    | Report
    | Quit
    | Extra(day: int)
    | Restart

  ghost predicate Enabled(w: World, step: Step) {
    match step
    case StoreBlock(n, b) => n !in w.blocks && Ordered(w.blocks[n := b])
    case Note(n) => n in w.unnoted
    case Revert(n) => true
    case Take => w.held.None? && w.staged.None?
    case Search => w.held.Some? && w.staged.None?
    case Count(upto, group, later, pending) => CountRules(w, upto, group, later, pending)
    case Nothing(pending) => CountRules(w, w.agg.wm, {}, {}, pending)
    case ApplyFold => w.staged.Some? && w.held.Some?
    case Locked(upto) => w.held.Some? && w.staged.None? && Contiguous(w.blocks, w.agg.wm, upto)
    case GiveBack(done) => w.held.Some? && (done ==> w.staged.None? && w.held.value.todo == {})
    case Report => w.held.Some? && w.staged.None? && w.held.value.all == {} && w.held.value.upto.Some?
    case Quit => w.held.Some? && w.staged.None? && w.held.value.all == {}
    case Extra(_) => true
    case Restart => true
  }

  /** daily_stats_fold_apply: nothing is written unless the generation is the one the count read. */
  function Applied(w: World): World
    requires w.staged.Some? && w.held.Some?
  {
    if w.generation != w.staged.value.generation then w.(staged := None) else
      var s := Shadow(w);
      s.(generation := w.generation + 1, staged := None, held := Some(s.held.value.(upto := Some(s.agg.wm))))
  }

  /** What an advance gives back: the days it found incomplete, or all it had when it did not get through them. */
  function GivenBack(w: World, done: bool): World
    requires w.held.Some?
  {
    var h := w.held.value;
    w.(held := Some(Held({}, {}, {}, h.upto)), staged := None, days := w.days + (if done then h.pending else h.all))
  }

  ghost function Apply(w: World, step: Step): World
    requires Enabled(w, step)
  {
    match step
    case StoreBlock(n, b) => Committed(w, n, b)
    case Note(n) => NoteBlock(w, n)
    case Revert(n) => Reverted(w, n)
    case Take => w.(held := Some(Held(w.days, w.days, {}, None)), days := {})
    case Search => Searched(w)
    case Count(upto, group, later, pending) => Stage(w, upto, group, later, pending)
    case Nothing(pending) =>
      var h := w.held.value;
      w.(held := Some(h.(todo := {}, pending := h.pending + pending, upto := Some(w.agg.wm))))
    case ApplyFold => Applied(w)
    case Locked(upto) =>
      w.(agg := Advanced(w.blocks, w.agg, upto), generation := w.generation + 1,
         held := Some(w.held.value.(upto := Some(upto))))
    case GiveBack(done) => GivenBack(w, done)
    case Report => w.(held := None, notedTo := w.held.value.upto)
    case Quit => w.(held := None)
    case Extra(day) => w.(days := w.days + {day})
    case Restart => w.(notedTo := None, days := {}, unnoted := {}, searched := false, held := None, staged := None)
  }

  // ---------- each step ----------

  /** Sound depends on the days only through which blocks are noted. */
  lemma {:induction false} StaysSound(w: World, w': World)
    requires Sound(w) && w'.blocks == w.blocks && w'.agg == w.agg && Reached(w') && (w'.searched ==> w.searched)
    requires w'.searched ==> forall n :: n <= w.agg.wm && Noted(w, n) ==> Noted(w', n)
    ensures Sound(w')
  {
    if w'.searched {
      forall n ensures Explained(w', n) {
        assert Explained(w, n);
      }
    }
  }

  lemma {:induction false} RecountNone(b: Chain, g: Agg)
    ensures Recounted(b, g, {}) == g
  {
    var g', again := Recounted(b, g, {}), OnDays(b, {}, g.wm);
    assert again == {} && again * Paired(b) == {};
    assert g'.own == g.own && g'.paired == g.paired;
    assert DaysOf(b, again) == {};
    forall d ensures Get(g'.acc, d) == Get(g.acc, d) {
    }
    SameRows(g'.acc, g.acc);
  }

  lemma {:induction false} AdvanceNone(b: Chain, g: Agg)
    ensures Advanced(b, g, g.wm) == g
  {
    var g', more := Advanced(b, g, g.wm), Above(b, g.wm, g.wm);
    assert more == {} && more * Paired(b) == {};
    assert g'.own == g.own && g'.paired == g.paired;
    assert DaysOf(b, more) == {};
    forall d ensures Get(g'.acc, d) == Get(g.acc, d) {
      assert OnDay(b, more, d) == {};
    }
    SameRows(g'.acc, g.acc);
  }

  lemma {:induction false} TakeKeeps(w: World)
    requires Inv(w) && Enabled(w, Take)
    ensures Inv(Apply(w, Take))
  {
    StaysSound(w, Apply(w, Take));
  }

  lemma {:induction false} GiveBackKeeps(w: World, done: bool)
    requires Inv(w) && Enabled(w, GiveBack(done))
    ensures Inv(GivenBack(w, done))
  {
    StaysSound(w, GivenBack(w, done));
  }

  lemma {:induction false} ReportKeeps(w: World)
    requires Inv(w) && Enabled(w, Report)
    ensures Inv(Apply(w, Report))
  {
    StaysSound(w, Apply(w, Report));
  }

  lemma {:induction false} ExtraKeeps(w: World, day: int)
    requires Inv(w)
    ensures Inv(w.(days := w.days + {day}))
  {
    var w' := w.(days := w.days + {day});
    StaysSound(w, w');
    if w.staged.Some? && w.staged.value.generation == w.generation {
      StaysSound(Shadow(w), Shadow(w'));
    }
  }

  lemma {:induction false} ApplyKeeps(w: World)
    requires Inv(w) && Enabled(w, ApplyFold)
    ensures Inv(Apply(w, ApplyFold))
  {
    if w.generation == w.staged.value.generation {
      StaysSound(Shadow(w), Applied(w));
    } else {
      StaysSound(w, Applied(w));
    }
  }

  lemma {:induction false} NothingKeeps(w: World, pending: set<int>)
    requires Inv(w) && Enabled(w, Nothing(pending))
    ensures Inv(Apply(w, Nothing(pending)))
  {
    CountSound(w, w.agg.wm, {}, {}, pending);
    AdvanceNone(w.blocks, w.agg);
    RecountNone(w.blocks, w.agg);
    StaysSound(Shadow(Stage(w, w.agg.wm, {}, {}, pending)), Apply(w, Nothing(pending)));
  }

  lemma {:induction false} LockedKeeps(w: World, upto: int)
    requires Inv(w) && Enabled(w, Locked(upto))
    ensures Inv(Apply(w, Locked(upto)))
  {
    var todo := w.held.value.todo;
    CountSound(w, upto, {}, todo, {});
    RecountNone(w.blocks, Advanced(w.blocks, w.agg, upto));
    StaysSound(Shadow(Stage(w, upto, {}, todo, {})), Apply(w, Locked(upto)));
  }

  lemma {:induction false} CountKeeps(w: World, upto: int, group: set<int>, later: set<int>, pending: set<int>)
    requires Inv(w) && CountRules(w, upto, group, later, pending)
    ensures Inv(Stage(w, upto, group, later, pending))
  {
    CountSound(w, upto, group, later, pending);
    StaysSound(w, Stage(w, upto, group, later, pending));
  }

  lemma {:induction false} StoreKeeps(w: World, n: int, b: Block)
    requires Inv(w) && Enabled(w, StoreBlock(n, b))
    ensures Inv(Committed(w, n, b))
  {
    CommitSound(w, n, b);
    if w.staged.Some? && w.staged.value.generation == w.generation {
      CommitSound(Shadow(w), n, b);
      assert Shadow(Committed(w, n, b)) == Committed(Shadow(w), n, b);
    }
  }

  lemma {:induction false} NoteKeeps(w: World, n: int)
    requires Inv(w)
    ensures Inv(NoteBlock(w, n))
  {
    NoteSound(w, n);
    if w.staged.Some? && w.staged.value.generation == w.generation {
      NoteSound(Shadow(w), n);
      assert Shadow(NoteBlock(w, n)) == NoteBlock(Shadow(w), n);
    }
  }

  lemma {:induction false} InvStep(w: World, step: Step)
    requires Inv(w) && Enabled(w, step)
    ensures Inv(Apply(w, step))
  {
    match step
    case StoreBlock(n, b) => StoreKeeps(w, n, b);
    case Note(n) => NoteKeeps(w, n);
    case Revert(n) => RevertSound(w, n);
    case Take => TakeKeeps(w);
    case Search => SearchSound(w);
    case Count(upto, group, later, pending) => CountKeeps(w, upto, group, later, pending);
    case Nothing(pending) => NothingKeeps(w, pending);
    case ApplyFold => ApplyKeeps(w);
    case Locked(upto) => LockedKeeps(w, upto);
    case GiveBack(done) => GiveBackKeeps(w, done);
    case Report => ReportKeeps(w);
    case Quit => StaysSound(w, Apply(w, Quit));
    case Extra(day) => ExtraKeeps(w, day);
    case Restart => StaysSound(w, Apply(w, Restart));
  }

  // ---------- every run ----------

  /** The generation never goes down, and whatever changes the aggregate raises it. */
  lemma {:induction false} ChangesRaiseGeneration(w: World, steps: seq<Step>)
    requires Feasible(w, steps)
    ensures Run(w, steps).generation >= w.generation
    ensures Run(w, steps).agg != w.agg ==> Run(w, steps).generation > w.generation
    decreases |steps|
  {
    if steps != [] {
      ChangesRaiseGeneration(Apply(w, steps[0]), steps[1..]);
    }
  }

  ghost predicate Feasible(w: World, steps: seq<Step>) decreases |steps| {
    steps == [] || (Enabled(w, steps[0]) && Feasible(Apply(w, steps[0]), steps[1..]))
  }

  ghost function Run(w: World, steps: seq<Step>): World
    requires Feasible(w, steps)
    decreases |steps|
  {
    if steps == [] then w else Run(Apply(w, steps[0]), steps[1..])
  }

  lemma {:induction false} InvRun(w: World, steps: seq<Step>)
    requires Inv(w) && Feasible(w, steps)
    ensures Inv(Run(w, steps))
    decreases |steps|
  {
    if steps != [] {
      InvStep(w, steps[0]);
      InvRun(Apply(w, steps[0]), steps[1..]);
    }
  }

  /** No advance under way, the stored blocks searched since the start, and no late day or unnoted block left. */
  predicate Quiet(w: World) { w.searched && w.held.None? && w.days == {} && w.unnoted == {} }

  /** Any database with nothing aggregated yet, whatever its watermark. */
  ghost predicate Fresh(w: World) {
    && Ordered(w.blocks) && w.agg.acc == map[] && w.agg.own == {} && w.agg.paired == {}
    && w.notedTo.None? && !w.searched && w.held.None? && w.staged.None?
  }

  /**
   Once no late day is left, every aggregated day's sums are a recount of its stored blocks up to the watermark, and
   every stored block up to the watermark is on an aggregated day: each counts exactly once.
   */
  lemma {:induction false} EachBlockCountsOnce(w: World, steps: seq<Step>)
    requires Fresh(w) && Feasible(w, steps) && Quiet(Run(w, steps))
    ensures var w' := Run(w, steps);
            && (forall d :: d in w'.agg.acc ==> w'.agg.acc[d] == Recount(w', d))
            && (forall n :: n in w'.blocks && n <= w'.agg.wm ==> w'.blocks[n].day in w'.agg.acc)
  {
    InvRun(w, steps);
    var w' := Run(w, steps);
    QuietIsExact(w');
    forall d | d in w'.agg.acc ensures w'.agg.acc[d] == Recount(w', d) {
      RecountIs(w', d);
    }
  }

  /** A day's row counted from its stored blocks: how many, their gas and transactions, and the times between pairs. */
  ghost function Recount(w: World, d: int): Row {
    SumsOf(w.blocks, Day(w.blocks, d, w.agg.wm), Paired(w.blocks))
  }

  lemma {:induction false} RecountIs(w: World, d: int)
    ensures Total(w.blocks, Day(w.blocks, d, w.agg.wm), Paired(w.blocks)) == Recount(w, d)
  {
    TotalIs(w.blocks, Day(w.blocks, d, w.agg.wm), Paired(w.blocks));
  }

  lemma {:induction false} QuietIsExact(w: World)
    requires Inv(w) && Quiet(w)
    ensures forall d :: d in w.agg.acc ==> w.agg.acc[d] == Total(w.blocks, Day(w.blocks, d, w.agg.wm), Paired(w.blocks))
    ensures forall n :: n in w.blocks && n <= w.agg.wm ==> w.blocks[n].day in w.agg.acc
  {
    var b, g := w.blocks, w.agg;
    assert Late(w) == {};
    forall n | n in b && n <= g.wm ensures n in g.own && (HasBefore(b, n) ==> n in g.paired) {
      assert Explained(w, n);
    }
    forall d | d in g.acc ensures g.acc[d] == Total(b, Day(b, d, g.wm), Paired(b)) {
      assert OnDay(b, g.own, d) == Day(b, d, g.wm);
      TotalCong(b, b, Day(b, d, g.wm), g.paired, Paired(b));
    }
  }

  predicate ByWriters(steps: seq<Step>) {
    forall i :: 0 <= i < |steps| ==> steps[i].StoreBlock? || steps[i].Note? || steps[i].Extra? || steps[i].Revert?
  }

  predicate NoRevert(steps: seq<Step>) { forall i :: 0 <= i < |steps| ==> !steps[i].Revert? }

  /** The writers leave a staged fold alone, and only a revert changes the aggregate or its generation. */
  lemma {:induction false} WritersLeaveStaged(w: World, steps: seq<Step>)
    requires Feasible(w, steps) && ByWriters(steps)
    ensures var u := Run(w, steps);
            && u.staged == w.staged && u.held == w.held && u.generation >= w.generation
            && (if NoRevert(steps) then u.generation == w.generation && u.agg == w.agg else u.generation > w.generation)
    decreases |steps|
  {
    if steps != [] {
      assert NoRevert(steps) <==> !steps[0].Revert? && NoRevert(steps[1..]) by {
        assert steps == [steps[0]] + steps[1..];
      }
      WritersLeaveStaged(Apply(w, steps[0]), steps[1..]);
    }
  }

  /**
   After any run of writers since a count, its apply writes the staged aggregate exactly when none of them was a revert;
   otherwise nothing changes but that the count is gone, so it is made again.
   */
  lemma {:induction false} AppliesUnlessReverted(w: World, steps: seq<Step>)
    requires w.staged.Some? && w.held.Some? && w.staged.value.generation == w.generation
    requires Feasible(w, steps) && ByWriters(steps)
    ensures var u := Run(w, steps);
            && Enabled(u, ApplyFold)
            && var u' := Apply(u, ApplyFold);
               if NoRevert(steps) then u'.agg == w.staged.value.agg && u'.generation > w.generation
               else u' == u.(staged := None)
  {
    WritersLeaveStaged(w, steps);
  }
}
