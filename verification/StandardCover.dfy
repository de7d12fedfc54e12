/**
 Standard mode leaves no hole: which blocks are stored or recorded as missing below the cursor, and what a revert that
 reports an error does to that.
 */
module StandardCover {
  import opened Sums
  import opened CommitLoop
  import opened StandardMode

  ghost predicate Held(s: State, n: int) { n in s.stored || n in s.missing }

  /** The first block there is to hold: the start block or the first retained one, and never block 0. */
  function First(s: State): int {
    if s.pruned > 0 && s.pruned >= s.start then s.pruned + 1 else if s.start > 0 then s.start else 1
  }

  ghost predicate Covers(s: State, to: int) { forall n :: First(s) <= n <= to ==> Held(s, n) }

  /** A tick over an empty store starts just below the first block to hold. */
  lemma {:induction false} EmptyStartsAtFirst(s: State, read: Reads)
    requires Inv(s, 1) && s.stored == map[] && s.missing == {} && !Remembers(s) && read == Reads(true, true, true)
    requires s.cursor > 0 || s.start > 0
    ensures AnchorOf(s, read) == Anchor(First(s) - 1, 0, false, true)
  {
    assert AtOrBelow(s.stored, s.cursor) == {};
  }

  /** Wherever a tick starts, it starts at or below the cursor or just below the first block to hold. */
  lemma {:induction false} StartsCovered(s: State, read: Reads)
    requires Inv(s, 1) && Covers(s, s.cursor)
    ensures Covers(s, AnchorOf(s, read).from) && AnchorOf(s, read).from >= 0
  {
    var below := MaxOf(AtOrBelow(s.stored, s.cursor));
    assert below.Some? ==> below.value <= s.cursor && below.value in s.stored;
  }

  lemma {:induction false} CommitsCover(s: State, a: Answers)
    requires Inv(s, 1) && Covers(s, s.cursor)
    ensures Covers(Committed(s, a), Committed(s, a).cursor)
  {
    var anchor, r := AnchorOf(s, a.read), Dropped(s.receipts, s.cursor);
    StartsCovered(s, a.read);
    if anchor.ok && a.latest > anchor.from {
      var t := Tick(anchor.from, r, [], [], None);
      LoopAccounts(a.env, anchor.from + 1, a.latest, anchor.hash, anchor.remembered, t, anchor.from);
      var t' := Loop(a.env, anchor.from + 1, a.latest, anchor.hash, anchor.remembered, t);
      LandedCovers(s, a, t', anchor.from);
    } else {
      assert forall n :: Held(s, n) ==> Held(Committed(s, a), n);
    }
  }

  lemma {:induction false} LandedCovers(s: State, a: Answers, t: Tick, from: int)
    requires Covers(s, from) && (t.stale.Some? ==> t.stale.value > t.cursor)
    requires forall m :: from < m <= t.cursor ==> m in t.indexed || m in t.skipped
    requires forall m :: m in t.indexed ==> a.env.slot(m).Ready?
    ensures var b := StoredAfter(a.env, s.stored, t.indexed);
            var b' := if t.stale.Some? then Reverted(b, HighestStored(b), t.stale.value, a.staleDel) else b;
            var missing := s.missing + Elements(t.skipped);
            Covers(s.(stored := b', cursor := t.cursor, receipts := t.receipts, missing := missing), t.cursor)
  {
    var b := StoredAfter(a.env, s.stored, t.indexed);
    StoresIndexed(a.env, s.stored, t.indexed);
    forall n | First(s) <= n <= t.cursor
      ensures n in (if t.stale.Some? then Reverted(b, HighestStored(b), t.stale.value, a.staleDel) else b)
              || n in s.missing + Elements(t.skipped)
    {
      assert n <= from ==> Held(s, n);
      if n in b && t.stale.Some? {
        RevertedIs(b, HighestStored(b), t.stale.value, a.staleDel, n);
      }
    }
  }

  /** The tick finds a fork and a delete of its revert reports an error. */
  ghost predicate RevertFails(s: State, a: Answers) {
    && s.cursor > 0 && WindowAnswers(s.stored, s.cursor, a.readable, a.chain)
    && exists n :: LowestMismatch(s.stored, s.cursor, a.chain, n) && !RevertsAll(HighestStored(s.stored), n, a.del)
  }

  lemma {:induction false} CheckCovers(s: State, a: Answers)
    requires Inv(s, 1) && Covers(s, s.cursor) && !RevertFails(s, a)
    ensures Covers(Checked(s, a).0, Checked(s, a).0.cursor)
  {
    if s.cursor > 0 {
      CheckReverts(s, a);
      var (s', ok) := Checked(s, a);
      if s' != s {
        var n :| LowestMismatch(s.stored, s.cursor, a.chain, n) && RevertedFrom(s, n, a.del, s', ok);
        forall m | First(s') <= m <= s'.cursor ensures Held(s', m) {
          assert Held(s, m);
          assert Get(s'.stored, m) == Get(s.stored, m);
        }
      }
    }
  }

  ghost predicate NoRevertFails(s: State, steps: seq<Step>) decreases |steps| {
    steps == []
    || (!(steps[0].TickStep? && RevertFails(s, steps[0].a)) && NoRevertFails(Apply(s, steps[0]), steps[1..]))
  }

  lemma {:induction false} StepCovers(s: State, step: Step)
    requires Inv(s, 1) && Covers(s, s.cursor) && Enabled(s, step) && !(step.TickStep? && RevertFails(s, step.a))
    ensures Covers(Apply(s, step), Apply(s, step).cursor)
  {
    match step
    case TickStep(a) =>
      CheckCovers(s, a);
      CheckedKeeps(s, a, 1);
      if Checked(s, a).1 {
        CommitsCover(Checked(s, a).0, a);
      }
    case FillStep(n, fetched, readable, o) =>
      forall m | First(s) <= m <= s.cursor ensures Held(Apply(s, step), m) {
        assert Held(s, m);
      }
    case PruneStep(through) =>
      forall m | First(Apply(s, step)) <= m <= s.cursor ensures Held(Apply(s, step), m) {
        assert Held(s, m);
      }
  }

  /**
   In every run in which no revert reports an error, each block from the start block, or the first retained one, to the
   cursor is stored or recorded as missing.
   */
  lemma {:induction false} AlwaysCovers(s: State, steps: seq<Step>)
    requires Inv(s, 1) && Covers(s, s.cursor) && Feasible(s, steps) && NoRevertFails(s, steps)
    ensures Covers(Run(s, steps), Run(s, steps).cursor)
    decreases |steps|
  {
    if steps != [] {
      StepCovers(s, steps[0]);
      KeepsLinks(s, steps[0], 1);
      AlwaysCovers(Apply(s, steps[0]), steps[1..]);
    }
  }

  // ---------- a revert that reports an error ----------

  /** Below every stored block nothing is lost. */
  ghost predicate TopCovered(s: State) { forall c :: c in s.stored ==> Covers(s, c) }

  /** A revert works from the top down, so whatever it leaves has no hole below it. */
  lemma {:induction false} FailedRevertLeaves(s: State, a: Answers)
    requires Inv(s, 1) && Covers(s, s.cursor)
    ensures TopCovered(Checked(s, a).0)
  {
    if s.cursor > 0 {
      ReorgLeaves(s, DepthAt(s, a), a.del);
    }
  }

  lemma {:induction false} ReorgLeaves(s: State, depth: Option<int>, del: int -> Deletion)
    requires Inv(s, 1) && Covers(s, s.cursor)
    ensures TopCovered(Reorged(s, depth, del).0)
  {
    if depth.Some? && depth.value != 0 {
      var s', from := Reorged(s, depth, del).0, s.cursor - depth.value + 1;
      assert s'.stored == Reverted(s.stored, HighestStored(s.stored), from, del);
      forall c, n | c in s'.stored && First(s') <= n <= c ensures Held(s', n) {
        LeavesBelow(s, from, del, c, n);
      }
    }
  }

  lemma {:induction false} LeavesBelow(s: State, from: int, del: int -> Deletion, c: int, n: int)
    requires Covers(s, s.cursor) && AtMost(s.stored, s.cursor) && First(s) <= n <= c
    requires c in Reverted(s.stored, HighestStored(s.stored), from, del)
    ensures n in Reverted(s.stored, HighestStored(s.stored), from, del) || n in s.missing
  {
    RevertedIs(s.stored, HighestStored(s.stored), from, del, c);
    RevertedIs(s.stored, HighestStored(s.stored), from, del, n);
    assert Held(s, n);
  }

  /**
   After it, the next tick starts with nothing lost below exactly when nothing was, or the cursor is not a skipped block
   whose hash is remembered: there the tick starts on the skipped block, over the blocks the revert deleted.
   */
  lemma {:induction false} ResumesCoveredExactly(s: State, read: Reads)
    requires Inv(s, 1) && TopCovered(s) && read == Reads(true, true, true)
    ensures Covers(s, AnchorOf(s, read).from) <==> Covers(s, s.cursor) || !Remembers(s)
  {
    var below := MaxOf(AtOrBelow(s.stored, s.cursor));
    assert below.Some? ==> below.value <= s.cursor && below.value in s.stored;
    if Remembers(s) && s.cursor > 0 && s.cursor !in s.stored {
      assert AnchorOf(s, read).from == s.cursor;
    }
  }

  /** Blocks 97 and 98 stored and 99 skipped, with its hash remembered. */
  function AfterSkip(): State {
    State(map[97 := Header(1, 9), 98 := Header(2, 1)], 99, Receipts(0, 0, 99, 3, true), {99}, 97, 0)
  }

  /** The node disagrees with 97 and 98, 98 is deleted and the delete of 97 fails. */
  function Failing(): Answers {
    Tuned(_ => Some(0), true, _ => Failed, 0).(del := n => if n == 98 then Gone else Kept)
  }

  lemma {:induction false} FailingDepth(s: State, a: Answers)
    requires s == AfterSkip() && a == Failing()
    ensures DepthAt(s, a) == Some(3)
  {
    assert InWindow(99, 97) && Mismatch(s.stored, a.chain, 97);
    MismatchIsDeep(s.stored, s.cursor, a.readable, a.chain);
    ScanExactly(s.stored, s.cursor, a.readable, a.chain);
  }

  lemma {:induction false} FailingReorg(s: State, depth: Option<int>, del: int -> Deletion)
    requires s == AfterSkip() && depth == Some(3) && del(98).Gone? && del(97).Kept?
    ensures Reorged(s, depth, del) == (s.(stored := map[97 := Header(1, 9)]), false)
  {
    var b := s.stored;
    assert 98 in b.Keys && HighestStored(b) == 98;
    assert Reverted(b, 98, 97, del) == Reverted(b - {98}, 97, 97, del) == b - {98};
    assert b - {98} == map[97 := Header(1, 9)];
  }

  lemma {:induction false} FailingDeletes(s: State, a: Answers)
    requires s == AfterSkip() && a == Failing()
    ensures Inv(s, 1) && Covers(s, s.cursor) && NodeHashesSet(a.env)
    ensures Checked(s, a) == (s.(stored := map[97 := Header(1, 9)]), false)
  {
    FailingDepth(s, a);
    FailingReorg(s, DepthAt(s, a), a.del);
  }

  /** A tick on a remembered skipped block can store the block after it and leave everything below as it was. */
  lemma {:induction false} GoesOver(s: State) returns (a: Answers)
    requires Inv(s, 1) && s.cursor > 0 && s.cursor !in s.stored && Remembers(s)
    ensures var s' := Ticked(s, a);
            NodeHashesSet(a.env) && s'.cursor == s.cursor + 1 && s'.stored.Keys == s.stored.Keys + {s.cursor + 1}
    ensures Ticked(s, a).missing == s.missing && First(Ticked(s, a)) == First(s)
  {
    var c, h := s.cursor, Header(1, s.receipts.skippedHash);
    var slot := (_: int) => Ready(h, true);
    a := Tuned(Agreeing(s.stored), true, slot, c + 1);
    AgreeingChecks(s, true, slot, c + 1);
    var t := Tick(c, s.receipts, [], [], None);
    OneBlockLoop(a.env, c, s.receipts.skippedHash, t, s.stored);
    assert s.missing + {} == s.missing;
  }

  lemma {:induction false} OneBlockLoop(env: Env, c: int, prev: Hash, t: Tick, b: Blocks)
    requires env.slot(c + 1).Ready? && env.slot(c + 1).header.parent == prev && t == Tick(c, t.receipts, [], [], None)
    requires Good(Written(env, c + 1, env.slot(c + 1).empty)) && c + 1 !in b
    ensures Loop(env, c + 1, c + 1, prev, true, t) == IndexedBlock(t, c + 1)
    ensures StoredAfter(env, b, IndexedBlock(t, c + 1).indexed) == b[c + 1 := env.slot(c + 1).header]
  {
    LoopGoesOn(env, c + 1, c + 1, prev, true, t);
    assert [] + [c + 1] == [c + 1] && [c + 1][..0] == [];
  }

  /** So a failed revert can leave a hole for good: 98 is deleted, and block 100 is then stored over the skipped 99. */
  lemma {:induction false} SkippedHashHidesAGap(s: State) returns (a: Answers)
    requires s == AfterSkip().(stored := map[97 := Header(1, 9)])
    ensures NodeHashesSet(a.env) && Ticked(s, a).cursor == 100 && 100 in Ticked(s, a).stored && !Held(Ticked(s, a), 98)
  {
    a := GoesOver(s);
  }
}
