/** The realtime loop: its cursor never passes a block that is neither stored nor handed to catch-up. */
module Realtime {
  import opened Sums
  import opened CommitLoop
  import SM = StandardMode

  const MAX_REORG_DEPTH := 128

  type Blocks = SM.Blocks

  /**
   handed is what is recorded for catch-up and not yet stored, failed the fork of a revert that failed (0 when none),
   and pending says that a revert has yet to be seen through.
   */
  datatype State = State(stored: Blocks, cursor: int, handed: set<int>, failed: int, pending: bool, receipts: Receipts,
                         maxBehind: int)

  /** What the node and the database answer during one tick. */
  datatype Answers = Answers(readable: int -> bool, chain: int -> Option<Hash>, below: bool, latest: bool,
                             del: int -> SM.Deletion,
                             saved: bool, env: Env, block: bool, staleDel: int -> SM.Deletion)

  ghost predicate Accounted(b: Blocks, handed: set<int>, n: int) { n in b || n in handed }

  ghost predicate Covered(b: Blocks, handed: set<int>, start: int, to: int) {
    forall n :: start < n <= to ==> Accounted(b, handed, n)
  }

  // ---------- after a failed revert ----------

  function ResumeAt(s: State): int {
    var below := MaxOf(SM.AtOrBelow(s.stored, s.cursor));
    var resume := if below.Some? && below.value > s.failed - 1 then below.value else s.failed - 1;
    if resume < s.cursor then resume else s.cursor
  }

  /** The cursor goes to the highest stored block at or below it, and no lower than the block before the fork. */
  function Resumed(s: State): State { if s.failed == 0 then s else s.(cursor := ResumeAt(s), failed := 0) }

  // ---------- the jump ----------

  function DepthAt(s: State, a: Answers): Option<int> { SM.Scan(s.stored, s.cursor, a.readable, a.chain, 0, 0) }

  predicate Jumps(s: State, safe: int, a: Answers) {
    && s.maxBehind != 0 && safe > s.cursor + s.maxBehind && !s.pending
    && (s.cursor > 0 ==> DepthAt(s, a) == Some(0))
    && a.saved
  }

  predicate IsBetween(lo: int, n: int, hi: int) { lo < n < hi }

  function Between(lo: int, hi: int): set<int> { set n | lo < n < hi && IsBetween(lo, n, hi) }

  function Jumped(s: State, safe: int, a: Answers): State {
    if Jumps(s, safe, a) then s.(handed := s.handed + Between(s.cursor, safe), cursor := safe - 1) else s
  }

  // ---------- a tick ----------

  predicate TooDeep(b: Blocks, from: int) { SM.HighestStored(b) > from && SM.HighestStored(b) - from > MAX_REORG_DEPTH }

  /** A revert down to fork: what it leaves stored, and whether it reported an error. */
  function RevertedTo(s: State, fork: int, a: Answers): (Blocks, bool) {
    if !a.latest || TooDeep(s.stored, fork) then (s.stored, false)
    else (SM.Reverted(s.stored, SM.HighestStored(s.stored), fork, a.del),
          SM.RevertsAll(SM.HighestStored(s.stored), fork, a.del))
  }

  function Reorged(s: State, depth: int, a: Answers): State {
    var fork := s.cursor + 1 - depth;
    var (b, ok) := RevertedTo(s, fork, a);
    if ok then s.(stored := b, pending := false, cursor := fork - 1)
    else s.(stored := b, pending := true, failed := fork)
  }

  /** The hash the next block must extend, at a cursor that may not be stored. */
  function HashAt(s: State): (Hash, bool) {
    var r := SM.Dropped(s.receipts, s.cursor);
    if s.cursor > 0 && s.cursor in s.stored then (s.stored[s.cursor].hash, false)
    else if s.cursor > 0 && r.skipped == s.cursor && r.skippedHash != 0 then (r.skippedHash, true)
    else (0, false)
  }

  function Indexed(s: State, safe: int, a: Answers): State {
    var r, (hash, remembered) := SM.Dropped(s.receipts, s.cursor), HashAt(s);
    if s.cursor > 0 && !a.block then s.(receipts := r) else
      var t := Loop(a.env, s.cursor + 1, safe, hash, remembered, Tick(s.cursor, r, [], [], None));
      var b := SM.StoredAfter(a.env, s.stored, t.indexed);
      s.(stored := if t.stale.Some? then SM.Reverted(b, SM.HighestStored(b), t.stale.value, a.staleDel) else b,
         cursor := t.cursor, receipts := t.receipts, handed := (s.handed + Elements(t.skipped)) - Elements(t.indexed))
  }

  /** A tick whose reorg check found this depth. */
  function Checked(s: State, safe: int, a: Answers, depth: Option<int>): State {
    if depth.None? then s
    else if depth.value > 0 then Reorged(s, depth.value, a)
    else Indexed(s.(pending := false), safe, a)
  }

  function UpTo(s0: State, safe: int, a: Answers): State {
    if s0.failed != 0 && !a.below then s0 else
      var s := Resumed(s0);
      if safe <= s.cursor then s
      else if s.cursor <= 0 then Indexed(s, safe, a)
      else Checked(s, safe, a, DepthAt(s, a))
  }

  // ---------- the invariant ----------

  /**
   While a failed revert is pending, whatever it left stored from the fork up has everything below it accounted
   for.
   */
  ghost predicate Recoverable(s: State, start: int) {
    && s.pending && 1 <= s.failed <= s.cursor && Covered(s.stored, s.handed, start, s.failed - 1)
    && forall n :: n in s.stored && s.failed <= n <= s.cursor ==> Covered(s.stored, s.handed, start, n)
  }

  ghost predicate Inv(s: State, start: int) {
    && s.cursor >= 0 && s.maxBehind >= 0 && (forall n :: n in s.stored ==> n >= 0)
    && if s.failed == 0 then Covered(s.stored, s.handed, start, s.cursor) else Recoverable(s, start)
  }

  lemma {:induction false} ResumedKeeps(s: State, start: int)
    requires Inv(s, start)
    ensures Inv(Resumed(s), start) && Resumed(s).failed == 0 && Resumed(s).cursor <= s.cursor
  {
    if s.failed != 0 {
      var below := MaxOf(SM.AtOrBelow(s.stored, s.cursor));
      var s' := Resumed(s);
      if below.Some? && below.value > s.failed - 1 {
        assert Covered(s.stored, s.handed, start, below.value);
      }
      forall n | start < n <= s'.cursor ensures Accounted(s'.stored, s'.handed, n) {
        assert Accounted(s.stored, s.handed, n);
      }
    }
  }

  lemma {:induction false} JumpedKeeps(s: State, safe: int, a: Answers, start: int)
    requires Inv(s, start)
    ensures Inv(Jumped(s, safe, a), start) && (s.failed != 0 ==> Jumped(s, safe, a) == s)
  {
    var s' := Jumped(s, safe, a);
    if Jumps(s, safe, a) {
      forall n | start < n <= s'.cursor ensures Accounted(s'.stored, s'.handed, n) {
        assert n <= s.cursor ==> Accounted(s.stored, s.handed, n);
      }
    }
  }

  /** A revert works from the top down, so below any block it leaves it leaves every block. */
  lemma {:induction false} RevertLeavesBelow(b: Blocks, top: int, from: int, del: int -> SM.Deletion, c: int, n: int)
    requires SM.AtMost(b, top) && n in b && n <= c && c in SM.Reverted(b, top, from, del)
    ensures n in SM.Reverted(b, top, from, del)
    decreases top - from + 1
  {
    if top >= from && del(top).Gone? {
      SM.RevertedIsPart(b - {top}, top - 1, from, del);
      RevertLeavesBelow(b - {top}, top - 1, from, del, c, n);
    }
  }

  lemma {:induction false} RevertLeavesUnder(b: Blocks, top: int, from: int, del: int -> SM.Deletion, n: int)
    requires n in b && n < from
    ensures n in SM.Reverted(b, top, from, del)
    decreases top - from + 1
  {
    if top >= from && del(top).Gone? {
      RevertLeavesUnder(b - {top}, top - 1, from, del, n);
    }
  }

  lemma {:induction false} ReorgedKeeps(s: State, depth: int, a: Answers, start: int)
    requires Inv(s, start) && s.failed == 0 && 1 <= depth <= s.cursor
    ensures Inv(Reorged(s, depth, a), start)
  {
    var fork, s' := s.cursor + 1 - depth, Reorged(s, depth, a);
    var top := SM.HighestStored(s.stored);
    if a.latest && !TooDeep(s.stored, fork) {
      SM.RevertedIsPart(s.stored, top, fork, a.del);
      forall n | start < n < fork ensures Accounted(s'.stored, s'.handed, n) {
        assert Accounted(s.stored, s.handed, n);
        if n in s.stored {
          RevertLeavesUnder(s.stored, top, fork, a.del, n);
        }
      }
      forall c | c in s'.stored && fork <= c <= s.cursor ensures Covered(s'.stored, s'.handed, start, c) {
        LeftCovered(s, s', fork, a, start, c);
      }
    }
  }

  lemma {:induction false} LeftCovered(s: State, s': State, fork: int, a: Answers, start: int, c: int)
    requires Inv(s, start) && s.failed == 0 && c <= s.cursor && s'.handed == s.handed
    requires s'.stored == SM.Reverted(s.stored, SM.HighestStored(s.stored), fork, a.del) && c in s'.stored
    ensures Covered(s'.stored, s'.handed, start, c)
  {
    forall n | start < n <= c ensures Accounted(s'.stored, s'.handed, n) {
      assert Accounted(s.stored, s.handed, n);
      if n in s.stored {
        RevertLeavesBelow(s.stored, SM.HighestStored(s.stored), fork, a.del, c, n);
      }
    }
  }

  // ---------- the commits ----------

  ghost predicate Sane(b: Blocks) { forall n :: n in b ==> n >= 0 }

  lemma {:induction false} CommitsCover(s: State, env: Env, t: Tick, start: int)
    requires Covered(s.stored, s.handed, start, s.cursor) && s.cursor >= 0 && Sane(s.stored) && t.cursor >= s.cursor
    requires forall m :: s.cursor < m <= t.cursor ==> m in t.indexed || m in t.skipped
    requires forall m :: m in t.indexed ==> env.slot(m).Ready? && m > s.cursor
    ensures var b := SM.StoredAfter(env, s.stored, t.indexed);
            Covered(b, (s.handed + Elements(t.skipped)) - Elements(t.indexed), start, t.cursor) && Sane(b)
  {
    var b, handed := SM.StoredAfter(env, s.stored, t.indexed), (s.handed + Elements(t.skipped)) - Elements(t.indexed);
    SM.StoresIndexed(env, s.stored, t.indexed);
    forall n | start < n <= t.cursor ensures Accounted(b, handed, n) {
      if n <= s.cursor {
        assert Accounted(s.stored, s.handed, n);
      }
    }
  }

  lemma {:induction false} UnderRevertCovers(b: Blocks, handed: set<int>, start: int, to: int, from: int,
                                             del: int -> SM.Deletion)
    requires Covered(b, handed, start, to) && Sane(b) && to < from
    ensures var b' := SM.Reverted(b, SM.HighestStored(b), from, del); Covered(b', handed, start, to) && Sane(b')
  {
    var b' := SM.Reverted(b, SM.HighestStored(b), from, del);
    SM.RevertedIsPart(b, SM.HighestStored(b), from, del);
    forall n | start < n <= to ensures Accounted(b', handed, n) {
      assert Accounted(b, handed, n);
      if n in b {
        RevertLeavesUnder(b, SM.HighestStored(b), from, del, n);
      }
    }
  }

  lemma {:induction false} IndexedKeeps(s: State, safe: int, a: Answers, start: int)
    requires Inv(s, start) && s.failed == 0
    ensures Inv(Indexed(s, safe, a), start)
  {
    var r := SM.Dropped(s.receipts, s.cursor);
    var (hash, remembered) := HashAt(s);
    if s.cursor <= 0 || a.block {
      var t := Tick(s.cursor, r, [], [], None);
      SM.LoopAccounts(a.env, s.cursor + 1, safe, hash, remembered, t, s.cursor);
      var t' := Loop(a.env, s.cursor + 1, safe, hash, remembered, t);
      CommitsCover(s, a.env, t', start);
      if t'.stale.Some? {
        UnderRevertCovers(SM.StoredAfter(a.env, s.stored, t'.indexed),
                          (s.handed + Elements(t'.skipped)) - Elements(t'.indexed),
                          start, t'.cursor, t'.stale.value, a.staleDel);
      }
    }
  }

  lemma {:induction false} UpToKeeps(s: State, safe: int, a: Answers, start: int)
    requires Inv(s, start)
    ensures Inv(UpTo(s, safe, a), start)
  {
    ResumedKeeps(s, start);
    var s1 := Resumed(s);
    var depth := DepthAt(s1, a);
    if s1.cursor > 0 && depth.Some? {
      SM.ScanFindsDeepest(s1.stored, s1.cursor, a.readable, a.chain, 0, 0);
      if depth.value > 0 {
        ReorgedKeeps(s1, depth.value, a, start);
      } else {
        IndexedKeeps(s1.(pending := false), safe, a, start);
      }
    } else if s1.cursor <= 0 {
      IndexedKeeps(s1, safe, a, start);
    }
  }

  // ---------- what a tick does ----------

  /** What the commits of a tick leave: t is the walk over the prefetched blocks from the cursor on. */
  ghost predicate CommitsDone(s: State, safe: int, a: Answers, t: Tick, s': State) {
    && Walked(a.env, s.cursor, safe, HashAt(s).0, HashAt(s).1, SM.Dropped(s.receipts, s.cursor), t)
    && s' == s.(stored := s'.stored, cursor := t.cursor, receipts := t.receipts, handed := s'.handed)
    && SM.Lands(a.env, s.stored, t, a.staleDel, s'.stored)
    && forall n :: n in s'.handed <==> (n in s.handed || n in t.skipped) && n !in t.indexed
  }

  /** The tick indexes: it stores the blocks its walk wrote, hands over the one it skipped, and changes nothing else. */
  ghost predicate IndexDone(s: State, safe: int, a: Answers, s': State) {
    if s.cursor > 0 && !a.block then s' == s.(receipts := SM.Dropped(s.receipts, s.cursor))
    else exists t :: CommitsDone(s, safe, a, t, s')
  }

  lemma {:induction false} WalkCommits(s: State, safe: int, a: Answers, t: Tick, b: Blocks)
    requires Walked(a.env, s.cursor, safe, HashAt(s).0, HashAt(s).1, SM.Dropped(s.receipts, s.cursor), t)
    requires SM.Lands(a.env, s.stored, t, a.staleDel, b)
    ensures CommitsDone(s, safe, a, t,
                        s.(stored := b, cursor := t.cursor, receipts := t.receipts,
                           handed := (s.handed + Elements(t.skipped)) - Elements(t.indexed)))
  {
  }

  lemma {:induction false} IndexedExactly(s: State, safe: int, a: Answers)
    ensures IndexDone(s, safe, a, Indexed(s, safe, a))
  {
    var r := SM.Dropped(s.receipts, s.cursor);
    var (hash, remembered) := HashAt(s);
    if s.cursor <= 0 || a.block {
      var t := Loop(a.env, s.cursor + 1, safe, hash, remembered, Tick(s.cursor, r, [], [], None));
      LoopWalks(a.env, s.cursor, safe, hash, remembered, r);
      SM.TickLands(a.env, s.stored, t, a.staleDel);
      WalkCommits(s, safe, a, t, Indexed(s, safe, a).stored);
    }
  }

  /** After a failed revert the cursor is the highest block still stored from its fork up, or the one before it. */
  lemma {:induction false} ResumesExactly(s: State)
    requires 1 <= s.failed <= s.cursor
    ensures var s' := Resumed(s);
            && s' == s.(cursor := s'.cursor, failed := 0)
            && (s'.cursor == s.failed - 1 || (s.failed <= s'.cursor <= s.cursor && s'.cursor in s.stored))
            && forall n :: n in s.stored && s.failed <= n <= s.cursor ==> n <= s'.cursor
  {
    assert forall n :: n in s.stored && n <= s.cursor ==> n in SM.AtOrBelow(s.stored, s.cursor);
  }

  /** What the depth a reorg check finds says of the window. */
  ghost predicate DepthIs(s: State, a: Answers, depth: Option<int>) {
    && (depth.Some? <==> SM.WindowAnswers(s.stored, s.cursor, a.readable, a.chain))
    && (depth.Some? ==> 0 <= depth.value <= s.cursor)
    && (depth == Some(0) ==> SM.WindowAgrees(s.stored, s.cursor, a.chain))
    && (depth.Some? && depth.value > 0 ==>
          SM.LowestMismatch(s.stored, s.cursor, a.chain, s.cursor - depth.value + 1))
  }

  lemma {:induction false} DepthFound(s: State, a: Answers)
    requires s.cursor >= 0
    ensures DepthIs(s, a, DepthAt(s, a))
  {
    SM.ScanExactly(s.stored, s.cursor, a.readable, a.chain);
  }

  /** A jump is due: the tick is too far behind, nothing is pending, and the node agrees with the window. */
  ghost predicate JumpDue(s: State, safe: int, a: Answers) {
    && s.maxBehind != 0 && safe - s.cursor > s.maxBehind && !s.pending && a.saved
    && (s.cursor > 0 ==> SM.WindowAnswers(s.stored, s.cursor, a.readable, a.chain)
                         && SM.WindowAgrees(s.stored, s.cursor, a.chain))
  }

  /** The loop jumps exactly when it is due, and hands over exactly the blocks it jumps over. */
  lemma {:induction false} JumpsExactly(s: State, safe: int, a: Answers)
    ensures var s' := Jumped(s, safe, a);
            if JumpDue(s, safe, a) then
              && s' == s.(cursor := safe - 1, handed := s'.handed)
              && forall n :: n in s'.handed <==> n in s.handed || s.cursor < n < safe
            else s' == s
  {
    if s.cursor > 0 {
      DepthFound(s, a);
      JumpChecked(s, a, DepthAt(s, a));
    }
    assert forall n :: n in Between(s.cursor, safe) <==> IsBetween(s.cursor, n, safe);
  }

  lemma {:induction false} JumpChecked(s: State, a: Answers, depth: Option<int>)
    requires DepthIs(s, a, depth)
    ensures depth == Some(0) <==> SM.WindowAnswers(s.stored, s.cursor, a.readable, a.chain)
                                  && SM.WindowAgrees(s.stored, s.cursor, a.chain)
  {
  }

  /** The revert of a fork at n is allowed and every delete of it succeeds. */
  ghost predicate Revertible(s: State, n: int, a: Answers) {
    && a.latest && (forall m :: m in s.stored ==> m - n <= MAX_REORG_DEPTH)
    && SM.RevertsAll(SM.HighestStored(s.stored), n, a.del)
  }

  /** Everything from n up goes and the cursor to the block before it, or the revert is left pending at n. */
  ghost predicate ForkHandled(s: State, n: int, a: Answers, s': State) {
    && SM.Part(s'.stored, s.stored) && (forall m :: m < n ==> Get(s'.stored, m) == Get(s.stored, m))
    && if Revertible(s, n, a) then
         (forall m :: m in s'.stored ==> m < n) && s' == s.(stored := s'.stored, cursor := n - 1, pending := false)
       else s' == s.(stored := s'.stored, pending := true, failed := n)
  }

  /**
   A tick with blocks to index: it changes nothing when a read of its check fails, indexes when the window agrees with
   the node, and otherwise stores nothing and reverts from the lowest block the node disagrees with.
   */
  ghost predicate TickDone(s: State, safe: int, a: Answers, s': State) {
    if s.cursor <= 0 then IndexDone(s, safe, a, s')
    else if !SM.WindowAnswers(s.stored, s.cursor, a.readable, a.chain) then s' == s
    else if SM.WindowAgrees(s.stored, s.cursor, a.chain) then IndexDone(s.(pending := false), safe, a, s')
    else exists n :: SM.LowestMismatch(s.stored, s.cursor, a.chain, n) && ForkHandled(s, n, a, s')
  }

  lemma {:induction false} ReorgHandles(s: State, depth: int, a: Answers)
    requires 1 <= depth <= s.cursor
    ensures ForkHandled(s, s.cursor + 1 - depth, a, Reorged(s, depth, a))
  {
    var n, s', top := s.cursor + 1 - depth, Reorged(s, depth, a), SM.HighestStored(s.stored);
    assert TooDeep(s.stored, n) <==> exists m :: m in s.stored && m - n > MAX_REORG_DEPTH by {
      assert s.stored.Keys != {} ==> top in s.stored;
    }
    forall m ensures m < n ==> Get(s'.stored, m) == Get(s.stored, m)
             ensures m in s'.stored ==> m in s.stored && s'.stored[m] == s.stored[m]
             ensures Revertible(s, n, a) && m in s'.stored ==> m < n
    {
      SM.RevertedIs(s.stored, top, n, a.del, m);
    }
  }

  /** A tick that cannot resume changes nothing, and one with no blocks to index only resumes. */
  ghost predicate UpToDone(s: State, safe: int, a: Answers, s': State) {
    if s.failed != 0 && !a.below then s' == s
    else if safe <= Resumed(s).cursor then s' == Resumed(s)
    else TickDone(Resumed(s), safe, a, s')
  }

  lemma {:induction false} TickHandles(s: State, safe: int, a: Answers)
    ensures UpToDone(s, safe, a, UpTo(s, safe, a))
  {
    var r := Resumed(s);
    if r.cursor > 0 {
      DepthFound(r, a);
      CheckedTick(r, safe, a, DepthAt(r, a));
    } else {
      IndexedExactly(r, safe, a);
    }
  }

  lemma {:induction false} CheckedTick(r: State, safe: int, a: Answers, depth: Option<int>)
    requires r.cursor > 0 && DepthIs(r, a, depth)
    ensures TickDone(r, safe, a, Checked(r, safe, a, depth))
  {
    if depth.Some? && depth.value > 0 {
      ReorgHandles(r, depth.value, a);
    } else {
      IndexedExactly(r.(pending := false), safe, a);
    }
  }

  // ---------- the links of what a tick stores ----------

  predicate New(b: Blocks, now: Blocks, n: int) { n in now && n !in b }

  /** Blocks new since b are above from, linked to each other and, just above from, to the hash h. */
  ghost predicate NewLinked(b: Blocks, now: Blocks, from: int, h: Hash) {
    forall n :: New(b, now, n) ==> NewLinkedAt(b, now, from, h, n)
  }

  predicate NewLinkedAt(b: Blocks, now: Blocks, from: int, h: Hash, n: int)
    requires n in now
  {
    && n > from && (New(b, now, n - 1) ==> now[n].parent == now[n - 1].hash)
    && (n == from + 1 && h != 0 ==> now[n].parent == h)
  }

  /** The blocks new since b are linked up to c, whose hash prev is if it is new. */
  ghost predicate LinkedUpTo(b: Blocks, now: Blocks, c: int, prev: Hash, from: int, h: Hash) {
    && NewLinked(b, now, from, h) && from <= c && (c == from ==> prev == h)
    && (forall n :: New(b, now, n) ==> n <= c)
    && (New(b, now, c) ==> prev == now[c].hash && prev != 0)
  }

  ghost predicate LinksOn(env: Env, b: Blocks, t: Tick, prev: Hash, from: int, h: Hash) {
    LinkedUpTo(b, SM.StoredAfter(env, b, t.indexed), t.cursor, prev, from, h)
  }

  lemma {:induction false} AddLinks(b: Blocks, now: Blocks, n: int, header: Header, prev: Hash, from: int, h: Hash)
    requires LinkedUpTo(b, now, n - 1, prev, from, h) && Extends(prev, header) && header.hash != 0
    requires forall m :: m in b ==> m in now
    ensures LinkedUpTo(b, SM.Add(now, n, header), n, header.hash, from, h)
  {
    var now1 := SM.Add(now, n, header);
    forall m | New(b, now1, m) ensures NewLinkedAt(b, now1, from, h, m) && m <= n {
      if m != n {
        assert New(b, now, m);
        assert NewLinkedAt(b, now, from, h, m);
      }
    }
  }

  lemma {:induction false} KeepsStored(env: Env, b: Blocks, indexed: seq<int>)
    ensures forall m :: m in b ==> m in SM.StoredAfter(env, b, indexed)
    decreases |indexed|
  {
    if indexed != [] {
      KeepsStored(env, b, indexed[..|indexed| - 1]);
    }
  }

  lemma {:induction false} PastLinksOn(env: Env, b: Blocks, t: Tick, n: int, prev: Hash, from: int, h: Hash)
    requires SM.NodeHashesSet(env) && n == t.cursor + 1 && LinksOn(env, b, t, prev, from, h)
    requires !env.slot(n).Failed? && Extends(prev, env.slot(n).header)
    ensures LinksOn(env, b, SM.Past(env, n, t), env.slot(n).header.hash, from, h)
  {
    if env.slot(n).Ready? {
      KeepsStored(env, b, t.indexed);
      AddLinks(b, SM.StoredAfter(env, b, t.indexed), n, env.slot(n).header, prev, from, h);
      assert (t.indexed + [n])[..|t.indexed|] == t.indexed;
    }
  }

  lemma {:induction false} LoopLinksOn(env: Env, n: int, latest: int, prev: Hash, remembered: bool, t: Tick, b: Blocks,
                                       from: int, h: Hash)
    requires SM.NodeHashesSet(env) && n == t.cursor + 1 && LinksOn(env, b, t, prev, from, h)
    ensures NewLinked(b, SM.StoredAfter(env, b, Loop(env, n, latest, prev, remembered, t).indexed), from, h)
    decreases latest - n + 1
  {
    if SM.GoesOn(env, n, latest, prev, t) {
      SM.LoopGoesOn(env, n, latest, prev, remembered, t);
      PastLinksOn(env, b, t, n, prev, from, h);
      LoopLinksOn(env, n + 1, latest, env.slot(n).header.hash, false, SM.Past(env, n, t), b, from, h);
    } else {
      SM.LoopStops(env, n, latest, prev, remembered, t);
    }
  }

  /**
   The blocks a tick stores are above the cursor and linked to each other by hash, and the one after the cursor to the
   cursor's block, if it is stored, or to the skipped block remembered there.
   */
  lemma {:induction false} IndexedLinks(s: State, safe: int, a: Answers)
    requires SM.NodeHashesSet(a.env)
    ensures NewLinked(s.stored, Indexed(s, safe, a).stored, s.cursor, HashAt(s).0)
    ensures s.cursor > 0 && s.cursor in s.stored ==> HashAt(s).0 == s.stored[s.cursor].hash
    ensures s.cursor > 0 && s.cursor !in s.stored && s.receipts.skipped == s.cursor ==>
              HashAt(s).0 == s.receipts.skippedHash
  {
    var r := SM.Dropped(s.receipts, s.cursor);
    var (hash, remembered) := HashAt(s);
    if s.cursor <= 0 || a.block {
      var t := Tick(s.cursor, r, [], [], None);
      LoopLinksOn(a.env, s.cursor + 1, safe, hash, remembered, t, s.stored, s.cursor, hash);
      var t' := Loop(a.env, s.cursor + 1, safe, hash, remembered, t);
      var now := SM.StoredAfter(a.env, s.stored, t'.indexed);
      if t'.stale.Some? {
        var left := SM.Reverted(now, SM.HighestStored(now), t'.stale.value, a.staleDel);
        SM.RevertedIsPart(now, SM.HighestStored(now), t'.stale.value, a.staleDel);
        forall n | New(s.stored, left, n) ensures NewLinkedAt(s.stored, left, s.cursor, hash, n) {
          assert New(s.stored, now, n);
          assert NewLinkedAt(s.stored, now, s.cursor, hash, n);
        }
      }
    }
  }

  /** The skipped block remembered at the cursor, which the next block does not extend. */
  predicate StuckOnSkip(s: State, safe: int, a: Answers) {
    && 0 < s.cursor < safe && s.cursor !in s.stored && s.receipts.skipped == s.cursor && s.receipts.skippedHash != 0
    && a.block && !a.env.slot(s.cursor + 1).Failed?
    && a.env.slot(s.cursor + 1).header.parent != s.receipts.skippedHash
  }

  /** It is forgotten exactly when the node no longer has it, and the next tick then takes any block. */
  lemma {:induction false} ForgetsLostSkip(s: State, safe: int, a: Answers)
    requires StuckOnSkip(s, safe, a)
    ensures var s' := Indexed(s, safe, a);
            && s' == s.(receipts := s'.receipts)
            && HashAt(s') == if a.env.chainHash(s.cursor) == Some(s.receipts.skippedHash) then HashAt(s) else (0, false)
  {
    assert s.handed + Elements<int>([]) - Elements<int>([]) == s.handed;
  }

  // ---------- every run ----------

  /** A tick of the loop, whose jump has answers of its own, catch-up storing a block it was handed, or a prune. */
  datatype Step = TickTo(safe: int, jump: Answers, a: Answers) | CatchUp(n: int, header: Header) | Prune(through: int)

  function CaughtUp(s: State, n: int, h: Header): State {
    s.(stored := SM.Add(s.stored, n, h), handed := s.handed - {n})
  }

  /** Catch-up leaves the blocks a failed revert is still to be resumed from alone. */
  predicate Enabled(s: State, step: Step) {
    step.CatchUp? ==> step.n in s.handed && step.n >= 0 && !(s.failed != 0 && s.failed <= step.n <= s.cursor)
  }

  function Apply(s: State, step: Step): State {
    match step
    case TickTo(safe, jump, a) => UpTo(Jumped(s, safe, jump), safe, a)
    case CatchUp(n, h) => CaughtUp(s, n, h)
    case Prune(through) => s.(stored := map n | n in s.stored && n > through :: s.stored[n])
  }

  /** The block above which a run has to account for every block: the start, or what has been pruned since. */
  function From(start: int, step: Step): int { if step.Prune? && step.through > start then step.through else start }

  function FromAfter(start: int, steps: seq<Step>): int decreases |steps| {
    if steps == [] then start else FromAfter(From(start, steps[0]), steps[1..])
  }

  ghost predicate Feasible(s: State, steps: seq<Step>) decreases |steps| {
    steps == [] || (Enabled(s, steps[0]) && Feasible(Apply(s, steps[0]), steps[1..]))
  }

  function Run(s: State, steps: seq<Step>): State decreases |steps| {
    if steps == [] then s else Run(Apply(s, steps[0]), steps[1..])
  }

  lemma {:induction false} CaughtUpCovers(s: State, n: int, h: Header, start: int, to: int)
    requires Covered(s.stored, s.handed, start, to) && n in s.handed
    ensures var s' := CaughtUp(s, n, h); Covered(s'.stored, s'.handed, start, to)
  {
    var s' := CaughtUp(s, n, h);
    forall m | start < m <= to ensures Accounted(s'.stored, s'.handed, m) {
      assert Accounted(s.stored, s.handed, m);
    }
  }

  lemma {:induction false} PrunedKeeps(s: State, through: int, start: int)
    requires Inv(s, start)
    ensures Inv(Apply(s, Prune(through)), From(start, Prune(through)))
  {
    var s', from := Apply(s, Prune(through)), From(start, Prune(through));
    forall to | Covered(s.stored, s.handed, start, to) ensures Covered(s'.stored, s'.handed, from, to) {
      forall n | from < n <= to ensures Accounted(s'.stored, s'.handed, n) {
        assert Accounted(s.stored, s.handed, n);
      }
    }
  }

  lemma {:induction false} InvStep(s: State, step: Step, start: int)
    requires Inv(s, start) && Enabled(s, step)
    ensures Inv(Apply(s, step), From(start, step))
  {
    match step
    case TickTo(safe, jump, a) =>
      JumpedKeeps(s, safe, jump, start);
      UpToKeeps(Jumped(s, safe, jump), safe, a, start);
    case Prune(through) => PrunedKeeps(s, through, start);
    case CatchUp(n, h) =>
      if s.failed == 0 {
        CaughtUpCovers(s, n, h, start, s.cursor);
      } else {
        CaughtUpCovers(s, n, h, start, s.failed - 1);
        var s' := CaughtUp(s, n, h);
        forall c | c in s'.stored && s.failed <= c <= s.cursor ensures Covered(s'.stored, s'.handed, start, c) {
          CaughtUpCovers(s, n, h, start, c);
        }
      }
  }

  /**
   In every run, whenever no failed revert is pending, each block from the start to the cursor is stored, handed or
   pruned.
   */
  lemma {:induction false} NeverPassesABlock(s: State, steps: seq<Step>, start: int)
    requires Inv(s, start) && Feasible(s, steps)
    ensures Inv(Run(s, steps), FromAfter(start, steps))
    ensures var s' := Run(s, steps); s'.failed == 0 ==>
              Covered(s'.stored, s'.handed, FromAfter(start, steps), s'.cursor)
    decreases |steps|
  {
    if steps != [] {
      InvStep(s, steps[0], start);
      NeverPassesABlock(Apply(s, steps[0]), steps[1..], From(start, steps[0]));
    }
  }

  // ---------- the exception ----------

  /**
   Catch-up storing a block between a failed revert's fork and the cursor: the resume covers everything exactly when
   every block up to that one was still accounted for.
   */
  lemma {:induction false} CatchUpDuringFailedRevert(s: State, n: int, h: Header, start: int)
    requires Inv(s, start) && s.failed != 0 && n in s.handed && s.failed <= n <= s.cursor
    ensures var s' := Resumed(CaughtUp(s, n, h));
            Covered(s'.stored, s'.handed, start, s'.cursor) <==> Covered(s.stored, s.handed, start, n)
  {
    var s1 := CaughtUp(s, n, h);
    var s' := Resumed(s1);
    var below := MaxOf(SM.AtOrBelow(s1.stored, s.cursor));
    assert n in SM.AtOrBelow(s1.stored, s.cursor);
    assert s'.cursor == below.value >= n;
    if Covered(s'.stored, s'.handed, start, s'.cursor) {
      forall m | start < m <= n ensures Accounted(s.stored, s.handed, m) {
        assert Accounted(s'.stored, s'.handed, m);
      }
    }
    if Covered(s.stored, s.handed, start, n) {
      if below.value != n {
        assert below.value in s.stored;
      }
      assert Covered(s.stored, s.handed, start, below.value);
      CaughtUpCovers(s, n, h, start, below.value);
    }
  }

  /**
   Blocks 95 to 97 deleted by a revert that reported an error, 98 handed: once catch-up stores 98 the resume passes
   them.
   */
  lemma {:induction false} ResumePassesLostBlocks()
    ensures var s := State(map[94 := Header(1, 0)], 100, {98}, 95, true, Receipts(0, 0, 0, 0, false), 0);
            var s' := Resumed(CaughtUp(s, 98, Header(2, 0)));
            Inv(s, 93) && s'.failed == 0 && s'.cursor == 98 && !Accounted(s'.stored, s'.handed, 95)
  {
    var s := State(map[94 := Header(1, 0)], 100, {98}, 95, true, Receipts(0, 0, 0, 0, false), 0);
    var s1 := CaughtUp(s, 98, Header(2, 0));
    assert 98 in SM.AtOrBelow(s1.stored, 100);
  }
}
