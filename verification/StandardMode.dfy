/** Standard mode: the cursor, the reorg check, reverts and later fills, and the hash links between stored blocks. */
module StandardMode {
  import opened Sums
  import opened CommitLoop

  const REORG_WINDOW := 10

  type Blocks = map<int, Header>

  /** start is the start block, pruned the prune watermark and missing the blocks recorded as missing. */
  datatype State = State(stored: Blocks, cursor: int, receipts: Receipts, missing: set<int>, start: int, pruned: int)

  /** Every two adjacent stored blocks from lo up are linked by hash. */
  ghost predicate Linked(b: Blocks, lo: int) {
    forall n :: n >= lo && n in b && n + 1 in b ==> b[n + 1].parent == b[n].hash
  }

  ghost predicate AtMost(b: Blocks, top: int) { forall n :: n in b ==> 0 <= n <= top }

  ghost predicate HashesSet(b: Blocks) { forall n :: n in b ==> b[n].hash != 0 }

  ghost predicate NodeHashesSet(env: Env) { forall n :: env.slot(n).Ready? ==> env.slot(n).header.hash != 0 }

  // ---------- where a tick starts ----------

  datatype Anchor = Anchor(from: int, hash: Hash, remembered: bool, ok: bool)

  /** Which of the tick's first database reads answer. */
  datatype Reads = Reads(block: bool, below: bool, pruned: bool)

  function Dropped(r: Receipts, cursor: int): Receipts {
    if r.skipped > cursor then r.(skipped := 0, skippedHash := 0) else r
  }

  function AtOrBelow(b: Blocks, n: int): set<int> { set m | m in b && m <= n }

  function StartFloor(s: State): int {
    var floor := if s.pruned > 0 && s.pruned + 1 > s.start then s.pruned + 1 else s.start;
    if floor == 0 then 0 else floor - 1
  }

  /** The block the tick starts after, and the hash its first block must extend. */
  function AnchorOf(s: State, read: Reads): Anchor {
    var r := Dropped(s.receipts, s.cursor);
    if s.cursor == 0 && s.start == 0 then Anchor(0, 0, false, true)
    else if s.cursor > 0 && !read.block then Anchor(s.cursor, 0, false, false)
    else if s.cursor > 0 && s.cursor in s.stored then Anchor(s.cursor, s.stored[s.cursor].hash, false, true)
    else if s.cursor > 0 && r.skipped == s.cursor && r.skippedHash != 0 then Anchor(s.cursor, r.skippedHash, true, true)
    else if !read.below then Anchor(s.cursor, 0, false, false)
    else
      var below := MaxOf(AtOrBelow(s.stored, s.cursor));
      if below.Some? then Anchor(below.value, s.stored[below.value].hash, false, true)
      else if !read.pruned then Anchor(s.cursor, 0, false, false)
      else Anchor(StartFloor(s), 0, false, true)
  }

  /** What a committer needs of its start: nothing stored above it, and its hash if it is stored at lo or above. */
  ghost predicate Anchored(b: Blocks, from: int, hash: Hash, lo: int) {
    AtMost(b, from) && (from >= lo && from in b ==> hash == b[from].hash && hash != 0)
  }

  ghost predicate Inv(s: State, lo: int) {
    && Linked(s.stored, lo) && AtMost(s.stored, s.cursor) && HashesSet(s.stored)
    && s.cursor >= 0 && s.start >= 0 && s.pruned >= 0
  }

  /** Block 0 of a chain indexed from block 0 is the one stored block the check has no hash for. */
  ghost predicate GenesisChecked(s: State) { s.start > 0 || (0 !in s.stored && 0 !in s.missing) }

  /** The tick starts on a stored block 0 that it takes no hash from. */
  ghost predicate OnGenesis(s: State) { s.cursor == 0 && s.start == 0 && 0 in s.stored }

  lemma {:induction false} AnchorIsAnchored(s: State, read: Reads, lo: int)
    requires Inv(s, lo) && AnchorOf(s, read).ok && (lo >= 1 || !OnGenesis(s))
    ensures var a := AnchorOf(s, read); Anchored(s.stored, a.from, a.hash, lo) && a.from >= 0
  {
    var below := MaxOf(AtOrBelow(s.stored, s.cursor));
    forall n | n in s.stored ensures n in AtOrBelow(s.stored, s.cursor) {
    }
  }

  // ---------- a tick's commits ----------

  function Add(b: Blocks, n: int, h: Header): Blocks { if n in b then b else b[n := h] }

  function StoredAfter(env: Env, b: Blocks, indexed: seq<int>): Blocks {
    if indexed == [] then b else
      var n, before := indexed[|indexed| - 1], StoredAfter(env, b, indexed[..|indexed| - 1]);
      if env.slot(n).Ready? then Add(before, n, env.slot(n).header) else before
  }

  ghost predicate LinkedTo(b: Blocks, cursor: int, lo: int) { Linked(b, lo) && AtMost(b, cursor) && HashesSet(b) }

  /** The stored blocks are linked up to the tick's cursor, whose hash prev is if it is stored. */
  ghost predicate Fits(env: Env, b: Blocks, t: Tick, prev: Hash, lo: int) {
    var now := StoredAfter(env, b, t.indexed);
    LinkedTo(now, t.cursor, lo) && Anchored(now, t.cursor, prev, lo) && t.cursor >= 0
  }

  ghost predicate Ends(env: Env, b: Blocks, t: Tick, lo: int) {
    LinkedTo(StoredAfter(env, b, t.indexed), t.cursor, lo) && t.cursor >= 0
  }

  /** The loop goes on past block n, and what its tick is then. */
  predicate GoesOn(env: Env, n: int, latest: int, prev: Hash, t: Tick) {
    && n <= latest && !env.slot(n).Failed? && Extends(prev, env.slot(n).header)
    && if env.slot(n).NoReceipts? then Skips(t.receipts, n, env.requeue(n))
       else Good(Written(env, n, env.slot(n).empty))
  }

  function Past(env: Env, n: int, t: Tick): Tick
    requires !env.slot(n).Failed?
  {
    if env.slot(n).Ready? then IndexedBlock(t, n)
    else SkippedBlock(t.(receipts := Skip(t.receipts, n, env.requeue(n))), n, env.slot(n).header.hash)
  }

  lemma {:induction false} LoopGoesOn(env: Env, n: int, latest: int, prev: Hash, remembered: bool, t: Tick)
    requires GoesOn(env, n, latest, prev, t)
    ensures Loop(env, n, latest, prev, remembered, t) ==
            Loop(env, n + 1, latest, env.slot(n).header.hash, false, Past(env, n, t))
  {
  }

  lemma {:induction false} LoopStops(env: Env, n: int, latest: int, prev: Hash, remembered: bool, t: Tick)
    requires !GoesOn(env, n, latest, prev, t)
    ensures var t' := Loop(env, n, latest, prev, remembered, t);
            t'.indexed == t.indexed && t'.cursor == t.cursor && t'.skipped == t.skipped
  {
  }

  /** Every block the loop's cursor passes is indexed or skipped, and another fork is found only above the cursor. */
  lemma {:induction false} LoopAccounts(env: Env, n: int, latest: int, prev: Hash, remembered: bool, t: Tick, from: int)
    requires n == t.cursor + 1 && from <= t.cursor
    requires forall m :: from < m <= t.cursor ==> m in t.indexed || m in t.skipped
    requires forall m :: m in t.indexed ==> env.slot(m).Ready? && m > from
    ensures var t' := Loop(env, n, latest, prev, remembered, t);
            && t'.cursor >= t.cursor
            && (forall m :: from < m <= t'.cursor ==> m in t'.indexed || m in t'.skipped)
            && (forall m :: m in t'.indexed ==> env.slot(m).Ready? && m > from)
            && (t'.stale.Some? && t.stale.None? ==> t'.stale.value > t'.cursor)
    decreases latest - n + 1
  {
    if GoesOn(env, n, latest, prev, t) {
      LoopGoesOn(env, n, latest, prev, remembered, t);
      var t1 := Past(env, n, t);
      assert forall m :: m in t.indexed ==> m in t1.indexed;
      assert forall m :: m in t.skipped ==> m in t1.skipped;
      assert if env.slot(n).Ready? then t1.indexed[|t.indexed|] == n else t1.skipped[|t.skipped|] == n;
      LoopAccounts(env, n + 1, latest, env.slot(n).header.hash, false, t1, from);
    } else {
      LoopStops(env, n, latest, prev, remembered, t);
    }
  }

  lemma {:induction false} StoresIndexed(env: Env, b: Blocks, indexed: seq<int>)
    requires forall m :: m in indexed ==> env.slot(m).Ready?
    ensures var b' := StoredAfter(env, b, indexed);
            && (forall m :: m in b || m in indexed ==> m in b') && (forall m :: m in b' ==> m in b || m in indexed)
            && (forall m :: m in b' ==> b'[m] == if m in b then b[m] else env.slot(m).header)
    decreases |indexed|
  {
    if indexed != [] {
      var init := indexed[..|indexed| - 1];
      assert indexed == init + [indexed[|indexed| - 1]];
      assert forall m :: m in init ==> m in indexed;
      StoresIndexed(env, b, init);
    }
  }

  lemma {:induction false} PastFits(env: Env, b: Blocks, t: Tick, n: int, prev: Hash, lo: int)
    requires NodeHashesSet(env) && n == t.cursor + 1 && Fits(env, b, t, prev, lo)
    requires !env.slot(n).Failed? && Extends(prev, env.slot(n).header)
    ensures Fits(env, b, Past(env, n, t), env.slot(n).header.hash, lo)
  {
    assert (t.indexed + [n])[..|t.indexed|] == t.indexed;
  }

  lemma {:induction false} LoopLinks(env: Env, n: int, latest: int, prev: Hash, remembered: bool, t: Tick, b: Blocks,
                                     lo: int)
    requires NodeHashesSet(env) && n == t.cursor + 1 && Fits(env, b, t, prev, lo)
    ensures Ends(env, b, Loop(env, n, latest, prev, remembered, t), lo)
    ensures Loop(env, n, latest, prev, remembered, t).cursor >= t.cursor
    decreases latest - n + 1
  {
    if GoesOn(env, n, latest, prev, t) {
      LoopGoesOn(env, n, latest, prev, remembered, t);
      PastFits(env, b, t, n, prev, lo);
      LoopLinks(env, n + 1, latest, env.slot(n).header.hash, false, Past(env, n, t), b, lo);
    } else {
      LoopStops(env, n, latest, prev, remembered, t);
    }
  }

  // ---------- the reorg check ----------

  /**
   The depth of the deepest mismatch in the window, or None when a read fails; chain is the node's hash at a block.
   */
  function Scan(b: Blocks, cursor: int, readable: int -> bool, chain: int -> Option<Hash>, d: int,
                deepest: int): Option<int>
    decreases REORG_WINDOW - d, cursor
  {
    if d >= REORG_WINDOW || cursor <= d then Some(deepest)
    else if !readable(cursor - d) then None
    else if cursor - d !in b then Scan(b, cursor, readable, chain, d + 1, deepest)
    else if chain(cursor - d).None? then None
    else Scan(b, cursor, readable, chain, d + 1, if Mismatch(b, chain, cursor - d) then d + 1 else deepest)
  }

  predicate Mismatch(b: Blocks, chain: int -> Option<Hash>, n: int) { n in b && chain(n) != Some(b[n].hash) }

  method DetectReorg(b: Blocks, cursor: int, readable: int -> bool, chain: int -> Option<Hash>)
    returns (depth: Option<int>)
    ensures depth == Scan(b, cursor, readable, chain, 0, 0)
  {
    var deepest, d := 0, 0;
    while d < REORG_WINDOW && cursor > d
      invariant 0 <= d <= REORG_WINDOW
      invariant Scan(b, cursor, readable, chain, d, deepest) == Scan(b, cursor, readable, chain, 0, 0)
    {
      var n := cursor - d;
      d := d + 1;
      if !readable(n) {
        return None;
      }
      if n !in b {
        continue;
      }
      if chain(n).None? {
        return None;
      }
      if chain(n).value == b[n].hash {
        continue;
      }
      deepest := d;
    }
    return Some(deepest);
  }

  /** The deepest mismatch once depth d is read. */
  function DeepestAt(b: Blocks, cursor: int, chain: int -> Option<Hash>, d: int, deepest: int): int {
    if Mismatch(b, chain, cursor - d) then d + 1 else deepest
  }

  lemma {:induction false} ScanStep(b: Blocks, cursor: int, readable: int -> bool, chain: int -> Option<Hash>, d: int,
                                    deepest: int)
    requires d < REORG_WINDOW && d < cursor && Scan(b, cursor, readable, chain, d, deepest).Some?
    ensures Scan(b, cursor, readable, chain, d, deepest) ==
            Scan(b, cursor, readable, chain, d + 1, DeepestAt(b, cursor, chain, d, deepest))
  {
  }

  /** Every block of the window from depth d down that disagrees with the node is at depth k or above it. */
  ghost predicate NoDeeper(b: Blocks, cursor: int, chain: int -> Option<Hash>, d: int, k: int) {
    forall n :: 0 < n <= cursor - d && n > cursor - REORG_WINDOW && Mismatch(b, chain, n) ==> n >= cursor - k + 1
  }

  /**
   Everything in the window that disagrees with the node is at the depth found or above it, and the block there
   disagrees.
   */
  lemma {:induction false} ScanFindsDeepest(b: Blocks, cursor: int, readable: int -> bool, chain: int -> Option<Hash>,
                                            d: int, deepest: int)
    requires cursor >= 0 && 0 <= deepest <= d <= REORG_WINDOW && d <= cursor
    requires Scan(b, cursor, readable, chain, d, deepest).Some?
    ensures var k := Scan(b, cursor, readable, chain, d, deepest).value;
            && deepest <= k <= REORG_WINDOW && k <= cursor && NoDeeper(b, cursor, chain, d, k)
            && (k == deepest || (k > d && Mismatch(b, chain, cursor - k + 1)))
    decreases REORG_WINDOW - d
  {
    if d < REORG_WINDOW && cursor > d {
      ScanStep(b, cursor, readable, chain, d, deepest);
      ScanFindsDeepest(b, cursor, readable, chain, d + 1, DeepestAt(b, cursor, chain, d, deepest));
      OneDeeper(b, cursor, chain, d, Scan(b, cursor, readable, chain, d, deepest).value);
    }
  }

  lemma {:induction false} OneDeeper(b: Blocks, cursor: int, chain: int -> Option<Hash>, d: int, k: int)
    requires NoDeeper(b, cursor, chain, d + 1, k) && (Mismatch(b, chain, cursor - d) ==> k >= d + 1)
    ensures NoDeeper(b, cursor, chain, d, k)
  {
    forall n | 0 < n <= cursor - d && n > cursor - REORG_WINDOW && Mismatch(b, chain, n) ensures n >= cursor - k + 1 {
      assert n == cursor - d || n <= cursor - (d + 1);
    }
  }

  // ---------- what the check finds ----------

  /** The blocks the check reads, from the cursor down. */
  predicate InWindow(cursor: int, n: int) { 0 < n <= cursor && n > cursor - REORG_WINDOW }

  predicate ReadsAt(b: Blocks, readable: int -> bool, chain: int -> Option<Hash>, n: int) {
    readable(n) && (n in b ==> chain(n).Some?)
  }

  ghost predicate AnswersDown(b: Blocks, cursor: int, readable: int -> bool, chain: int -> Option<Hash>, d: int) {
    forall n :: InWindow(cursor, n) && n <= cursor - d ==> ReadsAt(b, readable, chain, n)
  }

  /** Every read of the check answers. */
  ghost predicate WindowAnswers(b: Blocks, cursor: int, readable: int -> bool, chain: int -> Option<Hash>) {
    forall n :: InWindow(cursor, n) ==> ReadsAt(b, readable, chain, n)
  }

  ghost predicate WindowAgrees(b: Blocks, cursor: int, chain: int -> Option<Hash>) {
    forall n :: InWindow(cursor, n) ==> !Mismatch(b, chain, n)
  }

  /** The lowest stored block of the window that the node has another hash for. */
  ghost predicate LowestMismatch(b: Blocks, cursor: int, chain: int -> Option<Hash>, n: int) {
    && InWindow(cursor, n) && Mismatch(b, chain, n)
    && forall m :: InWindow(cursor, m) && Mismatch(b, chain, m) ==> n <= m
  }

  lemma {:induction false} ScanAnswers(b: Blocks, cursor: int, readable: int -> bool, chain: int -> Option<Hash>,
                                       d: int, deepest: int)
    requires d >= 0
    ensures Scan(b, cursor, readable, chain, d, deepest).Some? <==> AnswersDown(b, cursor, readable, chain, d)
    decreases REORG_WINDOW - d
  {
    if d < REORG_WINDOW && cursor > d {
      var next := if Mismatch(b, chain, cursor - d) then d + 1 else deepest;
      ScanAnswers(b, cursor, readable, chain, d + 1, next);
      AnswersStep(b, cursor, readable, chain, d);
    }
  }

  lemma {:induction false} AnswersStep(b: Blocks, cursor: int, readable: int -> bool, chain: int -> Option<Hash>,
                                       d: int)
    requires 0 <= d < REORG_WINDOW && cursor > d
    ensures AnswersDown(b, cursor, readable, chain, d) <==>
            ReadsAt(b, readable, chain, cursor - d) && AnswersDown(b, cursor, readable, chain, d + 1)
  {
    assert InWindow(cursor, cursor - d);
    assert forall n :: InWindow(cursor, n) && n <= cursor - d ==> n == cursor - d || n <= cursor - (d + 1);
  }

  /** The check finds a depth exactly when every read answers: none when all agree, or down to the lowest mismatch. */
  lemma {:induction false} ScanExactly(b: Blocks, cursor: int, readable: int -> bool, chain: int -> Option<Hash>)
    requires cursor >= 0
    ensures var depth := Scan(b, cursor, readable, chain, 0, 0);
            && (depth.Some? <==> WindowAnswers(b, cursor, readable, chain))
            && (depth.Some? ==> 0 <= depth.value <= cursor)
            && (depth == Some(0) ==> WindowAgrees(b, cursor, chain))
            && (depth.Some? && depth.value > 0 ==> LowestMismatch(b, cursor, chain, cursor - depth.value + 1))
  {
    ScanAnswers(b, cursor, readable, chain, 0, 0);
    if Scan(b, cursor, readable, chain, 0, 0).Some? {
      ScanFindsDeepest(b, cursor, readable, chain, 0, 0);
    }
  }

  // ---------- the revert ----------

  /** A block's revert commits, commits but reports an error, or does not commit. */
  datatype Deletion = Gone | Unacknowledged | Kept

  function HighestStored(b: Blocks): int { if b.Keys == {} then 0 else Max(b.Keys) }

  /** The stored blocks once a revert has worked down from top; it stops at the first error it sees. */
  function Reverted(b: Blocks, top: int, from: int, del: int -> Deletion): Blocks
    decreases top - from + 1
  {
    if top < from then b
    else if del(top).Gone? then Reverted(b - {top}, top - 1, from, del)
    else if del(top).Unacknowledged? then b - {top}
    else b
  }

  predicate RevertsAll(top: int, from: int, del: int -> Deletion) { forall n :: from <= n <= top ==> del(n).Gone? }

  method HandleReorg(b: Blocks, from: int, del: int -> Deletion) returns (b': Blocks, ok: bool)
    ensures b' == Reverted(b, HighestStored(b), from, del) && ok == RevertsAll(HighestStored(b), from, del)
  {
    b' := b;
    var n := HighestStored(b);
    while n >= from
      invariant n <= HighestStored(b) && (forall m :: n < m <= HighestStored(b) && m >= from ==> del(m).Gone?)
      invariant Reverted(b', n, from, del) == Reverted(b, HighestStored(b), from, del)
    {
      if !del(n).Kept? {
        b' := b' - {n};
      }
      if !del(n).Gone? {
        return b', false;
      }
      n := n - 1;
    }
    ok := true;
  }

  ghost predicate Part(b': Blocks, b: Blocks) { forall n :: n in b' ==> n in b && b'[n] == b[n] }

  lemma {:induction false} RevertedIsPart(b: Blocks, top: int, from: int, del: int -> Deletion)
    ensures Part(Reverted(b, top, from, del), b)
    decreases top - from + 1
  {
    if top >= from && del(top).Gone? {
      RevertedIsPart(b - {top}, top - 1, from, del);
    }
  }

  /** A revert that reports no error leaves nothing stored from its fork up. */
  lemma {:induction false} RevertedBelow(b: Blocks, top: int, from: int, del: int -> Deletion)
    requires AtMost(b, top) && RevertsAll(top, from, del)
    ensures AtMost(Reverted(b, top, from, del), if top < from then top else from - 1)
    decreases top - from + 1
  {
    if top >= from {
      RevertedBelow(b - {top}, top - 1, from, del);
    }
  }

  /** Where a revert from top down to from stops: at the first block whose delete reports an error, or below from. */
  function StopsAt(top: int, from: int, del: int -> Deletion): (f: int)
    ensures top >= from - 1 ==> from - 1 <= f <= top && (f >= from ==> !del(f).Gone?)
    ensures forall n :: f < n <= top && n >= from ==> del(n).Gone?
    decreases top - from + 1
  {
    if top < from then from - 1 else if del(top).Gone? then StopsAt(top - 1, from, del) else top
  }

  /** A revert deletes what is above where it stops, and the block there if only its acknowledgement was lost. */
  lemma {:induction false} RevertedIs(b: Blocks, top: int, from: int, del: int -> Deletion, n: int)
    requires n in b ==> n <= top
    ensures var f := StopsAt(top, from, del);
            Get(Reverted(b, top, from, del), n) ==
            if n >= from && (n > f || (n == f && del(f).Unacknowledged?)) then None else Get(b, n)
    decreases top - from + 1
  {
    if top >= from && del(top).Gone? {
      RevertedIs(b - {top}, top - 1, from, del, n);
    }
  }

  // ---------- the tick ----------

  /** What the node and the database answer during one tick. */
  datatype Answers = Answers(readable: int -> bool, chain: int -> Option<Hash>, del: int -> Deletion, read: Reads,
                             env: Env, latest: int, staleDel: int -> Deletion)

  function DepthAt(s: State, a: Answers): Option<int> { Scan(s.stored, s.cursor, a.readable, a.chain, 0, 0) }

  /** The state after a reorg check that found this depth, and whether the tick goes on. */
  function Reorged(s: State, depth: Option<int>, del: int -> Deletion): (State, bool) {
    if depth.None? then (s, false)
    else if depth.value == 0 then (s, true)
    else
      var from := s.cursor - depth.value + 1;
      var s' := s.(stored := Reverted(s.stored, HighestStored(s.stored), from, del));
      if RevertsAll(HighestStored(s.stored), from, del) then (s'.(cursor := from - 1), true) else (s', false)
  }

  function Checked(s: State, a: Answers): (State, bool) {
    if s.cursor <= 0 then (s, true) else Reorged(s, DepthAt(s, a), a.del)
  }

  /** What a check does about a fork at n: everything from n up goes, or the tick ends with the cursor where it was. */
  ghost predicate RevertedFrom(s: State, n: int, del: int -> Deletion, s': State, ok: bool) {
    && ok == RevertsAll(HighestStored(s.stored), n, del)
    && s' == s.(stored := s'.stored, cursor := if ok then n - 1 else s.cursor)
    && (forall m :: m < n ==> Get(s'.stored, m) == Get(s.stored, m))
    && (ok ==> forall m :: m in s'.stored ==> m < n)
    && Part(s'.stored, s.stored)
  }

  /**
   The check of a tick: it ends the tick when a read fails, passes when the window agrees with the node, and otherwise
   reverts everything from the lowest mismatch up.
   */
  lemma {:induction false} CheckReverts(s: State, a: Answers)
    requires s.cursor > 0
    ensures var (s', ok) := Checked(s, a);
            if !WindowAnswers(s.stored, s.cursor, a.readable, a.chain) then s' == s && !ok
            else if WindowAgrees(s.stored, s.cursor, a.chain) then s' == s && ok
            else exists n :: LowestMismatch(s.stored, s.cursor, a.chain, n) && RevertedFrom(s, n, a.del, s', ok)
  {
    ScanExactly(s.stored, s.cursor, a.readable, a.chain);
    var depth := DepthAt(s, a);
    if depth.Some? && depth.value > 0 {
      var n := s.cursor - depth.value + 1;
      var (s', ok) := Checked(s, a);
      RevertsFrom(s, n, a.del);
      assert LowestMismatch(s.stored, s.cursor, a.chain, n) && RevertedFrom(s, n, a.del, s', ok);
    }
  }

  lemma {:induction false} RevertsFrom(s: State, n: int, del: int -> Deletion)
    requires 0 < n <= s.cursor
    ensures var (s', ok) := Reorged(s, Some(s.cursor - n + 1), del); RevertedFrom(s, n, del, s', ok)
  {
    var (s', ok) := Reorged(s, Some(s.cursor - n + 1), del);
    var top := HighestStored(s.stored);
    forall m ensures m < n ==> Get(s'.stored, m) == Get(s.stored, m)
             ensures ok && m in s'.stored ==> m < n
             ensures m in s'.stored ==> m in s.stored && s'.stored[m] == s.stored[m]
    {
      RevertedIs(s.stored, top, n, del, m);
    }
  }

  /** What a tick leaves at n: the block that was there, or else the one it wrote; none of another fork's from it up. */
  ghost predicate LandsAt(env: Env, b: Blocks, t: Tick, del: int -> Deletion, b': Blocks, n: int) {
    var wrote := if n in b then Some(b[n])
                 else if n in t.indexed && env.slot(n).Ready? then Some(env.slot(n).header) else None;
    if t.stale.None? || n < t.stale.value then Get(b', n) == wrote
    else Get(b', n).None? || (Get(b', n) == wrote && !forall m :: m >= t.stale.value ==> del(m).Gone?)
  }

  ghost predicate Lands(env: Env, b: Blocks, t: Tick, del: int -> Deletion, b': Blocks) {
    forall n :: LandsAt(env, b, t, del, b', n)
  }

  lemma {:induction false} TickLands(env: Env, b: Blocks, t: Tick, del: int -> Deletion)
    requires forall m :: m in t.indexed ==> env.slot(m).Ready?
    ensures var now := StoredAfter(env, b, t.indexed);
            Lands(env, b, t, del,
                  if t.stale.Some? then Reverted(now, HighestStored(now), t.stale.value, del) else now)
  {
    var now := StoredAfter(env, b, t.indexed);
    StoresIndexed(env, b, t.indexed);
    var b' := if t.stale.Some? then Reverted(now, HighestStored(now), t.stale.value, del) else now;
    forall n ensures LandsAt(env, b, t, del, b', n) {
      if t.stale.Some? {
        RevertedIs(now, HighestStored(now), t.stale.value, del, n);
      }
    }
  }

  /** The commits of a tick, and the revert of another fork it finds stored. */
  function Committed(s: State, a: Answers): State {
    var anchor, r := AnchorOf(s, a.read), Dropped(s.receipts, s.cursor);
    if !anchor.ok || a.latest <= anchor.from then s.(cursor := anchor.from, receipts := r) else
      Landed(s, a, Loop(a.env, anchor.from + 1, a.latest, anchor.hash, anchor.remembered,
                        Tick(anchor.from, r, [], [], None)))
  }

  function Landed(s: State, a: Answers, t: Tick): State {
    var b := StoredAfter(a.env, s.stored, t.indexed);
    s.(stored := if t.stale.Some? then Reverted(b, HighestStored(b), t.stale.value, a.staleDel) else b,
       cursor := t.cursor, receipts := t.receipts, missing := s.missing + Elements(t.skipped))
  }

  /** What the commits of a tick that starts at the anchor leave: t is the walk over the prefetched blocks. */
  ghost predicate CommitsDone(s: State, a: Answers, anchor: Anchor, t: Tick, s': State) {
    && Walked(a.env, anchor.from, a.latest, anchor.hash, anchor.remembered, Dropped(s.receipts, s.cursor), t)
    && s' == s.(stored := s'.stored, cursor := t.cursor, receipts := t.receipts, missing := s'.missing)
    && Lands(a.env, s.stored, t, a.staleDel, s'.stored)
    && forall n :: n in s'.missing <==> n in s.missing || n in t.skipped
  }

  lemma {:induction false} WalkCommits(s: State, a: Answers, anchor: Anchor, t: Tick)
    requires Walked(a.env, anchor.from, a.latest, anchor.hash, anchor.remembered, Dropped(s.receipts, s.cursor), t)
    ensures CommitsDone(s, a, anchor, t, Landed(s, a, t))
  {
    TickLands(a.env, s.stored, t, a.staleDel);
  }

  /** A tick's commits store exactly the blocks its walk wrote and record as missing exactly the one it skipped. */
  lemma {:induction false} CommittedExactly(s: State, a: Answers)
    requires AnchorOf(s, a.read).ok && a.latest > AnchorOf(s, a.read).from
    ensures exists t :: CommitsDone(s, a, AnchorOf(s, a.read), t, Committed(s, a))
  {
    var anchor, r := AnchorOf(s, a.read), Dropped(s.receipts, s.cursor);
    var t := Loop(a.env, anchor.from + 1, a.latest, anchor.hash, anchor.remembered,
                  Tick(anchor.from, r, [], [], None));
    LoopWalks(a.env, anchor.from, a.latest, anchor.hash, anchor.remembered, r);
    WalkCommits(s, a, anchor, t);
    assert Committed(s, a) == Landed(s, a, t);
  }

  function Ticked(s: State, a: Answers): State {
    var (s', ok) := Checked(s, a);
    if ok then Committed(s', a) else s'
  }

  lemma {:induction false} RevertLinks(b: Blocks, cursor: int, from: int, del: int -> Deletion, lo: int)
    requires LinkedTo(b, cursor, lo) && from >= 1
    ensures var b' := Reverted(b, HighestStored(b), from, del);
            LinkedTo(b', cursor, lo) && (RevertsAll(HighestStored(b), from, del) ==> LinkedTo(b', from - 1, lo))
  {
    var b' := Reverted(b, HighestStored(b), from, del);
    RevertedIsPart(b, HighestStored(b), from, del);
    if RevertsAll(HighestStored(b), from, del) {
      RevertedBelow(b, HighestStored(b), from, del);
    }
  }

  lemma {:induction false} ReorgedKeeps(s: State, depth: Option<int>, del: int -> Deletion, lo: int)
    requires Inv(s, lo) && (depth.Some? ==> 0 <= depth.value <= s.cursor)
    ensures Inv(Reorged(s, depth, del).0, lo) && Part(Reorged(s, depth, del).0.stored, s.stored)
    ensures Reorged(s, depth, del).0.missing == s.missing && Reorged(s, depth, del).0.start == s.start
  {
    if depth.Some? {
      RevertLinks(s.stored, s.cursor, s.cursor - depth.value + 1, del, lo);
      RevertedIsPart(s.stored, HighestStored(s.stored), s.cursor - depth.value + 1, del);
    }
  }

  lemma {:induction false} CheckedKeeps(s: State, a: Answers, lo: int)
    requires Inv(s, lo)
    ensures Inv(Checked(s, a).0, lo) && (GenesisChecked(s) ==> GenesisChecked(Checked(s, a).0))
  {
    if s.cursor > 0 {
      if DepthAt(s, a).Some? {
        ScanFindsDeepest(s.stored, s.cursor, a.readable, a.chain, 0, 0);
      }
      ReorgedKeeps(s, DepthAt(s, a), a.del, lo);
    }
  }

  /** A tick's commits keep the links, whatever the node answers, when their start has a hash or is not stored. */
  lemma {:induction false} CommittedKeeps(s: State, a: Answers, lo: int)
    requires Inv(s, lo) && NodeHashesSet(a.env) && (lo >= 1 || !OnGenesis(s))
    ensures Inv(Committed(s, a), lo)
  {
    var anchor, r := AnchorOf(s, a.read), Dropped(s.receipts, s.cursor);
    if anchor.ok {
      AnchorIsAnchored(s, a.read, lo);
      if a.latest > anchor.from {
        var t := Tick(anchor.from, r, [], [], None);
        assert Fits(a.env, s.stored, t, anchor.hash, lo);
        LoopLinks(a.env, anchor.from + 1, a.latest, anchor.hash, anchor.remembered, t, s.stored, lo);
        var t' := Loop(a.env, anchor.from + 1, a.latest, anchor.hash, anchor.remembered, t);
        var b := StoredAfter(a.env, s.stored, t'.indexed);
        if t'.stale.Some? {
          RevertedIsPart(b, HighestStored(b), t'.stale.value, a.staleDel);
        }
      }
    }
  }

  // ---------- filling a skipped block later ----------

  predicate FitsBetween(b: Blocks, n: int, h: Header) {
    (n > 0 && n - 1 in b ==> b[n - 1].hash == h.parent) && (n + 1 in b ==> b[n + 1].parent == h.hash)
  }

  /** A recorded block is written only if it fits the stored blocks on both sides. */
  function Filled(b: Blocks, n: int, fetched: Slot, readable: bool, o: Outcome): Blocks {
    if n !in b && readable && fetched.Ready? && FitsBetween(b, n, fetched.header) && Good(o) then b[n := fetched.header]
        else b
  }

  /** The neighbours of n that are stored are the block before it and the block after it. */
  ghost predicate Neighbours(b: Blocks, n: int, h: Header) {
    forall m :: m in b && m >= 0 ==> (m == n - 1 ==> b[m].hash == h.parent) && (m == n + 1 ==> b[m].parent == h.hash)
  }

  /** The fill stores the block exactly when it is read, fits and is written, and touches no other. */
  lemma {:induction false} FillsExactly(b: Blocks, n: int, fetched: Slot, readable: bool, o: Outcome, m: int)
    requires n !in b && n >= 0
    ensures Get(Filled(b, n, fetched, readable, o), m) ==
            if m == n && readable && fetched.Ready? && (o.Done? || o.AlreadyStored?) && Neighbours(b, n, fetched.header)
            then Some(fetched.header) else Get(b, m)
  {
    assert fetched.Ready? ==> (Neighbours(b, n, fetched.header) <==> FitsBetween(b, n, fetched.header));
  }

  lemma {:induction false} FillLinks(b: Blocks, top: int, n: int, fetched: Slot, readable: bool, o: Outcome, lo: int)
    requires LinkedTo(b, top, lo) && lo >= 0 && 0 <= n <= top && (fetched.Ready? ==> fetched.header.hash != 0)
    ensures LinkedTo(Filled(b, n, fetched, readable, o), top, lo)
  {
  }

  // ---------- every run ----------

  datatype Step =
    | TickStep(a: Answers)
    | FillStep(n: int, fetched: Slot, readable: bool, o: Outcome)
    | PruneStep(through: int)

  ghost predicate Enabled(s: State, step: Step) {
    match step
    case TickStep(a) => NodeHashesSet(a.env)
    case FillStep(n, fetched, _, _) => n in s.missing && 0 <= n <= s.cursor && (fetched.Ready? ==>
        fetched.header.hash != 0)
    case PruneStep(through) => through >= s.pruned
  }

  function Apply(s: State, step: Step): State {
    match step
    case TickStep(a) => Ticked(s, a)
    case FillStep(n, fetched, readable, o) => s.(stored := Filled(s.stored, n, fetched, readable, o))
    case PruneStep(through) => s.(pruned := through, stored := map n | n in s.stored && n > through :: s.stored[n])
  }

  ghost predicate Feasible(s: State, steps: seq<Step>) decreases |steps| {
    steps == [] || (Enabled(s, steps[0]) && Feasible(Apply(s, steps[0]), steps[1..]))
  }

  function Run(s: State, steps: seq<Step>): State decreases |steps| {
    if steps == [] then s else Run(Apply(s, steps[0]), steps[1..])
  }

  lemma {:induction false} LoopAbove(env: Env, n: int, latest: int, prev: Hash, remembered: bool, t: Tick)
    requires n >= 1 && 0 !in t.indexed && 0 !in t.skipped
    ensures var t' := Loop(env, n, latest, prev, remembered, t); 0 !in t'.indexed && 0 !in t'.skipped
    decreases latest - n + 1
  {
    if GoesOn(env, n, latest, prev, t) {
      LoopGoesOn(env, n, latest, prev, remembered, t);
      LoopAbove(env, n + 1, latest, env.slot(n).header.hash, false, Past(env, n, t));
    } else {
      LoopStops(env, n, latest, prev, remembered, t);
    }
  }

  lemma {:induction false} StoredNotZero(env: Env, b: Blocks, indexed: seq<int>)
    requires 0 !in b && 0 !in indexed
    ensures 0 !in StoredAfter(env, b, indexed)
    decreases |indexed|
  {
    if indexed != [] {
      StoredNotZero(env, b, indexed[..|indexed| - 1]);
    }
  }

  lemma {:induction false} CommittedChecksGenesis(s: State, a: Answers)
    requires Inv(s, 0) && GenesisChecked(s)
    ensures GenesisChecked(Committed(s, a))
  {
    var anchor, r := AnchorOf(s, a.read), Dropped(s.receipts, s.cursor);
    if s.start == 0 && anchor.ok && a.latest > anchor.from {
      AnchorIsAnchored(s, a.read, 0);
      var t := Tick(anchor.from, r, [], [], None);
      LoopAbove(a.env, anchor.from + 1, a.latest, anchor.hash, anchor.remembered, t);
      var t' := Loop(a.env, anchor.from + 1, a.latest, anchor.hash, anchor.remembered, t);
      StoredNotZero(a.env, s.stored, t'.indexed);
      var b := StoredAfter(a.env, s.stored, t'.indexed);
      if t'.stale.Some? {
        RevertedIsPart(b, HighestStored(b), t'.stale.value, a.staleDel);
      }
    }
  }

  lemma {:induction false} KeepsLinks(s: State, step: Step, lo: int)
    requires Inv(s, lo) && lo >= 0 && Enabled(s, step) && (lo == 0 ==> GenesisChecked(s))
    ensures Inv(Apply(s, step), lo) && (lo == 0 ==> GenesisChecked(Apply(s, step)))
  {
    match step
    case TickStep(a) =>
      CheckedKeeps(s, a, lo);
      var (s', ok) := Checked(s, a);
      if ok {
        CommittedKeeps(s', a, lo);
        if lo == 0 {
          CommittedChecksGenesis(s', a);
        }
      }
    case FillStep(n, fetched, readable, o) => FillLinks(s.stored, s.cursor, n, fetched, readable, o, lo);
    case PruneStep(through) =>
  }

  lemma {:induction false} RunLinks(s: State, steps: seq<Step>, lo: int)
    requires Inv(s, lo) && lo >= 0 && Feasible(s, steps) && (lo == 0 ==> GenesisChecked(s))
    ensures Inv(Run(s, steps), lo)
    decreases |steps|
  {
    if steps != [] {
      KeepsLinks(s, steps[0], lo);
      RunLinks(Apply(s, steps[0]), steps[1..], lo);
    }
  }

  /**
   In every run, any two adjacent stored blocks from block 1 up are linked by hash; and a store linked only from some
   higher block up stays linked from there up.
   */
  lemma {:induction false} AlwaysLinked(s: State, steps: seq<Step>, lo: int)
    requires Inv(s, lo) && lo >= 1 && Feasible(s, steps)
    ensures Inv(Run(s, steps), lo) && Linked(Run(s, steps).stored, lo)
  {
    RunLinks(s, steps, lo);
  }

  // ---------- blocks 0 and 1 ----------

  /** The pair of blocks 0 and 1 is linked if both are stored. */
  ghost predicate GenesisLinked(b: Blocks) { 0 in b && 1 in b ==> b[1].parent == b[0].hash }

  ghost predicate LinkedAfter(s: State, steps: seq<Step>) {
    Feasible(s, steps) ==> GenesisLinked(Run(s, steps).stored)
  }

  function Agreeing(b: Blocks): int -> Option<Hash> { n => if n in b then Some(b[n].hash) else None }

  function Disagreeing(b: Blocks): int -> Option<Hash> { n => if n in b then Some(b[n].hash + 1) else None }

  function NoEnv(slot: int -> Slot): Env { Env(slot, _ => Done, _ => true, _ => Done, _ => true, _ => None) }

  function Tuned(chain: int -> Option<Hash>, answered: bool, slot: int -> Slot, latest: int): Answers {
    Answers(_ => true, chain, _ => Gone, Reads(answered, answered, answered), NoEnv(slot), latest, _ => Gone)
  }

  /** A check on which the node agrees with every stored block finds no reorg. */
  lemma {:induction false} AgreeingChecks(s: State, answered: bool, slot: int -> Slot, latest: int)
    requires s.cursor >= 0
    ensures Checked(s, Tuned(Agreeing(s.stored), answered, slot, latest)) == (s, true)
  {
    var a := Tuned(Agreeing(s.stored), answered, slot, latest);
    if s.cursor > 0 {
      ScanExactly(s.stored, s.cursor, a.readable, a.chain);
    }
  }

  /** From a stored cursor, a tick can lower the cursor and leave block 0 as it was. */
  lemma {:induction false} StepsDown(s: State) returns (step: Step)
    requires Inv(s, 1) && s.cursor > 0 && s.cursor in s.stored
    ensures var s' := Apply(s, step);
            && Enabled(s, step) && Inv(s', 1) && s'.cursor < s.cursor && s'.start == s.start && s'.missing == s.missing
            && (0 in s.stored ==> 0 in s'.stored)
  {
    step := TickStep(Tuned(Disagreeing(s.stored), false, _ => Failed, 0));
    DisagreeingLowers(s);
    KeepsLinks(s, step, 1);
  }

  /** A check on which the node disagrees with the stored cursor takes the cursor's block off and goes on. */
  lemma {:induction false} DisagreeingLowers(s: State)
    requires s.cursor > 0 && s.cursor in s.stored
    ensures var (s', ok) := Checked(s, Tuned(Disagreeing(s.stored), false, _ => Failed, 0));
            && ok && 0 <= s'.cursor < s.cursor && s' == s.(stored := s'.stored, cursor := s'.cursor)
            && (0 in s.stored ==> 0 in s'.stored)
  {
    var a := Tuned(Disagreeing(s.stored), false, _ => Failed, 0);
    DisagreeingDepth(s.stored, s.cursor, a.readable, a.chain);
    ReorgedLowers(s, DepthAt(s, a), a.del);
  }

  lemma {:induction false} DisagreeingDepth(b: Blocks, cursor: int, readable: int -> bool, chain: int -> Option<Hash>)
    requires cursor > 0 && cursor in b && forall n :: readable(n)
    requires forall n :: n in b ==> chain(n).Some? && chain(n).value != b[n].hash
    ensures Scan(b, cursor, readable, chain, 0, 0).Some? && 1 <= Scan(b, cursor, readable, chain, 0, 0).value <= cursor
  {
    assert InWindow(cursor, cursor) && Mismatch(b, chain, cursor);
    MismatchIsDeep(b, cursor, readable, chain);
  }

  lemma {:induction false} MismatchIsDeep(b: Blocks, cursor: int, readable: int -> bool, chain: int -> Option<Hash>)
    requires cursor >= 0 && WindowAnswers(b, cursor, readable, chain) && !WindowAgrees(b, cursor, chain)
    ensures Scan(b, cursor, readable, chain, 0, 0).Some? && 1 <= Scan(b, cursor, readable, chain, 0, 0).value <= cursor
  {
    ScanExactly(b, cursor, readable, chain);
  }

  lemma {:induction false} ReorgedLowers(s: State, depth: Option<int>, del: int -> Deletion)
    requires depth.Some? && 1 <= depth.value <= s.cursor && forall n :: del(n).Gone?
    ensures var (s', ok) := Reorged(s, depth, del);
            && ok && 0 <= s'.cursor < s.cursor && s' == s.(stored := s'.stored, cursor := s'.cursor)
            && (0 in s.stored ==> 0 in s'.stored)
  {
    RevertedKeepsLow(s.stored, HighestStored(s.stored), s.cursor - depth.value + 1, del);
  }

  lemma {:induction false} RevertedKeepsLow(b: Blocks, top: int, from: int, del: int -> Deletion)
    ensures forall n :: n in b && n < from ==> n in Reverted(b, top, from, del)
    decreases top - from + 1
  {
    if top >= from && del(top).Gone? {
      RevertedKeepsLow(b - {top}, top - 1, from, del);
    }
  }

  predicate Remembers(s: State) { var r := Dropped(s.receipts, s.cursor); r.skipped == s.cursor && r.skippedHash != 0 }

  /** From a cursor that is not stored, a tick can forget the hash of the skipped block there. */
  lemma {:induction false} Forgets(s: State) returns (step: Step)
    requires Inv(s, 1) && s.cursor > 0 && s.cursor !in s.stored && Remembers(s)
    ensures var s' := Apply(s, step); Enabled(s, step) && s' == s.(receipts := s'.receipts) && !Remembers(s')
  {
    var h := Header(1, s.receipts.skippedHash + 1);
    var a := Tuned(Agreeing(s.stored), true, _ => Ready(h, true), s.cursor + 1);
    step := TickStep(a);
    AgreeingChecks(s, true, _ => Ready(h, true), s.cursor + 1);
    assert s.missing + {} == s.missing;
  }

  lemma {:induction false} SomeStored(b: Blocks) returns (n: int)
    requires b.Keys != {}
    ensures n in b
  {
    n := Max(b.Keys);
  }

  /** From a cursor that is neither stored nor remembered, a tick can go back to the highest stored block. */
  lemma {:induction false} GoesBelow(s: State) returns (step: Step)
    requires Inv(s, 1) && s.cursor > 0 && s.cursor !in s.stored && !Remembers(s) && s.stored.Keys != {}
    ensures var s' := Apply(s, step); Enabled(s, step) && s' == s.(cursor := s'.cursor, receipts := s'.receipts)
    ensures Inv(Apply(s, step), 1) && Apply(s, step).cursor < s.cursor
  {
    step := TickStep(Tuned(Agreeing(s.stored), true, _ => Failed, 0));
    AgreeingChecks(s, true, _ => Failed, 0);
    KeepsLinks(s, step, 1);
    var n := SomeStored(s.stored);
    assert n in AtOrBelow(s.stored, s.cursor);
  }

  lemma {:induction false} FillsGenesis(s: State) returns (step: Step)
    requires Inv(s, 1) && 0 in s.missing && s.stored.Keys == {}
    ensures Enabled(s, step) && Apply(s, step).stored.Keys == {0} && Inv(Apply(s, step), 1)
    ensures Apply(s, step) == s.(stored := Apply(s, step).stored)
  {
    step := FillStep(0, Ready(Header(1, 0), true), true, Done);
    KeepsLinks(s, step, 1);
  }

  /** On a stored block 0, the node can have block 1 stored on another block 0. */
  lemma {:induction false} BreaksGenesis(s: State) returns (a: Answers)
    requires Inv(s, 1) && OnGenesis(s)
    ensures NodeHashesSet(a.env) && !GenesisLinked(Committed(s, a).stored) && Checked(s, a) == (s, true)
  {
    var h := Header(1, s.stored[0].hash + 1);
    a := Tuned(_ => None, true, _ => Ready(h, true), 1);
    var t := Tick(0, Dropped(s.receipts, 0), [], [], None);
    assert Written(a.env, 1, true) == Done;
    assert Loop(a.env, 1, 1, 0, false, t) == Loop(a.env, 2, 1, h.hash, false, IndexedBlock(t, 1)) == IndexedBlock(t, 1);
    assert [] + [1] == [1] && StoredAfter(a.env, s.stored, []) == s.stored;
    assert Committed(s, a).stored == s.stored[1 := h];
  }

  /** What is left to do before the cursor can move down. */
  ghost function ToGo(s: State): nat { (if s.stored.Keys == {} then 2 else 0) + (if Remembers(s) then 1 else 0) }

  /** The steps that come before the break, one at a time. */
  lemma {:induction false} NextToBreak(s: State) returns (step: Step)
    requires Inv(s, 1) && s.start == 0 && (0 in s.stored || 0 in s.missing) && !OnGenesis(s)
    ensures var s' := Apply(s, step);
            && Enabled(s, step) && Inv(s', 1) && s'.start == 0 && (0 in s'.stored || 0 in s'.missing)
            && (s'.cursor < s.cursor || (s'.cursor == s.cursor && ToGo(s') < ToGo(s)))
  {
    if s.cursor > 0 && s.cursor in s.stored {
      step := StepsDown(s);
      return;
    }
    if s.stored.Keys == {} {
      step := FillsGenesis(s);
      return;
    }
    var n := SomeStored(s.stored);
    if Remembers(s) {
      step := Forgets(s);
    } else {
      step := GoesBelow(s);
    }
  }

  /** From every state whose block 0 goes unchecked, some run breaks the link between blocks 0 and 1. */
  lemma {:induction false} SomeRunBreaks(s: State) returns (steps: seq<Step>)
    requires Inv(s, 1) && !GenesisChecked(s)
    ensures Feasible(s, steps) && !GenesisLinked(Run(s, steps).stored)
    decreases s.cursor, ToGo(s)
  {
    if OnGenesis(s) {
      var a := BreaksGenesis(s);
      steps := [TickStep(a)];
      assert steps[1..] == [] && Run(s, steps) == Run(Apply(s, steps[0]), []);
    } else {
      var step := NextToBreak(s);
      var rest := SomeRunBreaks(Apply(s, step));
      steps := [step] + rest;
      assert steps[1..] == rest;
    }
  }

  /**
   Blocks 0 and 1 are linked in every run exactly when they are at the start and block 0 is checked: indexing starts
   above it, or it is neither stored nor recorded as missing.
   */
  lemma {:induction false} GenesisHoldsExactly(s: State)
    requires Inv(s, 1)
    ensures (forall steps :: LinkedAfter(s, steps)) <==> GenesisLinked(s.stored) && GenesisChecked(s)
  {
    if !GenesisChecked(s) {
      var steps := SomeRunBreaks(s);
      assert !LinkedAfter(s, steps);
    } else if GenesisLinked(s.stored) {
      forall steps ensures LinkedAfter(s, steps) {
        CheckedRunLinks(s, steps);
      }
    } else {
      assert !LinkedAfter(s, []);
    }
  }

  lemma {:induction false} CheckedRunLinks(s: State, steps: seq<Step>)
    requires Inv(s, 1) && GenesisLinked(s.stored) && GenesisChecked(s)
    ensures LinkedAfter(s, steps)
  {
    if Feasible(s, steps) {
      RunLinks(s, steps, 0);
      var b := Run(s, steps).stored;
      assert 0 in b && 0 + 1 in b ==> b[0 + 1].parent == b[0].hash;
    }
  }

  /** A tick's commits keep every link for every answer exactly when it does not start on a stored block 0. */
  lemma {:induction false} LinksHoldExactly(s: State)
    requires Inv(s, 0)
    ensures (forall a: Answers :: NodeHashesSet(a.env) ==> Linked(Committed(s, a).stored, 0)) <==> !OnGenesis(s)
  {
    if OnGenesis(s) {
      var a := BreaksGenesis(s);
      var b := Committed(s, a).stored;
      assert 0 in b && 0 + 1 in b;
    } else {
      forall a: Answers | NodeHashesSet(a.env) ensures Linked(Committed(s, a).stored, 0) {
        CommittedKeeps(s, a, 0);
      }
    }
  }
}
