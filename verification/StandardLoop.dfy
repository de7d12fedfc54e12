/** The standard loop as it runs: a tick, and the pass over the blocks recorded as missing. */
module StandardLoop {
  import opened Sums
  import opened CommitLoop
  import CommitPipeline
  import opened StandardMode

  const MISSING_RETRY_BLOCKS := 20

  /** A run of blocks recorded as missing, both ends included. */
  datatype Range = Range(from: int, to: int)

  datatype FillAnswers = FillAnswers(fetched: int -> Slot, readable: int -> bool, written: int -> Outcome)

  /** The reorg check and its revert; ok says that the tick goes on. */
  method CheckReorg(s: State, a: Answers) returns (s': State, ok: bool)
    ensures (s', ok) == Checked(s, a)
  {
    if s.cursor <= 0 {
      return s, true;
    }
    var depth := DetectReorg(s.stored, s.cursor, a.readable, a.chain);
    if depth.None? || depth.value == 0 {
      return s, depth.Some?;
    }
    assert Checked(s, a) == Reorged(s, depth, a.del);
    s', ok := Revert(s, depth.value, a.del);
  }

  method Revert(s: State, depth: int, del: int -> Deletion) returns (s': State, ok: bool)
    requires depth != 0
    ensures (s', ok) == Reorged(s, Some(depth), del)
  {
    var from := s.cursor - depth + 1;
    var b;
    b, ok := HandleReorg(s.stored, from, del);
    s' := if ok then s.(stored := b, cursor := from - 1) else s.(stored := b);
  }

  /** The commits from one block on, pipelined when depth is above 1. */
  method IndexFrom(env: Env, anchor: Anchor, latest: int, depth: int, r: ReceiptSkip) returns (t: Tick)
    modifies r
    ensures t == Loop(env, anchor.from + 1, latest, anchor.hash, anchor.remembered,
                      Tick(anchor.from, old(r.Now()), [], [], None))
    ensures r.Now() == t.receipts
  {
    if depth > 1 {
      var log;
      t, log := CommitPipeline.IndexPipelined(env, anchor.from, latest, depth, anchor.hash, anchor.remembered, r);
    } else {
      t := IndexPrefetched(env, anchor.from, latest, anchor.hash, anchor.remembered, r);
    }
  }

  method DropRemembered(r: ReceiptSkip, cursor: int)
    modifies r
    ensures r.Now() == Dropped(old(r.Now()), cursor)
  {
    if r.skipped > cursor {
      r.Remember(0, 0);
    }
  }

  /** The tables after a tick's commits. */
  method Land(s: State, a: Answers, t: Tick) returns (s': State)
    ensures s' == Landed(s, a, t)
  {
    var b, ok := StoredAfter(a.env, s.stored, t.indexed), true;
    if t.stale.Some? {
      b, ok := HandleReorg(b, t.stale.value, a.staleDel);
    }
    s' := s.(stored := b, cursor := t.cursor, receipts := t.receipts, missing := s.missing + Elements(t.skipped));
  }

  method Commit(s: State, a: Answers, depth: int, r: ReceiptSkip) returns (s': State)
    requires r.Now() == s.receipts
    modifies r
    ensures s' == Committed(s, a) && r.Now() == s'.receipts
  {
    var anchor := AnchorOf(s, a.read);
    DropRemembered(r, s.cursor);
    if !anchor.ok || a.latest <= anchor.from {
      return s.(cursor := anchor.from, receipts := r.Now());
    }
    var t := IndexFrom(a.env, anchor, a.latest, depth, r);
    s' := Land(s, a, t);
  }

  /** A whole tick keeps the stored blocks linked, whatever the node answers. */
  method StandardTick(s: State, a: Answers, depth: int, r: ReceiptSkip) returns (s': State)
    requires Inv(s, 1) && NodeHashesSet(a.env) && r.Now() == s.receipts
    modifies r
    ensures s' == Ticked(s, a) && r.Now() == s'.receipts && Inv(s', 1)
    ensures Linked(s.stored, 0) && GenesisChecked(s) ==> Linked(s'.stored, 0) && GenesisChecked(s')
  {
    KeepsLinks(s, TickStep(a), 1);
    if Linked(s.stored, 0) && GenesisChecked(s) {
      KeepsLinks(s, TickStep(a), 0);
    }
    var ok;
    s', ok := CheckReorg(s, a);
    if ok {
      s' := Commit(s', a, depth, r);
    }
  }

  // ---------- the pass over the missing blocks ----------

  /** The blocks [from, next) tried in order, each against what the ones before it left. */
  function FilledTo(b: Blocks, from: int, next: int, a: FillAnswers): Blocks
    requires from <= next
    decreases next - from
  {
    if from == next then b else TryFill(FilledTo(b, from, next - 1, a), next - 1, a)
  }

  function TryFill(b: Blocks, n: int, a: FillAnswers): Blocks {
    Filled(b, n, a.fetched(n), a.readable(n), a.written(n))
  }

  /** Tries a range's blocks in order until one cannot be filled; next is the first not known to be stored. */
  method FillRange(b: Blocks, r: Range, cursor: int, budget: int, a: FillAnswers, ghost lo: int)
    returns (b': Blocks, next: int, failed: bool)
    requires 0 <= r.from && 0 <= budget && 0 <= lo && LinkedTo(b, cursor, lo)
    requires forall n :: a.fetched(n).Ready? ==> a.fetched(n).header.hash != 0
    ensures LinkedTo(b', cursor, lo) && Part(b, b')
    ensures r.from <= next && next - r.from + (if failed then 1 else 0) <= budget
    ensures forall n :: r.from <= n < next ==> n in b'
    ensures next == r.from || next <= r.to + 1
    ensures b' == FilledTo(b, r.from, next, a)
    ensures failed ==> next !in TryFill(b', next, a) && next <= r.to && next <= cursor
    ensures !failed ==> next > r.to || next > cursor || next - r.from == budget
  {
    b', next, failed := b, r.from, false;
    while next <= r.to && next <= cursor && next - r.from < budget
      invariant r.from <= next && next - r.from <= budget && LinkedTo(b', cursor, lo) && Part(b, b')
      invariant forall n :: r.from <= n < next ==> n in b'
      invariant next == r.from || next <= r.to + 1
      invariant b' == FilledTo(b, r.from, next, a)
    {
      FillLinks(b', cursor, next, a.fetched(next), a.readable(next), a.written(next), lo);
      if next !in TryFill(b', next, a) {
        return b', next, true;
      }
      b' := TryFill(b', next, a);
      next := next + 1;
    }
  }

  /** Where a pass stands: the blocks stored and the blocks tried so far. */
  datatype Standing = Standing(b: Blocks, tried: int)

  /**
   One range worked from `was`: its blocks are tried in order up to where left starts. It stops there at its end, the
   cursor or the last try, or at a block that cannot be filled then, which costs a try of its own.
   */
  ghost predicate Worked(was: Standing, now: Standing, r: Range, left: Range, cursor: int, a: FillAnswers)
  {
    && r.from <= left.from && left.to == r.to
    && now.b == FilledTo(was.b, r.from, left.from, a)
    && var tried := was.tried + left.from - r.from;
       var short := left.from <= r.to && left.from <= cursor && tried < MISSING_RETRY_BLOCKS;
       && (short ==> left.from !in TryFill(now.b, left.from, a))
       && now.tried == tried + if short then 1 else 0
  }

  /**
   One pass: at most MISSING_RETRY_BLOCKS blocks are tried, the links stay, and a number leaves the record only once its
   block is stored. The ranges are worked in order, each from where the one before stood (trail), and the pass stops
   short of a range only when that range lies above the cursor or no try is left.
   */
  method RetryMissing(b: Blocks, ranges: seq<Range>, cursor: int, a: FillAnswers, ghost lo: int)
    returns (b': Blocks, left: seq<Range>, tried: int, ghost trail: seq<Standing>)
    requires 0 <= lo && LinkedTo(b, cursor, lo) && forall i :: 0 <= i < |ranges| ==> 0 <= ranges[i].from
    requires forall n :: a.fetched(n).Ready? ==> a.fetched(n).header.hash != 0
    ensures LinkedTo(b', cursor, lo) && Part(b, b') && 0 <= tried <= MISSING_RETRY_BLOCKS
    ensures |left| == |ranges|
    ensures forall i, n :: 0 <= i < |ranges| && ranges[i].from <= n < left[i].from ==> n in b'
    ensures 1 <= |trail| <= |ranges| + 1 && trail[0] == Standing(b, 0) && trail[|trail| - 1] == Standing(b', tried)
    ensures forall i :: 0 < i < |trail| ==> Worked(trail[i - 1], trail[i], ranges[i - 1], left[i - 1], cursor, a)
    ensures forall i :: |trail| <= i + 1 <= |ranges| ==> left[i] == ranges[i]
    ensures |trail| - 1 == |ranges| || ranges[|trail| - 1].from > cursor || tried == MISSING_RETRY_BLOCKS
  {
    b', left, tried, trail := b, ranges, 0, [Standing(b, 0)];
    var i := 0;
    while i < |ranges| && ranges[i].from <= cursor && tried < MISSING_RETRY_BLOCKS
      invariant 0 <= i <= |ranges| == |left| && 0 <= tried <= MISSING_RETRY_BLOCKS
      invariant LinkedTo(b', cursor, lo) && Part(b, b')
      invariant forall j, n :: 0 <= j < |ranges| && ranges[j].from <= n < left[j].from ==> n in b'
      invariant forall j :: i <= j < |ranges| ==> left[j] == ranges[j]
      invariant |trail| == i + 1 && trail[0] == Standing(b, 0) && trail[i] == Standing(b', tried)
      invariant forall j :: 0 < j <= i ==> Worked(trail[j - 1], trail[j], ranges[j - 1], left[j - 1], cursor, a)
    {
      var next, failed;
      b', next, failed := FillRange(b', ranges[i], cursor, MISSING_RETRY_BLOCKS - tried, a, lo);
      tried := tried + next - ranges[i].from + if failed then 1 else 0;
      left := left[i := Range(next, ranges[i].to)];
      trail := trail + [Standing(b', tried)];
      i := i + 1;
    }
  }
}
