/** The realtime indexer's fields as its ticks change them. */
module RealtimeLoop {
  import opened Sums
  import opened CommitLoop
  import SM = StandardMode
  import SL = StandardLoop
  import R = Realtime

  /** A revert down to fork, refused when it would go deeper than any reorg. */
  method HandleReorg(s: R.State, fork: int, a: R.Answers) returns (b: R.Blocks, ok: bool)
    ensures (b, ok) == R.RevertedTo(s, fork, a)
  {
    if !a.latest {
      return s.stored, false;
    }
    var top := SM.HighestStored(s.stored);
    if top > fork && top - fork > R.MAX_REORG_DEPTH {
      return s.stored, false;
    }
    b, ok := SM.HandleReorg(s.stored, fork, a.del);
  }

  method Reorg(s: R.State, depth: int, a: R.Answers) returns (s': R.State)
    ensures s' == R.Reorged(s, depth, a)
  {
    var fork := s.cursor + 1 - depth;
    var b, ok := HandleReorg(s, fork, a);
    s' := s.(stored := b);
    if !ok {
      return s'.(pending := true, failed := fork);
    }
    s' := s'.(pending := false, cursor := fork - 1);
  }

  method Index(s: R.State, safe: int, a: R.Answers, pipeline: int, r: ReceiptSkip) returns (s': R.State)
    requires r.Now() == s.receipts
    modifies r
    ensures s' == R.Indexed(s, safe, a) && r.Now() == s'.receipts
  {
    SL.DropRemembered(r, s.cursor);
    if s.cursor > 0 && !a.block {
      return s.(receipts := r.Now());
    }
    var (hash, remembered) := R.HashAt(s);
    var t := SL.IndexFrom(a.env, SM.Anchor(s.cursor, hash, remembered, true), safe, pipeline, r);
    s' := Land(s, a, t);
  }

  method Land(s: R.State, a: R.Answers, t: Tick) returns (s': R.State)
    ensures var b := SM.StoredAfter(a.env, s.stored, t.indexed);
            var b' := if t.stale.Some? then SM.Reverted(b, SM.HighestStored(b), t.stale.value, a.staleDel) else b;
            s' == s.(stored := b', cursor := t.cursor, receipts := t.receipts,
                     handed := (s.handed + Elements(t.skipped)) - Elements(t.indexed))
  {
    var b, ok := SM.StoredAfter(a.env, s.stored, t.indexed), true;
    if t.stale.Some? {
      b, ok := SM.HandleReorg(b, t.stale.value, a.staleDel);
    }
    s' := s.(stored := b, cursor := t.cursor, receipts := t.receipts,
             handed := (s.handed + Elements(t.skipped)) - Elements(t.indexed));
  }

  class RealtimeIndexer {
    var stored: R.Blocks
    var lastProcessedBlock: int
    var handed: set<int>
    var failedRevertFrom: int
    var revertPending: bool
    const maxBehind: int
    const receipts: ReceiptSkip

    function Now(): R.State
      reads this, receipts
    {
      R.State(stored, lastProcessedBlock, handed, failedRevertFrom, revertPending, receipts.Now(), maxBehind)
    }

    /** Over whatever is stored and handed to catch-up at the start. */
    constructor (stored: R.Blocks, handed: set<int>, start: int, maxBehind: int, receipts: ReceiptSkip)
      requires start >= 0 && maxBehind >= 0 && R.Sane(stored)
      ensures this.stored == stored && this.handed == handed
      ensures R.Inv(Now(), start) && lastProcessedBlock == start && this.receipts == receipts
      ensures this.maxBehind == maxBehind
    {
      this.maxBehind, this.receipts := maxBehind, receipts;
      this.stored, lastProcessedBlock, this.handed, failedRevertFrom, revertPending := stored, start, handed, 0, false;
    }

    /** ok is false when the store cannot be read. */
    method ResumeAfterFailedRevert(readable: bool) returns (ok: bool)
      modifies this
      ensures ok == (failedRevertFrom == 0) == (old(failedRevertFrom) == 0 || readable)
      ensures Now() == if ok then R.Resumed(old(Now())) else old(Now())
    {
      if failedRevertFrom == 0 {
        return true;
      }
      if !readable {
        return false;
      }
      var below := MaxOf(SM.AtOrBelow(stored, lastProcessedBlock));
      var resume := failedRevertFrom - 1;
      if below.Some? && below.value > resume {
        resume := below.value;
      }
      if resume < lastProcessedBlock {
        lastProcessedBlock := resume;
      }
      failedRevertFrom := 0;
      return true;
    }

    method JumpIfFarBehind(safe: int, a: R.Answers)
      modifies this
      ensures Now() == R.Jumped(old(Now()), safe, a)
    {
      if maxBehind == 0 || safe <= lastProcessedBlock + maxBehind || revertPending {
        return;
      }
      if lastProcessedBlock > 0 {
        var depth := SM.DetectReorg(stored, lastProcessedBlock, a.readable, a.chain);
        if depth != Some(0) {
          return;
        }
      }
      if !a.saved {
        return;
      }
      handed := handed + R.Between(lastProcessedBlock, safe);
      lastProcessedBlock := safe - 1;
    }

    method Set(s: R.State)
      requires receipts.Now() == s.receipts && s.maxBehind == maxBehind
      modifies this
      ensures Now() == s
    {
      stored, lastProcessedBlock, handed, failedRevertFrom, revertPending :=
          s.stored, s.cursor, s.handed, s.failed, s.pending;
    }

    method IndexUpTo(safe: int, a: R.Answers, pipeline: int)
      modifies this, receipts
      ensures Now() == R.UpTo(old(Now()), safe, a)
      ensures R.UpToDone(old(Now()), safe, a, Now())
    {
      R.TickHandles(Now(), safe, a);
      var ok := ResumeAfterFailedRevert(a.below);
      if !ok || safe <= lastProcessedBlock {
        return;
      }
      var s := Now();
      if lastProcessedBlock > 0 {
        var depth := SM.DetectReorg(stored, lastProcessedBlock, a.readable, a.chain);
        if depth.None? {
          return;
        }
        if depth.value > 0 {
          s := Reorg(s, depth.value, a);
          Set(s);
          return;
        }
        s := s.(pending := false);
      }
      s := Index(s, safe, a, pipeline, receipts);
      Set(s);
    }

    /** A tick never moves the cursor past a block that is neither stored nor handed to catch-up. */
    method RunTick(safe: int, jump: R.Answers, a: R.Answers, pipeline: int, ghost start: int)
      requires R.Inv(Now(), start)
      modifies this, receipts
      ensures Now() == R.Apply(old(Now()), R.TickTo(safe, jump, a)) && R.Inv(Now(), start)
    {
      R.InvStep(Now(), R.TickTo(safe, jump, a), start);
      JumpIfFarBehind(safe, jump);
      IndexUpTo(safe, a, pipeline);
    }
  }
}
