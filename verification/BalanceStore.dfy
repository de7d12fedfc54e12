/** The balance tables and the worker pool's epoch, as the flush, the claim and the revert change them in place. */
module BalanceStore {
  import opened Sums
  import opened BalanceEpochs

  /** The flush's pass over its reads: those it writes, the requests they answer, and the keys read too early. */
  method FilterReads(batch: seq<Read>, requests: Requests, latest: int)
    returns (kept: seq<Read>, answered: set<Key>, late: set<Key>)
    ensures kept == Kept(batch, requests, latest, |batch|)
    ensures answered == Answered(batch, requests, latest, |batch|)
    ensures late == Late(batch, latest, |batch|)
  {
    kept, answered, late := [], {}, {};
    for i := 0 to |batch|
      invariant kept == Kept(batch, requests, latest, i)
      invariant answered == Answered(batch, requests, latest, i)
      invariant late == Late(batch, latest, i)
    {
      var r := batch[i];
      if r.work.epoch < latest {
        late := late + {r.work.key};
      } else if r.work.key !in requests {
        kept := kept + [r];
      } else if r.work.epoch >= requests[r.work.key].epoch {
        kept := kept + [r];
        if requests[r.work.key].open {
          answered := answered + {r.work.key};
        }
      }
    }
  }

  method InsertHistory(history: History, kept: seq<Read>, from: int) returns (h: History)
    ensures h == Stored(history, kept, from, |kept|)
  {
    h := history;
    for i := 0 to |kept|
      invariant h == Stored(history, kept, from, i)
    {
      if kept[i].work.block >= from {
        h := h[(kept[i].work.key, kept[i].work.block) := kept[i]];
      }
    }
  }

  class Balances {
    var sequence: int
    var committed: int
    var pool: int
    var revert: Revert
    var issued: set<Work>
    var history: History
    var requests: Requests
    var from: int

    ghost function Now(): State reads this {
      State(sequence, committed, pool, revert, issued, history, requests, from)
    }

    constructor ()
      ensures Inv(Now()) && issued == {} && history == map[] && requests == map[]
    {
      sequence, committed, pool, revert, issued, history, requests, from := 0, 0, 0, Idle, {}, map[], map[], 0;
    }

    /** SetEpoch: the pool's epoch only moves forward. */
    method SetEpoch(e: int)
      modifies this
      ensures Now() == old(Now()).(pool := Later(old(pool), e))
    {
      if e > pool {
        pool := e;
      }
    }

    method StampWork(k: Key, block: int) returns (w: Work)
      requires Inv(Now()) && Enabled(Now(), Stamp(k, block))
      modifies this
      ensures Now() == Apply(old(Now()), Stamp(k, block)) && Inv(Now())
      ensures w == Work(k, block, pool, committed) && w in issued
    {
      InvStep(Now(), Stamp(k, block));
      w := Work(k, block, pool, committed);
      issued := issued + {w};
    }

    method FlushBatch(batch: seq<Read>)
      requires Inv(Now()) && Enabled(Now(), Flush(batch))
      modifies this
      ensures Now() == Apply(old(Now()), Flush(batch)) && Inv(Now())
    {
      InvStep(Now(), Flush(batch));
      var kept, answered, late := FilterReads(batch, requests, sequence);
      history := InsertHistory(history, kept, from);
      requests := Closed(requests, answered);
      requests := Reopened(requests, late, sequence);
    }

    /** The requests that ran out of attempts are closed, and the handed ones counted and stamped. */
    method ClaimRereads(handed: set<Key>, head: int) returns (dropped: set<Key>)
      requires Inv(Now()) && Enabled(Now(), Claim(handed, head))
      modifies this
      ensures Now() == Apply(old(Now()), Claim(handed, head)) && Inv(Now())
      ensures dropped == set k | k in old(requests) && old(requests)[k].open && !requests[k].open
    {
      InvStep(Now(), Claim(handed, head));
      dropped := set k | k in requests && requests[k].open && requests[k].attempts >= MAX_ATTEMPTS;
      issued := issued + set k | k in handed && k in requests ::
          Work(k, head, Later(requests[k].epoch, sequence), committed);
      requests := Expired(requests);
      requests := Handed(requests, handed);
    }

    /**
     A revert from the gate to its release: the epoch gate, the revert lock, the epoch, and the transaction's end; lost
     says that the transaction rolled back, and unread that its epoch could not be read before shutdown.
     */
    method RevertBlock(block: int, touched: set<Key>, lost: bool, unread: bool)
      requires Inv(Now()) && revert.Idle?
      modifies this
      ensures var end := if lost then Rollback else Commit(block, touched);
              Now() == Run(old(Now()), [Hold, Lock, Take, end, Release(!unread)])
      ensures Inv(Now()) && revert.Idle? && (!unread ==> pool == sequence)
      ensures forall kb :: Get(history, kb) == if !lost && kb.1 == block then None else Get(old(history), kb)
      ensures forall k :: Get(requests, k) ==
                if !lost && (k in touched || (k, block) in old(history)) then Some(Request(old(sequence) + 1, true, 0))
                else Get(old(requests), k)
    {
      ghost var s := Now();
      ghost var end := if lost then Rollback else Commit(block, touched);
      RevertRuns(s, end, Release(!unread));
      KeysAtBlock(history, block);
      sequence := sequence + 1;
      if !lost {
        requests := Recorded(requests, touched + KeysAt(history, block), sequence);
        history := WithoutBlock(history, block);
        committed := sequence;
      }
      if !unread {
        SetEpoch(sequence);
      }
    }
  }

  lemma {:induction false} RevertRuns(s: State, end: Step, release: Step)
    requires Inv(s) && s.revert.Idle? && (end.Commit? || end.Rollback?) && release.Release?
    ensures var s3 := s.(revert := Taken, sequence := s.sequence + 1);
            var s' := Run(s, [Hold, Lock, Take, end, release]);
            s' == Apply(Apply(s3, end), release)
  {
    var steps := [Hold, Lock, Take, end, release];
    var s1 := Apply(s, Hold);
    var s2 := Apply(s1, Lock);
    var s3 := Apply(s2, Take);
    var s4 := Apply(s3, end);
    assert steps[1..] == [Lock, Take, end, release] && steps[1..][1..] == [Take, end, release];
    assert [Take, end, release][1..] == [end, release] && [end, release][1..] == [release] && [release][1..] == [];
    assert Run(s, steps) == Run(s1, [Lock, Take, end, release]) == Run(s2, [Take, end, release]);
    assert Run(s2, [Take, end, release]) == Run(s3, [end, release]) == Run(s4, [release]);
    assert Run(Apply(s4, release), []) == Apply(s4, release);
  }

}
