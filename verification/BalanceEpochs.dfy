/**
 Reorg epochs: asynchronous balance reads are stamped with the epoch of the latest revert, and a flush writes none that
 was decided before a revert that has committed since.
 */
module BalanceEpochs {
  import opened Sums

  const MAX_ATTEMPTS := 20

  datatype Key = Key(token: int, holder: int)

  /**
   A queued read; decided is the latest committed revert's epoch when the read was decided, which no code looks at.
   */
  datatype Work = Work(key: Key, block: int, epoch: int, decided: int)

  datatype Read = Read(work: Work, balance: int)

  /** A row of balance_rereads. */
  datatype Request = Request(epoch: int, open: bool, attempts: int)

  /**
   The revert under way, one at a time: holding the pool's epoch gate; holding the balance revert lock too; having taken
   its epoch; and, its transaction over, still holding the gate.
   */
  datatype Revert = Idle | Gated | Locked | Taken | Settled

  type History = map<(Key, int), Read>
  type Requests = map<Key, Request>

  /**
   sequence is balance_reorg_epoch's last value, committed the epoch of the last revert that committed, pool the epoch
   the worker pool stamps, issued every read decided so far, and from the lowest block whose history is kept.
   */
  datatype State = State(sequence: int, committed: int, pool: int, revert: Revert, issued: set<Work>,
                         history: History, requests: Requests, from: int)

  datatype Step =
    | Stamp(key: Key, block: int)
    | Fold(a: Work, b: Work)
    | Claim(handed: set<Key>, head: int)
    | Flush(batch: seq<Read>)
    | Hold
    | Lock
    | Take
    | Commit(block: int, touched: set<Key>)
    | Rollback
    | Release(read: bool)
    | Restart
    | Prune(upTo: int)

  // ---------- the worker pool ----------

  /** One key's two work items as one read. */
  function Folded(a: Work, b: Work): Work {
    if b.epoch > a.epoch then b
    else if b.epoch < a.epoch then a
    else a.(block := if b.block > a.block then b.block else a.block)
  }

  predicate Below(a: Work, b: Work) { a.epoch < b.epoch || (a.epoch == b.epoch && a.block <= b.block) }

  /** Folding keeps the greater by epoch and then block, so the order and grouping of a key's repeats do not matter. */
  lemma {:induction false} FoldedIsGreatest(a: Work, b: Work, c: Work)
    ensures var r := Folded(a, b);
            && Below(a, r) && Below(b, r) && (Below(c, r) <==> Below(c, a) || Below(c, b))
            && (r.epoch, r.block) in {(a.epoch, a.block), (b.epoch, b.block)}
    ensures var l, r := Folded(Folded(a, b), c), Folded(a, Folded(b, c)); l.epoch == r.epoch && l.block == r.block
    ensures var l, r := Folded(a, b), Folded(b, a); l.epoch == r.epoch && l.block == r.block
  {
  }

  // ---------- the flush ----------

  /** The reads among the first n that a flush writes. */
  function Kept(batch: seq<Read>, requests: Requests, latest: int, n: int): seq<Read>
    requires 0 <= n <= |batch|
    decreases n
  {
    if n == 0 then [] else
      var kept := Kept(batch, requests, latest, n - 1);
      if Keeps(batch[n - 1], requests, latest) then kept + [batch[n - 1]] else kept
  }

  predicate Keeps(r: Read, requests: Requests, latest: int) {
    && r.work.epoch >= latest
    && (r.work.key in requests ==> r.work.epoch >= requests[r.work.key].epoch)
  }

  /** The keys whose open request a kept read answers. */
  function Answered(batch: seq<Read>, requests: Requests, latest: int, n: int): set<Key>
    requires 0 <= n <= |batch|
    decreases n
  {
    if n == 0 then {} else
      var r := batch[n - 1];
      Answered(batch, requests, latest, n - 1) +
      if Keeps(r, requests, latest) && r.work.key in requests && requests[r.work.key].open then {r.work.key} else {}
  }

  function Late(batch: seq<Read>, latest: int, n: int): set<Key>
    requires 0 <= n <= |batch|
    decreases n
  {
    if n == 0 then {} else
      Late(batch, latest, n - 1) + if batch[n - 1].work.epoch < latest then {batch[n - 1].work.key} else {}
  }

  /** The history insert, which skips blocks below from; within a batch the later read of a key and block wins. */
  function Stored(history: History, kept: seq<Read>, from: int, n: int): History
    requires 0 <= n <= |kept|
    decreases n
  {
    if n == 0 then history else
      var before := Stored(history, kept, from, n - 1);
      var r := kept[n - 1];
      if r.work.block >= from then before[(r.work.key, r.work.block) := r] else before
  }

  function Closed(requests: Requests, keys: set<Key>): Requests {
    map k | k in requests :: if k in keys then requests[k].(open := false) else requests[k]
  }

  function Reopened(requests: Requests, keys: set<Key>, epoch: int): Requests {
    map k | k in requests.Keys + keys ::
      if k !in keys then requests[k]
      else if k in requests && requests[k].epoch > epoch then Request(requests[k].epoch, true, 0)
      else Request(epoch, true, 0)
  }

  function Flushed(s: State, batch: seq<Read>): State {
    var latest := s.sequence;
    var kept := Kept(batch, s.requests, latest, |batch|);
    s.(history := Stored(s.history, kept, s.from, |kept|),
       requests := Reopened(Closed(s.requests, Answered(batch, s.requests, latest, |batch|)),
                            Late(batch, latest, |batch|), latest))
  }

  // ---------- the revert and the claim ----------

  function Recorded(requests: Requests, keys: set<Key>, epoch: int): Requests {
    map k | k in requests.Keys + keys :: if k in keys then Request(epoch, true, 0) else requests[k]
  }

  function KeysAt(history: History, block: int): set<Key> { set kb | kb in history && kb.1 == block :: kb.0 }

  function WithoutBlock(history: History, block: int): History {
    map kb | kb in history && kb.1 != block :: history[kb]
  }

  function Expired(requests: Requests): Requests {
    map k | k in requests :: if requests[k].attempts >= MAX_ATTEMPTS then requests[k].(open := false) else requests[k]
  }

  function Handed(requests: Requests, keys: set<Key>): Requests {
    map k | k in requests :: if k in keys then requests[k].(attempts := requests[k].attempts + 1) else requests[k]
  }

  function Later(a: int, b: int): int { if a < b then b else a }

  // ---------- the protocol ----------

  predicate RevertLockHeld(s: State) { s.revert.Locked? || s.revert.Taken? }

  ghost predicate Enabled(s: State, step: Step) {
    match step
    case Stamp(_, _) => s.revert.Idle?
    case Fold(a, b) => a in s.issued && b in s.issued && a.key == b.key
    case Claim(handed, _) =>
      && !RevertLockHeld(s)
      && forall k :: k in handed ==> k in s.requests && Expired(s.requests)[k].open
    case Flush(batch) => !RevertLockHeld(s) && forall i :: 0 <= i < |batch| ==> batch[i].work in s.issued
    case Hold => s.revert.Idle?
    case Lock => s.revert.Gated?
    case Take => s.revert.Locked?
    case Commit(_, _) => s.revert.Taken?
    case Rollback => !s.revert.Idle? && !s.revert.Settled?
    case Release(_) => s.revert.Settled?
    case Restart => !s.revert.Taken?
    case Prune(upTo) => upTo >= s.from
  }

  function Apply(s: State, step: Step): State {
    match step
    case Stamp(k, block) => s.(issued := s.issued + {Work(k, block, s.pool, s.committed)})
    case Fold(a, b) => s.(issued := s.issued + {Folded(a, b)})
    case Claim(handed, head) =>
      s.(requests := Handed(Expired(s.requests), handed),
         issued := s.issued + set k | k in handed && k in s.requests ::
                                Work(k, head, Later(s.requests[k].epoch, s.sequence), s.committed))
    case Flush(batch) => Flushed(s, batch)
    case Hold => s.(revert := Gated)
    case Lock => s.(revert := Locked)
    case Take => s.(revert := Taken, sequence := s.sequence + 1)
    case Commit(block, touched) =>
      s.(revert := Settled, committed := s.sequence, history := WithoutBlock(s.history, block),
         requests := Recorded(s.requests, touched + KeysAt(s.history, block), s.sequence))
    case Rollback => s.(revert := Settled)
    case Release(read) => s.(revert := Idle, pool := if read then Later(s.pool, s.sequence) else s.pool)
    case Restart => s.(revert := Idle, pool := s.sequence)
    case Prune(upTo) => s.(from := upTo, history := map kb | kb in s.history && kb.1 >= upTo :: s.history[kb])
  }

  ghost predicate Feasible(s: State, steps: seq<Step>) decreases |steps| {
    steps == [] || (Enabled(s, steps[0]) && Feasible(Apply(s, steps[0]), steps[1..]))
  }

  function Run(s: State, steps: seq<Step>): State decreases |steps| {
    if steps == [] then s else Run(Apply(s, steps[0]), steps[1..])
  }

  // ---------- the invariant ----------

  /**
   A read decided before the last committed revert carries a lower epoch; every epoch is below one being committed.
   */
  predicate Fenced(s: State, w: Work) {
    && 0 <= w.epoch && w.epoch + (if s.revert.Taken? then 1 else 0) <= s.sequence
    && w.decided <= s.committed && (w.decided < s.committed ==> w.epoch < s.committed)
  }

  ghost predicate Inv(s: State) {
    && 0 <= s.committed && 0 <= s.pool && s.committed + (if s.revert.Taken? then 1 else 0) <= s.sequence
    && s.pool + (if s.revert.Taken? then 1 else 0) <= s.sequence
    && (forall w :: w in s.issued ==> Fenced(s, w))
    && (forall k :: k in s.requests ==> s.requests[k].epoch + (if s.revert.Taken? then 1 else 0) <= s.sequence)
  }

  lemma {:induction false} InvStep(s: State, step: Step)
    requires Inv(s) && Enabled(s, step)
    ensures Inv(Apply(s, step))
  {
    var s' := Apply(s, step);
    forall w | w in s'.issued ensures Fenced(s', w) {
      if w in s.issued {
        assert Fenced(s, w);
      }
    }
  }

  lemma {:induction false} InvRun(s: State, steps: seq<Step>)
    requires Inv(s) && Feasible(s, steps)
    ensures Inv(Run(s, steps))
    decreases |steps|
  {
    if steps != [] {
      InvStep(s, steps[0]);
      InvRun(Apply(s, steps[0]), steps[1..]);
    }
  }

  // ---------- what each step changes ----------

  lemma {:induction false} KeysAtBlock(history: History, block: int)
    ensures forall k :: k in KeysAt(history, block) <==> (k, block) in history
  {
    forall k | (k, block) in history ensures k in KeysAt(history, block) {
      assert (k, block).0 in KeysAt(history, block);
    }
    forall k | k in KeysAt(history, block) ensures (k, block) in history {
      var kb :| kb in history && kb.1 == block && kb.0 == k;
      assert kb == (k, block);
    }
  }

  /** Outside flushes, a history row goes exactly when its block is reverted or pruned, and none comes or changes. */
  lemma {:induction false} HistoryAfter(s: State, step: Step, kb: (Key, int))
    requires !step.Flush?
    ensures var gone := (step.Commit? && kb.1 == step.block) || (step.Prune? && kb.1 < step.upTo);
            Get(Apply(s, step).history, kb) == if gone then None else Get(s.history, kb)
  {
  }

  /** A request is made by a committed revert of a block that touched its key, and counted and closed by claims. */
  lemma {:induction false} RequestAfter(s: State, step: Step, k: Key)
    requires !step.Flush?
    ensures var r, r' := Get(s.requests, k), Get(Apply(s, step).requests, k);
            if step.Commit? && (k in step.touched || (k, step.block) in s.history) then
              r' == Some(Request(s.sequence, true, 0))
            else if step.Claim? && r.Some? then
              r' == Some(Request(r.value.epoch, r.value.open && r.value.attempts < MAX_ATTEMPTS,
                                 r.value.attempts + if k in step.handed then 1 else 0))
            else r' == r
  {
    if step.Commit? {
      KeysAtBlock(s.history, step.block);
    }
  }

  /** A flush asks again for the keys it read too early, at its epoch, and closes the open requests it answers. */
  lemma {:induction false} RequestAfterFlush(s: State, batch: seq<Read>, k: Key)
    ensures var r, r' := Get(s.requests, k), Get(Flushed(s, batch).requests, k);
            if exists i :: 0 <= i < |batch| && batch[i].work.key == k && batch[i].work.epoch < s.sequence then
              r' == Some(Request(if r.Some? then Later(r.value.epoch, s.sequence) else s.sequence, true, 0))
            else if exists i ::
                0 <= i < |batch| && batch[i].work.key == k && Keeps(batch[i], s.requests, s.sequence) then
              r' == if r.None? then None else Some(r.value.(open := false))
            else r' == r
  {
    LateIs(batch, s.sequence, |batch|, k);
    AnsweredIs(batch, s.requests, s.sequence, |batch|, k);
  }

  // ---------- what a flush does with each read ----------

  lemma {:induction false} KeptIs(batch: seq<Read>, requests: Requests, latest: int, n: int, r: Read)
    requires 0 <= n <= |batch|
    ensures r in Kept(batch, requests, latest, n) <==> r in batch[..n] && Keeps(r, requests, latest)
    decreases n
  {
    if n > 0 {
      KeptIs(batch, requests, latest, n - 1, r);
      assert batch[..n] == batch[..n - 1] + [batch[n - 1]];
    }
  }

  lemma {:induction false} LateIs(batch: seq<Read>, latest: int, n: int, k: Key)
    requires 0 <= n <= |batch|
    ensures k in Late(batch, latest, n) <==>
              exists i :: 0 <= i < n && batch[i].work.key == k && batch[i].work.epoch < latest
    decreases n
  {
    if n > 0 {
      LateIs(batch, latest, n - 1, k);
    }
  }

  ghost predicate KeepsKey(batch: seq<Read>, requests: Requests, latest: int, n: int, k: Key)
    requires 0 <= n <= |batch|
  {
    exists i :: 0 <= i < n && batch[i].work.key == k && Keeps(batch[i], requests, latest)
  }

  lemma {:induction false} AnsweredIs(batch: seq<Read>, requests: Requests, latest: int, n: int, k: Key)
    requires 0 <= n <= |batch|
    ensures k in Answered(batch, requests, latest, n) <==>
            k in requests && requests[k].open && KeepsKey(batch, requests, latest, n, k)
    decreases n
  {
    if n > 0 {
      AnsweredIs(batch, requests, latest, n - 1, k);
    }
  }

  /** A stored row is an old one or a kept read at a block whose history is kept. */
  lemma {:induction false} StoredIs(history: History, kept: seq<Read>, from: int, n: int, kb: (Key, int))
    requires 0 <= n <= |kept|
    ensures var h := Stored(history, kept, from, n);
            || (kb in h && h[kb] in kept && h[kb].work.key == kb.0 && h[kb].work.block == kb.1 && kb.1 >= from)
            || (Get(h, kb) == Get(history, kb) &&
                forall i :: 0 <= i < n ==> kept[i].work.block < from || (kept[i].work.key, kept[i].work.block) != kb)
    decreases n
  {
    if n > 0 {
      StoredIs(history, kept, from, n - 1, kb);
    }
  }

  /** Whatever a flush stores was decided after every revert that has committed. */
  lemma {:induction false} FlushIsFresh(s: State, batch: seq<Read>, kb: (Key, int))
    requires Inv(s) && Enabled(s, Flush(batch)) && kb in Flushed(s, batch).history
    ensures var row := Flushed(s, batch).history[kb];
            Get(s.history, kb) == Some(row) || (row in batch && row.work.decided == s.committed)
  {
    var kept := Kept(batch, s.requests, s.sequence, |batch|);
    StoredIs(s.history, kept, s.from, |kept|, kb);
    var row := Flushed(s, batch).history[kb];
    KeptIs(batch, s.requests, s.sequence, |batch|, row);
    assert batch[..|batch|] == batch;
    if row in batch {
      assert Fenced(s, row.work);
    }
  }

  /**
   No read of a flush is lost: it is in the history, or its key's request is open at the latest epoch, or it is
   pruned.
   */
  lemma {:induction false} FlushLosesNothing(s: State, batch: seq<Read>, i: int)
    requires Inv(s) && Enabled(s, Flush(batch)) && 0 <= i < |batch|
    ensures var s', w := Flushed(s, batch), batch[i].work;
            if w.epoch < s.sequence then w.key in s'.requests && s'.requests[w.key] == Request(s.sequence, true, 0)
            else
              || w.block < s.from
              || ((w.key, w.block) in s'.history && s'.history[(w.key, w.block)].work.epoch == s.sequence)
  {
    var s', w := Flushed(s, batch), batch[i].work;
    assert w in s.issued && Fenced(s, w);
    if w.epoch < s.sequence {
      LateIs(batch, s.sequence, |batch|, w.key);
    } else if w.block >= s.from {
      var kept := Kept(batch, s.requests, s.sequence, |batch|);
      assert batch[..|batch|] == batch;
      KeptIs(batch, s.requests, s.sequence, |batch|, batch[i]);
      StoredIs(s.history, kept, s.from, |kept|, (w.key, w.block));
      KeptIs(batch, s.requests, s.sequence, |batch|, s'.history[(w.key, w.block)]);
      assert Fenced(s, s'.history[(w.key, w.block)].work);
    }
  }

  /** In every run, at every flush. */
  lemma {:induction false} EveryFlushIsFresh(s: State, before: seq<Step>, batch: seq<Read>, kb: (Key, int))
    requires Inv(s) && Feasible(s, before) && Enabled(Run(s, before), Flush(batch))
    requires kb in Flushed(Run(s, before), batch).history
    ensures var s1 := Run(s, before); var row := Flushed(s1, batch).history[kb];
            Get(s1.history, kb) == Some(row) || (row in batch && row.work.decided == s1.committed)
  {
    InvRun(s, before);
    FlushIsFresh(Run(s, before), batch, kb);
  }

  // ---------- a request is not forgotten ----------

  /** The step is a flush that writes a read of k decided at its request's epoch or later. */
  ghost predicate Answers(s: State, step: Step, k: Key) {
    step.Flush? && KeepsKey(step.batch, s.requests, s.sequence, |step.batch|, k)
  }

  ghost predicate AnsweredIn(s: State, steps: seq<Step>, k: Key) decreases |steps| {
    steps != [] && (Answers(s, steps[0], k) || AnsweredIn(Apply(s, steps[0]), steps[1..], k))
  }

  /** How many of the steps hand k's request out. */
  ghost function HandOuts(steps: seq<Step>, k: Key): (n: int)
    ensures n >= 0
    decreases |steps|
  {
    if steps == [] then 0
    else (if steps[0].Claim? && k in steps[0].handed then 1 else 0) + HandOuts(steps[1..], k)
  }

  lemma {:induction false} RequestStep(s: State, step: Step, k: Key)
    requires Inv(s) && Enabled(s, step) && k in s.requests
    ensures var r' := Apply(s, step).requests;
            && k in r' && r'[k].epoch >= s.requests[k].epoch
            && (s.requests[k].open && s.requests[k].attempts < MAX_ATTEMPTS && !Answers(s, step, k) ==> r'[k].open)
            && (r'[k].attempts <= s.requests[k].attempts + HandOuts([step], k) || r'[k].attempts == 0)
  {
    assert [step][1..] == [];
    if step.Flush? {
      AnsweredIs(step.batch, s.requests, s.sequence, |step.batch|, k);
    }
  }

  lemma {:induction false} EpochNeverDecreases(s: State, steps: seq<Step>, k: Key)
    requires Inv(s) && Feasible(s, steps) && k in s.requests
    ensures k in Run(s, steps).requests && Run(s, steps).requests[k].epoch >= s.requests[k].epoch
    decreases |steps|
  {
    if steps != [] {
      RequestStep(s, steps[0], k);
      InvStep(s, steps[0]);
      EpochNeverDecreases(Apply(s, steps[0]), steps[1..], k);
    }
  }

  /** A request is open until a flush answers it or it has been handed out MAX_ATTEMPTS times. */
  lemma {:induction false} NeverForgotten(s: State, steps: seq<Step>, k: Key)
    requires Inv(s) && Feasible(s, steps) && k in s.requests && s.requests[k].open && s.requests[k].attempts >= 0
    ensures || AnsweredIn(s, steps, k)
            || s.requests[k].attempts + HandOuts(steps, k) >= MAX_ATTEMPTS
            || (k in Run(s, steps).requests && Run(s, steps).requests[k].open)
    decreases |steps|
  {
    if steps != [] && !AnsweredIn(s, steps, k) && s.requests[k].attempts + HandOuts(steps, k) < MAX_ATTEMPTS {
      RequestStep(s, steps[0], k);
      InvStep(s, steps[0]);
      assert [steps[0]][1..] == [];
      NeverForgotten(Apply(s, steps[0]), steps[1..], k);
    }
  }

  /** The step asks for k again: a revert of a block that touched it, or a flush of a read of it that came too late. */
  ghost predicate AsksAgain(s: State, step: Step, k: Key) {
    || (step.Commit? && (k in step.touched || (k, step.block) in s.history))
    || (step.Flush? && exists i ::
          0 <= i < |step.batch| && step.batch[i].work.key == k && step.batch[i].work.epoch < s.sequence)
  }

  ghost predicate LeftOpen(s: State, steps: seq<Step>, k: Key) decreases |steps| {
    steps == []
    || (!Answers(s, steps[0], k) && !AsksAgain(s, steps[0], k) && LeftOpen(Apply(s, steps[0]), steps[1..], k))
  }

  lemma {:induction false} LeftStep(s: State, step: Step, k: Key)
    requires k in s.requests && !Answers(s, step, k) && !AsksAgain(s, step, k)
    ensures var r, r' := s.requests[k], Apply(s, step).requests;
            && k in r' && r'[k].attempts == r.attempts + HandOuts([step], k)
            && r'[k].open == (r.open && !(step.Claim? && r.attempts >= MAX_ATTEMPTS))
  {
    assert [step][1..] == [];
    if step.Flush? {
      RequestAfterFlush(s, step.batch, k);
    } else {
      RequestAfter(s, step, k);
    }
  }

  lemma {:induction false} LeftRun(s: State, steps: seq<Step>, k: Key)
    requires Feasible(s, steps) && k in s.requests && s.requests[k].open && LeftOpen(s, steps, k)
    ensures var n, r' := s.requests[k].attempts + HandOuts(steps, k), Run(s, steps).requests;
            k in r' && r'[k].attempts == n && (n < MAX_ATTEMPTS ==> r'[k].open)
    decreases |steps|
  {
    if steps != [] {
      LeftStep(s, steps[0], k);
      assert [steps[0]][1..] == [];
      var s1 := Apply(s, steps[0]);
      if s1.requests[k].open {
        LeftRun(s1, steps[1..], k);
      } else {
        ClosedRun(s1, steps[1..], k);
      }
    }
  }

  /** Once closed it is handed out no more. */
  lemma {:induction false} ClosedRun(s: State, steps: seq<Step>, k: Key)
    requires Feasible(s, steps) && k in s.requests && !s.requests[k].open && LeftOpen(s, steps, k)
    ensures HandOuts(steps, k) == 0 && k in Run(s, steps).requests
    ensures Run(s, steps).requests[k].attempts == s.requests[k].attempts
    decreases |steps|
  {
    if steps != [] {
      LeftStep(s, steps[0], k);
      assert [steps[0]][1..] == [];
      ClosedRun(Apply(s, steps[0]), steps[1..], k);
    }
  }

  /**
   A request that no flush answers and nothing asks for again is open after the next claim exactly when it had been
   handed out fewer than MAX_ATTEMPTS times before it.
   */
  lemma {:induction false} GivenUpExactly(s: State, steps: seq<Step>, k: Key, handed: set<Key>, head: int)
    requires Feasible(s, steps) && k in s.requests && s.requests[k].open && LeftOpen(s, steps, k)
    ensures var s' := Apply(Run(s, steps), Claim(handed, head));
            k in s'.requests && (s'.requests[k].open <==> s.requests[k].attempts + HandOuts(steps, k) < MAX_ATTEMPTS)
  {
    LeftRun(s, steps, k);
    RequestAfter(Run(s, steps), Claim(handed, head), k);
  }

  /** Every key of a committed revert has an open request at the revert's epoch. */
  lemma {:induction false} RevertAsksForItsKeys(s: State, block: int, touched: set<Key>, k: Key)
    requires Inv(s) && Enabled(s, Commit(block, touched)) && (k in touched || (k, block) in s.history)
    ensures var s' := Apply(s, Commit(block, touched));
            && k in s'.requests && s'.requests[k] == Request(s'.committed, true, 0) && (k, block) !in s'.history
            && forall w :: w in s'.issued ==> w.epoch < s'.committed
  {
    var s' := Apply(s, Commit(block, touched));
    assert k in touched + KeysAt(s.history, block) by {
      if (k, block) in s.history {
        assert (k, block).0 in KeysAt(s.history, block);
      }
    }
    forall w | w in s'.issued ensures w.epoch < s'.committed {
      assert Fenced(s, w);
    }
  }

  // ---------- when a request is answered ----------

  ghost predicate NoneTaken(steps: seq<Step>) { forall i :: 0 <= i < |steps| ==> !steps[i].Take? }

  lemma {:induction false} Undisturbed(s: State, steps: seq<Step>)
    requires Feasible(s, steps) && NoneTaken(steps)
    ensures Run(s, steps).sequence == s.sequence && s.issued <= Run(s, steps).issued
    decreases |steps|
  {
    if steps != [] {
      Undisturbed(Apply(s, steps[0]), steps[1..]);
    }
  }

  /** A read handed out is written and answers its request, however the run goes on, unless a revert takes an epoch. */
  lemma {:induction false} ClaimedReadAnswers(s: State, handed: set<Key>, head: int, steps: seq<Step>, k: Key,
                                              balance: int)
    requires Inv(s) && Enabled(s, Claim(handed, head)) && k in handed
    requires var s1 := Apply(s, Claim(handed, head));
             Feasible(s1, steps) && NoneTaken(steps) && !RevertLockHeld(Run(s1, steps))
    ensures var s2 := Run(Apply(s, Claim(handed, head)), steps);
            var r := Read(Work(k, head, s.sequence, s.committed), balance);
            var s3 := Flushed(s2, [r]);
            && Enabled(s2, Flush([r])) && k in s3.requests && !s3.requests[k].open
            && (head >= s2.from ==> (k, head) in s3.history && s3.history[(k, head)] == r)
  {
    var s1 := Apply(s, Claim(handed, head));
    InvStep(s, Claim(handed, head));
    InvRun(s1, steps);
    Undisturbed(s1, steps);
    EpochNeverDecreases(s1, steps, k);
    var s2 := Run(s1, steps);
    var r := Read(Work(k, head, s.sequence, s.committed), balance);
    assert r.work in s1.issued;
    KeepsOne(s2, r);
  }

  /** Once the pool has the revert epoch, it has it until a revert takes the next one. */
  lemma {:induction false} PoolStays(s: State, steps: seq<Step>)
    requires s.pool == s.sequence && Feasible(s, steps) && NoneTaken(steps)
    ensures Run(s, steps).pool == Run(s, steps).sequence == s.sequence
    decreases |steps|
  {
    if steps != [] {
      PoolStays(Apply(s, steps[0]), steps[1..]);
    }
  }

  /**
   Whatever the pool stamps after a restart, or a revert whose epoch it read, is written by its flush, however the run
   goes on, unless another revert takes an epoch.
   */
  lemma {:induction false} StampedReadLands(s: State, step: Step, before: seq<Step>, after: seq<Step>, k: Key,
                                            block: int, balance: int)
    requires Inv(s) && Enabled(s, step) && (step == Restart || step == Release(true))
    requires Feasible(Apply(s, step), before) && NoneTaken(before)
    requires var s1 := Run(Apply(s, step), before);
             && Enabled(s1, Stamp(k, block)) && Feasible(Apply(s1, Stamp(k, block)), after) && NoneTaken(after)
             && !RevertLockHeld(Run(Apply(s1, Stamp(k, block)), after))
    ensures var s1 := Run(Apply(s, step), before);
            var s2 := Run(Apply(s1, Stamp(k, block)), after);
            var r := Read(Work(k, block, s.sequence, s1.committed), balance);
            && Enabled(s2, Flush([r]))
            && (block >= s2.from ==> Get(Flushed(s2, [r]).history, (k, block)) == Some(r))
            && (k in s2.requests ==> !Flushed(s2, [r]).requests[k].open)
  {
    InvStep(s, step);
    InvRun(Apply(s, step), before);
    PoolStays(Apply(s, step), before);
    var s1 := Run(Apply(s, step), before);
    InvStep(s1, Stamp(k, block));
    InvRun(Apply(s1, Stamp(k, block)), after);
    Undisturbed(Apply(s1, Stamp(k, block)), after);
    var s2 := Run(Apply(s1, Stamp(k, block)), after);
    var r := Read(Work(k, block, s.sequence, s1.committed), balance);
    assert r.work in Apply(s1, Stamp(k, block)).issued;
    StoresOne(s2, r);
    if k in s2.requests {
      KeepsOne(s2, r);
    }
  }

  lemma {:induction false} StoresOne(s: State, r: Read)
    requires Inv(s) && r.work.epoch == s.sequence
    ensures r.work.block >= s.from ==> Get(Flushed(s, [r]).history, (r.work.key, r.work.block)) == Some(r)
  {
    assert Keeps(r, s.requests, s.sequence);
    assert Kept([r], s.requests, s.sequence, 0) == [];
    assert Kept([r], s.requests, s.sequence, 1) == [r];
    assert Stored(s.history, [r], s.from, 0) == s.history;
  }

  lemma {:induction false} KeepsOne(s: State, r: Read)
    requires Inv(s) && r.work.epoch == s.sequence && r.work.key in s.requests
    ensures var s' := Flushed(s, [r]);
            && !s'.requests[r.work.key].open
            && (r.work.block >= s.from ==> Get(s'.history, (r.work.key, r.work.block)) == Some(r))
  {
    var k := r.work.key;
    assert Keeps(r, s.requests, s.sequence);
    assert Kept([r], s.requests, s.sequence, 0) == [];
    assert Kept([r], s.requests, s.sequence, 1) == [r];
    assert Stored(s.history, [r], s.from, 0) == s.history;
    assert Late([r], s.sequence, 0) == {};
    AnsweredIs([r], s.requests, s.sequence, 1, k);
    if s.requests[k].open {
      assert [r][0].work.key == k;
    }
  }

  /** The history row of a read of k that the flush kept, at or past the epoch k's request asks for. */
  predicate StoresAnswer(s: State, kept: seq<Read>, r: Read, kb: (Key, int), k: Key)
    requires k in s.requests
  {
    && kb.0 == k && r in kept && r.work.key == k && r.work.block == kb.1 >= s.from
    && r.work.epoch >= s.requests[k].epoch
  }

  /** A read of k that the flush keeps, at a retained block. */
  predicate AnswersRetained(s: State, r: Read, k: Key) {
    r.work.key == k && Keeps(r, s.requests, s.sequence) && r.work.block >= s.from
  }

  /**
   A flush that answers a request stores a history row for it exactly when it keeps a read of the key at an
   unpruned block.
   */
  lemma {:induction false} AnswerIsStored(s: State, batch: seq<Read>, k: Key)
    requires Inv(s) && Enabled(s, Flush(batch)) && Answers(s, Flush(batch), k) && k in s.requests
    ensures var kept, s' := Kept(batch, s.requests, s.sequence, |batch|), Flushed(s, batch);
            (exists kb :: kb in s'.history && StoresAnswer(s, kept, s'.history[kb], kb, k)) <==>
            (exists i :: 0 <= i < |batch| && AnswersRetained(s, batch[i], k))
  {
    var kept, s' := Kept(batch, s.requests, s.sequence, |batch|), Flushed(s, batch);
    assert batch[..|batch|] == batch;
    if i :| 0 <= i < |batch| && AnswersRetained(s, batch[i], k) {
      var kb := (k, batch[i].work.block);
      KeptIs(batch, s.requests, s.sequence, |batch|, batch[i]);
      StoredIs(s.history, kept, s.from, |kept|, kb);
      KeptIs(batch, s.requests, s.sequence, |batch|, s'.history[kb]);
      assert kb in s'.history && s'.history[kb] in kept;
    }
    if kb :| kb in s'.history && StoresAnswer(s, kept, s'.history[kb], kb, k) {
      StoredIs(s.history, kept, s.from, |kept|, kb);
      KeptIs(batch, s.requests, s.sequence, |batch|, s'.history[kb]);
    }
  }

  /** An answer at a pruned block closes the request and stores nothing. */
  lemma {:induction false} PrunedAnswerStoresNothing()
    ensures var k := Key(1, 1);
            var w := Work(k, 50, 1, 1);
            var s := State(1, 1, 1, Idle, {w}, map[], map[k := Request(1, true, 0)], 100);
            var s' := Flushed(s, [Read(w, 7)]);
            Inv(s) && Enabled(s, Flush([Read(w, 7)])) && k in s'.requests && !s'.requests[k].open && s'.history == map[]
  {
    var k := Key(1, 1);
    var w := Work(k, 50, 1, 1);
    var r := Read(w, 7);
    var s := State(1, 1, 1, Idle, {w}, map[], map[k := Request(1, true, 0)], 100);
    KeepsOne(s, r);
    assert Kept([r], s.requests, 1, 0) == [];
    assert Kept([r], s.requests, 1, 1) == [r];
    assert Stored(s.history, [r], 100, 0) == map[];
  }
}
