/** The standard loop's committer: the sequential form, and the pipelined form that must do the same. */
module CommitLoop {
  import opened Sums

  const MAX_RECEIPT_ATTEMPTS := 10

  /** Hash 0 is the zero hash, which stands for none. */
  type Hash = int

  datatype Header = Header(hash: Hash, parent: Hash)

  /** A prefetched block: not read, read without its receipts, or read whole. */
  datatype Slot = Failed | NoReceipts(header: Header) | Ready(header: Header, empty: bool)

  /** A write: done, stored already with the same hash, failed, or found stored with another hash. */
  datatype Outcome = Done | AlreadyStored | Broken | Differs

  /** What the node and the database answer during a tick, by block number. */
  datatype Env = Env(slot: int -> Slot, begin: int -> Outcome, finish: int -> bool, insert: int -> Outcome,
                     requeue: int -> bool, chainHash: int -> Option<Hash>)

  datatype Receipts = Receipts(block: int, attempts: int, skipped: int, skippedHash: Hash, recorded: bool)

  /**
   What a tick did: its cursor, the blocks written and skipped in order, and the block another fork was found
   stored at.
   */
  datatype Tick = Tick(cursor: int, receipts: Receipts, indexed: seq<int>, skipped: seq<int>, stale: Option<int>)

  // ---------- receipt skips ----------

  function Skip(r: Receipts, n: int, requeued: bool): Receipts {
    var attempts := (if r.block != n then 0 else r.attempts) + 1;
    if attempts < MAX_RECEIPT_ATTEMPTS || !requeued then r.(block := n, attempts := attempts)
    else r.(block := n, attempts := 0, recorded := true)
  }

  predicate Skips(r: Receipts, n: int, requeued: bool) {
    (if r.block != n then 0 else r.attempts) + 1 >= MAX_RECEIPT_ATTEMPTS && requeued
  }

  function Rechecked(env: Env, r: Receipts): Receipts {
    if env.chainHash(r.skipped) == Some(r.skippedHash) then r else r.(skipped := 0, skippedHash := 0)
  }

  class ReceiptSkip {
    var block: int
    var attempts: int
    var skipped: int
    var skippedHash: Hash
    var recorded: bool

    function Now(): Receipts reads this { Receipts(block, attempts, skipped, skippedHash, recorded) }

    constructor ()
      ensures Now() == Receipts(0, 0, 0, 0, true)
    {
      block, attempts, skipped, skippedHash, recorded := 0, 0, 0, 0, true;
    }

    method TrySkip(n: int, requeued: bool) returns (ok: bool)
      modifies this
      ensures Now() == Skip(old(Now()), n, requeued) && ok == Skips(old(Now()), n, requeued)
    {
      if block != n {
        block, attempts := n, 0;
      }
      attempts := attempts + 1;
      if attempts < MAX_RECEIPT_ATTEMPTS || !requeued {
        return false;
      }
      attempts, recorded := 0, true;
      return true;
    }

    method Remember(n: int, hash: Hash)
      modifies this
      ensures Now() == old(Now()).(skipped := n, skippedHash := hash)
    {
      skipped, skippedHash := n, hash;
    }

    /** recheckSkipped: the remembered hash is dropped unless the node still has the block. */
    method Recheck(env: Env)
      modifies this
      ensures Now() == Rechecked(env, old(Now()))
    {
      if env.chainHash(skipped) != Some(skippedHash) {
        skipped, skippedHash := 0, 0;
      }
    }
  }

  /** A block is skipped only by the tenth attempt in a row on it, each of which failed for its receipts. */
  lemma {:induction false} SkippedAfterTen(r: Receipts, n: int, answers: seq<bool>)
    requires r.block != n && |answers| == MAX_RECEIPT_ATTEMPTS
    ensures var r' := Attempts(r, n, answers, MAX_RECEIPT_ATTEMPTS - 1);
            && (forall i :: 0 <= i < MAX_RECEIPT_ATTEMPTS - 1 ==> !Skips(Attempts(r, n, answers, i), n, answers[i]))
            && (Skips(r', n, answers[MAX_RECEIPT_ATTEMPTS - 1]) <==> answers[MAX_RECEIPT_ATTEMPTS - 1])
  {
    forall i | 0 <= i < MAX_RECEIPT_ATTEMPTS ensures
      (i > 0 ==> Attempts(r, n, answers, i).block == n && Attempts(r, n, answers, i).attempts == i)
    {
      AttemptsCount(r, n, answers, i);
    }
  }

  function Attempts(r: Receipts, n: int, answers: seq<bool>, i: int): Receipts
    requires 0 <= i <= |answers|
  {
    if i == 0 then r else Skip(Attempts(r, n, answers, i - 1), n, answers[i - 1])
  }

  lemma {:induction false} AttemptsCount(r: Receipts, n: int, answers: seq<bool>, i: int)
    requires r.block != n && 0 <= i <= |answers| && i < MAX_RECEIPT_ATTEMPTS
    ensures i > 0 ==> Attempts(r, n, answers, i).block == n && Attempts(r, n, answers, i).attempts == i
    decreases i
  {
    if i > 0 {
      AttemptsCount(r, n, answers, i - 1);
    }
  }

  // ---------- what a tick does, block by block ----------

  function Written(env: Env, n: int, empty: bool): Outcome {
    if empty then env.insert(n)
    else if env.begin(n).Done? then (if env.finish(n) then Done else Broken)
    else env.begin(n)
  }

  predicate Good(o: Outcome) { o.Done? || o.AlreadyStored? }

  predicate Extends(prev: Hash, h: Header) { prev == 0 || h.parent == prev }

  function Loop(env: Env, n: int, latest: int, prev: Hash, remembered: bool, t: Tick): Tick
    decreases latest - n + 1
  {
    if n > latest || env.slot(n).Failed? then t else
      var h := env.slot(n).header;
      if !Extends(prev, h) then (if remembered then t.(receipts := Rechecked(env, t.receipts)) else t)
      else if env.slot(n).NoReceipts? then
        var r := Skip(t.receipts, n, env.requeue(n));
        if !Skips(t.receipts, n, env.requeue(n)) then t.(receipts := r)
        else Loop(env, n + 1, latest, h.hash, false, SkippedBlock(t.(receipts := r), n, h.hash))
      else
        var o := Written(env, n, env.slot(n).empty);
        if Good(o) then Loop(env, n + 1, latest, h.hash, false, IndexedBlock(t, n))
        else t.(stale := if o.Differs? then Some(n) else t.stale)
  }

  function SkippedBlock(t: Tick, n: int, hash: Hash): Tick {
    t.(cursor := n, receipts := t.receipts.(skipped := n, skippedHash := hash), skipped := t.skipped + [n])
  }

  function IndexedBlock(t: Tick, n: int): Tick { t.(cursor := n, indexed := t.indexed + [n]) }

  // ---------- which blocks a tick takes ----------

  function HashOf(env: Env, n: int): Hash { if env.slot(n).Failed? then 0 else env.slot(n).header.hash }

  /** The hash block n must extend, in a tick that starts after from. */
  function Before(env: Env, from: int, hash: Hash, n: int): Hash {
    if n == from + 1 then hash else HashOf(env, n - 1)
  }

  predicate Joins(env: Env, from: int, hash: Hash, n: int) {
    !env.slot(n).Failed? && Extends(Before(env, from, hash, n), env.slot(n).header)
  }

  /** The block is stored: an empty one by its insert, any other by a begun write that finishes, or before. */
  predicate Commits(env: Env, n: int, empty: bool) {
    if empty then env.insert(n).Done? || env.insert(n).AlreadyStored?
    else env.begin(n).AlreadyStored? || (env.begin(n).Done? && env.finish(n))
  }

  /** The write finds another block stored at n. */
  predicate FindsFork(env: Env, n: int, empty: bool) {
    if empty then env.insert(n).Differs? else env.begin(n).Differs?
  }

  /** Block n is written or skipped, by the receipts r of the tick's start. */
  predicate Takes(env: Env, from: int, hash: Hash, r: Receipts, n: int) {
    && Joins(env, from, hash, n)
    && if env.slot(n).Ready? then Commits(env, n, env.slot(n).empty) else Skips(r, n, env.requeue(n))
  }

  ghost predicate Ascending(s: seq<int>) { forall i, j :: 0 <= i < j < |s| ==> s[i] < s[j] }

  /** The tick passed the blocks after from up to its cursor, in order, and each was written or skipped. */
  ghost predicate Passed(env: Env, from: int, hash: Hash, r: Receipts, t: Tick) {
    && from <= t.cursor && Ascending(t.indexed) && Ascending(t.skipped)
    && (forall n :: from < n <= t.cursor ==> Takes(env, from, hash, r, n))
    && (forall n :: n in t.indexed <==> from < n <= t.cursor && env.slot(n).Ready?)
    && (forall n :: n in t.skipped <==> from < n <= t.cursor && env.slot(n).NoReceipts?)
  }

  function AfterSkips(env: Env, r: Receipts, skipped: seq<int>): Receipts {
    if skipped == [] then r else
      var n := skipped[|skipped| - 1];
      r.(block := n, attempts := 0, recorded := true, skipped := n, skippedHash := HashOf(env, n))
  }

  /** The receipts once the tick has stopped before block n. */
  function AfterStop(env: Env, from: int, hash: Hash, first: bool, r: Receipts, n: int): Receipts {
    if env.slot(n).Failed? then r
    else if !Joins(env, from, hash, n) then (if first && n == from + 1 then Rechecked(env, r) else r)
    else if env.slot(n).NoReceipts? then Skip(r, n, env.requeue(n))
    else r
  }

  /** It stopped at the last block, or before the first one that is not taken, which another fork is found at. */
  ghost predicate Halted(env: Env, from: int, latest: int, hash: Hash, first: bool, r: Receipts, t: Tick) {
    var n, skips := t.cursor + 1, AfterSkips(env, r, t.skipped);
    if t.cursor >= latest then (t.cursor == from || t.cursor == latest) && t.stale.None? && t.receipts == skips else
      && !Takes(env, from, hash, r, n)
      && t.receipts == AfterStop(env, from, hash, first, skips, n)
      && (t.stale == Some(n) <==> Joins(env, from, hash, n) && env.slot(n).Ready?
                                  && FindsFork(env, n, env.slot(n).empty))
      && (t.stale.None? || t.stale == Some(n))
  }

  ghost predicate Walked(env: Env, from: int, latest: int, hash: Hash, first: bool, r: Receipts, t: Tick) {
    Passed(env, from, hash, r, t) && Halted(env, from, latest, hash, first, r, t) && |t.skipped| <= 1
  }

  /** The loop is before block n. */
  ghost predicate Walking(env: Env, from: int, latest: int, hash: Hash, first: bool, r: Receipts, t: Tick, n: int,
                          prev: Hash, remembered: bool) {
    && Passed(env, from, hash, r, t) && n == t.cursor + 1 && prev == Before(env, from, hash, n)
    && remembered == (first && n == from + 1) && t.stale.None? && t.receipts == AfterSkips(env, r, t.skipped)
    && (t.cursor == from || t.cursor <= latest)
  }

  lemma {:induction false} OneSkip(env: Env, from: int, hash: Hash, r: Receipts, t: Tick)
    requires Passed(env, from, hash, r, t)
    ensures |t.skipped| <= 1 && forall n :: n in t.skipped ==> n == r.block
  {
    assert |t.skipped| > 1 ==> t.skipped[0] < t.skipped[1];
    forall n | n in t.skipped ensures n == r.block {
      assert Takes(env, from, hash, r, n);
    }
    forall i | 0 <= i < |t.skipped| ensures t.skipped[i] == r.block {
      assert t.skipped[i] in t.skipped;
    }
  }

  /** The receipts the loop carries skip block n exactly when those it started with do. */
  lemma {:induction false} SkipsFromStart(env: Env, from: int, hash: Hash, r: Receipts, t: Tick, n: int, requeued: bool)
    requires Passed(env, from, hash, r, t) && t.receipts == AfterSkips(env, r, t.skipped) && n > t.cursor
    ensures Skips(t.receipts, n, requeued) <==> Skips(r, n, requeued)
    ensures Skips(r, n, requeued) ==> t.skipped == []
  {
    OneSkip(env, from, hash, r, t);
    if t.skipped != [] {
      assert t.skipped[|t.skipped| - 1] in t.skipped;
    }
  }

  /** The tick once block n is taken. */
  function Taken(env: Env, t: Tick, n: int): Tick {
    if env.slot(n).Ready? then IndexedBlock(t, n)
    else SkippedBlock(t.(receipts := Skip(t.receipts, n, env.requeue(n))), n, HashOf(env, n))
  }

  lemma {:induction false} TakenPasses(env: Env, from: int, hash: Hash, r: Receipts, t: Tick, n: int)
    requires Passed(env, from, hash, r, t) && n == t.cursor + 1 && Takes(env, from, hash, r, n)
    requires env.slot(n).NoReceipts? ==> t.skipped == []
    ensures Passed(env, from, hash, r, Taken(env, t, n))
  {
    assert forall i :: 0 <= i < |t.indexed| ==> t.indexed[i] in t.indexed;
  }

  lemma {:induction false} WalksPast(env: Env, from: int, latest: int, hash: Hash, first: bool, r: Receipts, t: Tick,
                                     n: int, prev: Hash, remembered: bool)
    requires Walking(env, from, latest, hash, first, r, t, n, prev, remembered)
    requires n <= latest && Takes(env, from, hash, r, n)
    ensures Walking(env, from, latest, hash, first, r, Taken(env, t, n), n + 1, HashOf(env, n), false)
    ensures Loop(env, n, latest, prev, remembered, t) ==
            Loop(env, n + 1, latest, HashOf(env, n), false, Taken(env, t, n))
  {
    SkipsFromStart(env, from, hash, r, t, n, env.requeue(n));
    TakenPasses(env, from, hash, r, t, n);
  }

  lemma {:induction false} WalkEnds(env: Env, from: int, latest: int, hash: Hash, first: bool, r: Receipts, t: Tick,
                                    n: int, prev: Hash, remembered: bool)
    requires Walking(env, from, latest, hash, first, r, t, n, prev, remembered)
    requires n > latest || !Takes(env, from, hash, r, n)
    ensures Walked(env, from, latest, hash, first, r, Loop(env, n, latest, prev, remembered, t))
  {
    SkipsFromStart(env, from, hash, r, t, n, env.requeue(n));
    OneSkip(env, from, hash, r, t);
  }

  lemma {:induction false} WalksOn(env: Env, from: int, latest: int, hash: Hash, first: bool, r: Receipts, t: Tick,
                                   n: int, prev: Hash, remembered: bool)
    requires Walking(env, from, latest, hash, first, r, t, n, prev, remembered)
    ensures Walked(env, from, latest, hash, first, r, Loop(env, n, latest, prev, remembered, t))
    decreases latest - n + 1
  {
    if n > latest || !Takes(env, from, hash, r, n) {
      WalkEnds(env, from, latest, hash, first, r, t, n, prev, remembered);
    } else {
      WalksPast(env, from, latest, hash, first, r, t, n, prev, remembered);
      WalksOn(env, from, latest, hash, first, r, Taken(env, t, n), n + 1, HashOf(env, n), false);
    }
  }

  /**
   A tick takes the blocks after its start one by one up to the first it cannot: each extends the one before, and was
   written, or skipped, which at most one is. It records another fork exactly where a write found it.
   */
  lemma {:induction false} LoopWalks(env: Env, from: int, latest: int, hash: Hash, first: bool, r: Receipts)
    ensures Walked(env, from, latest, hash, first, r,
                   Loop(env, from + 1, latest, hash, first, Tick(from, r, [], [], None)))
  {
    WalksOn(env, from, latest, hash, first, r, Tick(from, r, [], [], None), from + 1, hash, first);
  }

  /** The loop over the prefetched blocks, one commit after another. */
  method IndexPrefetched(env: Env, from: int, latest: int, hash: Hash, first: bool, r: ReceiptSkip) returns (t: Tick)
    modifies r
    ensures t == Loop(env, from + 1, latest, hash, first, Tick(from, old(r.Now()), [], [], None))
    ensures r.Now() == t.receipts && Walked(env, from, latest, hash, first, old(r.Now()), t)
  {
    LoopWalks(env, from, latest, hash, first, r.Now());
    ghost var want := Loop(env, from + 1, latest, hash, first, Tick(from, r.Now(), [], [], None));
    var prev, remembered := hash, first;
    t := Tick(from, r.Now(), [], [], None);
    var n := from + 1;
    while n <= latest
      invariant r.Now() == t.receipts && Loop(env, n, latest, prev, remembered, t) == want
      decreases latest - n + 1
    {
      var b := env.slot(n);
      if !b.Failed? && prev != 0 && b.header.parent != prev {
        if remembered {
          r.Recheck(env);
        }
        return t.(receipts := r.Now());
      }
      remembered := false;
      if b.Failed? {
        return;
      }
      if b.NoReceipts? {
        var ok := r.TrySkip(n, env.requeue(n));
        t := t.(receipts := r.Now());
        if !ok {
          return;
        }
        r.Remember(n, b.header.hash);
        t := SkippedBlock(t, n, b.header.hash);
      } else {
        var o := Written(env, n, b.empty);
        if !Good(o) {
          return t.(stale := if o.Differs? then Some(n) else t.stale);
        }
        t := IndexedBlock(t, n);
      }
      prev := b.header.hash;
      n := n + 1;
    }
  }
}
