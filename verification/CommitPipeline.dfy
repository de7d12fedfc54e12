/** The pipelined committer: up to depth block transactions open at once, committed in block order. */
module CommitPipeline {
  import opened Sums
  import opened CommitLoop

  datatype Event = Opened(n: int) | Committed(n: int) | RolledBack(n: int) | Inserted(n: int) | Skipped(n: int)
  {
    predicate Accounts() { Committed? || Inserted? || Skipped? }
  }

  /** The transactions open, what the tick has done so far, and everything that happened, in order. */
  datatype Pipe = Pipe(queue: seq<int>, t: Tick, log: seq<Event>)

  // ---------- the log ----------

  function Accounted(log: seq<Event>): seq<int> {
    if log == [] then [] else
      var rest, e := Accounted(log[..|log| - 1]), log[|log| - 1];
      if e.Accounts() then rest + [e.n] else rest
  }

  function SkippedIn(log: seq<Event>): seq<int> {
    if log == [] then [] else
      var rest, e := SkippedIn(log[..|log| - 1]), log[|log| - 1];
      if e.Skipped? then rest + [e.n] else rest
  }

  function Open(log: seq<Event>): int {
    if log == [] then 0 else
      var e := log[|log| - 1];
      Open(log[..|log| - 1]) + if e.Opened? then 1 else if e.Committed? || e.RolledBack? then -1 else 0
  }

  function Peak(log: seq<Event>): int {
    if log == [] then 0 else
      var before := Peak(log[..|log| - 1]);
      if Open(log) > before then Open(log) else before
  }

  function Range(from: int, count: int): seq<int>
    requires count >= 0
  {
    seq(count, i => from + 1 + i)
  }

  /**
   What a moment's log accounts for is a prefix of what the whole accounts for, and no moment has more open than
   the peak.
   */
  lemma {:induction false} AtEveryMoment(log: seq<Event>, i: int)
    requires 0 <= i <= |log|
    ensures Accounted(log[..i]) <= Accounted(log) && Open(log[..i]) <= Peak(log)
    decreases |log|
  {
    if i < |log| {
      var init := log[..|log| - 1];
      AtEveryMoment(init, i);
      assert init[..i] == log[..i] && log == init + [log[|log| - 1]];
    } else {
      assert log[..i] == log;
    }
  }

  /** So at every moment the accounted blocks are those from the start on, without a gap. */
  lemma {:induction false} AlwaysAPrefix(log: seq<Event>, from: int, count: int, i: int)
    requires 0 <= i <= |log| && count >= 0 && Accounted(log) == Range(from, count)
    ensures |Accounted(log[..i])| <= count && Accounted(log[..i]) == Range(from, |Accounted(log[..i])|)
  {
    AtEveryMoment(log, i);
    var some := Accounted(log[..i]);
    assert some == Accounted(log)[..|some|];
  }

  ghost predicate Valid(p: Pipe, from: int, cap: int) {
    && p.t.cursor >= from
    && Accounted(p.log) == Range(from, p.t.cursor - from) && SkippedIn(p.log) == p.t.skipped
    && p.queue == Range(p.t.cursor, |p.queue|) && Open(p.log) == |p.queue| && Peak(p.log) <= cap
  }

  // ---------- the queue ----------

  /** The tick once the open blocks are finished in order, up to the first that fails. */
  function Settled(env: Env, queue: seq<int>, t: Tick): Tick {
    if queue == [] then t else
      var o := Written(env, queue[0], false);
      if Good(o) then Settled(env, queue[1..], IndexedBlock(t, queue[0]))
      else t.(stale := if o.Differs? then Some(queue[0]) else t.stale)
  }

  predicate Settles(env: Env, queue: seq<int>) { forall i :: 0 <= i < |queue| ==> Good(Written(env, queue[i], false)) }

  lemma {:induction false} SettledSnoc(env: Env, queue: seq<int>, n: int, t: Tick)
    ensures Settles(env, queue) ==> Settled(env, queue + [n], t) == Settled(env, [n], Settled(env, queue, t))
    ensures !Settles(env, queue) ==> Settled(env, queue + [n], t) == Settled(env, queue, t)
    decreases |queue|
  {
    if queue == [] {
      assert queue + [n] == [n];
    } else {
      assert (queue + [n])[0] == queue[0] && (queue + [n])[1..] == queue[1..] + [n];
      if Good(Written(env, queue[0], false)) {
        SettledSnoc(env, queue[1..], n, IndexedBlock(t, queue[0]));
        assert Settles(env, queue) <==> Settles(env, queue[1..]) by {
          assert forall i :: 0 < i < |queue| ==> queue[i] == queue[1..][i - 1];
        }
      }
    }
  }

  /** A pipe that has failed: what it holds open is still to be rolled back. */
  ghost predicate Unwinding(p: Pipe, from: int, cap: int) {
    && p.t.cursor >= from && Accounted(p.log) == Range(from, p.t.cursor - from) && SkippedIn(p.log) == p.t.skipped
    && Open(p.log) == |p.queue| && Peak(p.log) <= cap
  }

  function Failed(p: Pipe, o: Outcome): Pipe
    requires p.queue != []
  {
    var f := p.queue[0];
    Pipe(p.queue[1..], p.t.(stale := if o.Differs? then Some(f) else p.t.stale), p.log + [RolledBack(f)])
  }

  function Finished(p: Pipe): Pipe
    requires p.queue != []
  {
    Pipe(p.queue[1..], IndexedBlock(p.t, p.queue[0]), p.log + [Committed(p.queue[0])])
  }

  method FinishOldest(env: Env, p: Pipe, ghost from: int, ghost cap: int) returns (p': Pipe, ok: bool)
    requires p.queue != [] && Valid(p, from, cap)
    ensures ok <==> Good(Written(env, p.queue[0], false))
    ensures ok ==> Valid(p', from, cap) && p'.t == IndexedBlock(p.t, p.queue[0]) && p'.t.cursor == p.t.cursor + 1
    ensures p'.queue == p.queue[1..] && p'.t.receipts == p.t.receipts
    ensures !ok ==> p'.t == Settled(env, p.queue, p.t) && Unwinding(p', from, cap)
  {
    var o := Written(env, p.queue[0], false);
    if !Good(o) {
      return Failed(p, o), false;
    }
    return Finished(p), true;
  }

  method Abort(p: Pipe, ghost from: int, ghost cap: int) returns (p': Pipe)
    requires Unwinding(p, from, cap) && cap >= 0
    ensures p'.t == p.t && p'.queue == [] && Unwinding(p', from, cap)
  {
    p' := p;
    while p'.queue != []
      invariant p'.t == p.t && Unwinding(p', from, cap)
      decreases |p'.queue|
    {
      p' := Pipe(p'.queue[1..], p'.t, p'.log + [RolledBack(p'.queue[0])]);
    }
  }

  method Drain(env: Env, p: Pipe, ghost from: int, ghost cap: int) returns (p': Pipe, ok: bool)
    requires Valid(p, from, cap) && cap >= 0
    ensures ok <==> Settles(env, p.queue)
    ensures p'.t == Settled(env, p.queue, p.t) && p'.queue == [] && p'.t.receipts == p.t.receipts
    ensures Unwinding(p', from, cap) && (ok ==> Valid(p', from, cap) && p'.t.cursor == p.t.cursor + |p.queue|)
  {
    p' := p;
    ghost var i := 0;
    while p'.queue != []
      invariant Valid(p', from, cap) && 0 <= i <= |p.queue| && p'.queue == p.queue[i..] && p'.t.cursor == p.t.cursor + i
      invariant forall j :: 0 <= j < i ==> Good(Written(env, p.queue[j], false))
      invariant Settled(env, p'.queue, p'.t) == Settled(env, p.queue, p.t) && p'.t.receipts == p.t.receipts
      decreases |p'.queue|
    {
      assert p'.queue[0] == p.queue[i];
      p', ok := FinishOldest(env, p', from, cap);
      if !ok {
        p' := Abort(p', from, cap);
        return;
      }
      i := i + 1;
    }
    ok := true;
  }

  // ---------- the loop ----------

  /** What the tick will do from here: finish what is open and, if that works, go on. */
  function Ahead(env: Env, p: Pipe, n: int, latest: int, prev: Hash, remembered: bool): Tick {
    var t := Settled(env, p.queue, p.t);
    if Settles(env, p.queue) then Loop(env, n, latest, prev, remembered, t) else t
  }

  /**
   Opening block n, which extends the one before it and has transactions, changes nothing of what the tick will do.
   */
  lemma {:induction false} OpeningIsAhead(env: Env, p: Pipe, n: int, latest: int, prev: Hash, remembered: bool)
    requires n <= latest && env.slot(n).Ready? && !env.slot(n).empty && Extends(prev, env.slot(n).header)
    ensures var p' := p.(queue := p.queue + [n], log := p.log + [Opened(n)]);
            Ahead(env, p', n + 1, latest, env.slot(n).header.hash, false) == Ahead(env, p, n, latest, prev, remembered)
  {
    SettledSnoc(env, p.queue, n, p.t);
    var queue' := p.queue + [n];
    assert Settles(env, queue') <==> Settles(env, p.queue) && Good(Written(env, n, false)) by {
      assert queue'[|p.queue|] == n;
      assert forall i :: 0 <= i < |p.queue| ==> queue'[i] == p.queue[i];
    }
    if Settles(env, p.queue) {
      assert Settled(env, [n][1..], IndexedBlock(Settled(env, p.queue, p.t), n)) ==
          IndexedBlock(Settled(env, p.queue, p.t), n);
    }
  }

  lemma {:induction false} AccountedValid(p: Pipe, n: int, hash: Hash, skip: bool, from: int, cap: int)
    requires Valid(p, from, cap) && p.queue == [] && n == p.t.cursor + 1
    ensures Valid(if skip then p.(t := SkippedBlock(p.t, n, hash), log := p.log + [Skipped(n)])
                  else p.(t := IndexedBlock(p.t, n), log := p.log + [Inserted(n)]), from, cap)
  {
    LogSnoc(p.log, if skip then Skipped(n) else Inserted(n));
    assert Range(from, p.t.cursor - from) + [n] == Range(from, n - from);
    assert Range(n, 0) == [];
  }

  lemma {:induction false} LogSnoc(log: seq<Event>, e: Event)
    requires e.Skipped? || e.Inserted?
    ensures var log' := log + [e];
            && Accounted(log') == Accounted(log) + [e.n] && Open(log') == Open(log)
            && SkippedIn(log') == SkippedIn(log) + (if e.Skipped? then [e.n] else [])
            && Peak(log') == if Open(log) > Peak(log) then Open(log) else Peak(log)
  {
    assert (log + [e])[..|log|] == log;
  }

  /**
   One empty block or one block to skip, once everything open is finished: what the sequential loop does with it. done
   says that the tick ends.
   */
  method Direct(env: Env, p: Pipe, n: int, latest: int, r: ReceiptSkip, ghost prev: Hash, ghost remembered: bool,
                ghost from: int, ghost cap: int)
    returns (p': Pipe, done: bool)
    requires Valid(p, from, cap) && p.queue == [] && n == p.t.cursor + 1 && n <= latest && r.Now() == p.t.receipts
    requires !env.slot(n).Failed? && Extends(prev, env.slot(n).header) && (env.slot(n).Ready? ==> env.slot(n).empty)
    modifies r
    ensures p'.queue == [] && Unwinding(p', from, cap) && r.Now() == p'.t.receipts
    ensures done ==> p'.t == Loop(env, n, latest, prev, remembered, p.t)
    ensures !done ==> Valid(p', from, cap) && p'.t.cursor == n
                      && Loop(env, n + 1, latest, env.slot(n).header.hash, false, p'.t) ==
                          Loop(env, n, latest, prev, remembered, p.t)
  {
    var b := env.slot(n);
    p' := p;
    if b.NoReceipts? {
      var ok := r.TrySkip(n, env.requeue(n));
      p' := p'.(t := p'.t.(receipts := r.Now()));
      if !ok {
        return p', true;
      }
      r.Remember(n, b.header.hash);
      AccountedValid(p', n, b.header.hash, true, from, cap);
      return p'.(t := SkippedBlock(p'.t, n, b.header.hash), log := p'.log + [Skipped(n)]), false;
    }
    var o := env.insert(n);
    if !Good(o) {
      return p'.(t := p'.t.(stale := if o.Differs? then Some(n) else p'.t.stale)), true;
    }
    AccountedValid(p', n, b.header.hash, false, from, cap);
    return p'.(t := IndexedBlock(p'.t, n), log := p'.log + [Inserted(n)]), false;
  }

  /** Opens block n, and once depth are open finishes the oldest. */
  method OpenNext(env: Env, p: Pipe, n: int, latest: int, depth: int, ghost prev: Hash, ghost remembered: bool,
                  ghost from: int, ghost cap: int)
    returns (p': Pipe, done: bool)
    requires Valid(p, from, cap) && n == p.t.cursor + |p.queue| + 1 && |p.queue| < cap
    requires cap == (if depth > 1 then depth else 1)
    requires n <= latest && env.slot(n).Ready? && !env.slot(n).empty && Extends(prev, env.slot(n).header)
    ensures p'.t.receipts == p.t.receipts
    ensures done ==> p'.t == Ahead(env, p, n, latest, prev, remembered) && p'.queue == [] && Unwinding(p', from, cap)
    ensures !done ==> Valid(p', from, cap) && n == p'.t.cursor + |p'.queue| && |p'.queue| < cap
                      && Ahead(env, p', n + 1, latest, env.slot(n).header.hash, false) ==
                          Ahead(env, p, n, latest, prev, remembered)
  {
    OpeningIsAhead(env, p, n, latest, prev, remembered);
    p' := p.(queue := p.queue + [n], log := p.log + [Opened(n)]);
    OpenedValid(p, n, from, cap);
    if |p'.queue| < depth {
      return p', false;
    }
    p', done := MakeRoom(env, p', n + 1, latest, env.slot(n).header.hash, from, cap);
  }

  lemma {:induction false} OpenedValid(p: Pipe, n: int, from: int, cap: int)
    requires Valid(p, from, cap) && n == p.t.cursor + |p.queue| + 1 && |p.queue| < cap
    ensures Valid(p.(queue := p.queue + [n], log := p.log + [Opened(n)]), from, cap)
  {
    assert (p.log + [Opened(n)])[..|p.log|] == p.log;
    assert p.queue + [n] == Range(p.t.cursor, |p.queue| + 1);
  }

  /** Finishes the oldest open block, or ends the tick with what is open rolled back. */
  method MakeRoom(env: Env, p: Pipe, n: int, latest: int, ghost prev: Hash, ghost from: int, ghost cap: int)
    returns (p': Pipe, done: bool)
    requires Valid(p, from, cap) && p.queue != [] && cap >= 0
    ensures p'.t.receipts == p.t.receipts
    ensures done ==> p'.t == Ahead(env, p, n, latest, prev, false) && p'.queue == [] && Unwinding(p', from, cap)
    ensures !done ==> Valid(p', from, cap) && p'.t.cursor == p.t.cursor + 1 && |p'.queue| == |p.queue| - 1
                      && Ahead(env, p', n, latest, prev, false) == Ahead(env, p, n, latest, prev, false)
  {
    var ok;
    p', ok := FinishOldest(env, p, from, cap);
    done := !ok;
    if done {
      assert !Settles(env, p.queue);
      p' := Abort(p', from, cap);
    } else {
      OldestIsAhead(env, p, p', n, latest, prev);
    }
  }

  lemma {:induction false} OldestIsAhead(env: Env, p: Pipe, p': Pipe, n: int, latest: int, prev: Hash)
    requires p.queue != [] && Good(Written(env, p.queue[0], false))
    requires p'.queue == p.queue[1..] && p'.t == IndexedBlock(p.t, p.queue[0])
    ensures Ahead(env, p', n, latest, prev, false) == Ahead(env, p, n, latest, prev, false)
  {
    assert Settles(env, p.queue) <==> Settles(env, p'.queue) by {
      assert forall i :: 0 < i < |p.queue| ==> p.queue[i] == p'.queue[i - 1];
    }
  }

  /** Finishes what is open and then deals with an empty block or one to skip. */
  method DrainAndDirect(env: Env, p: Pipe, n: int, latest: int, r: ReceiptSkip, ghost prev: Hash,
                        ghost remembered: bool, ghost from: int, ghost cap: int)
    returns (p': Pipe, done: bool)
    requires Valid(p, from, cap) && n == p.t.cursor + |p.queue| + 1 && cap >= 1 && r.Now() == p.t.receipts
    requires n <= latest && !env.slot(n).Failed? && Extends(prev, env.slot(n).header)
    requires (env.slot(n).Ready? ==> env.slot(n).empty)
    modifies r
    ensures r.Now() == p'.t.receipts && p'.queue == [] && Unwinding(p', from, cap)
    ensures done ==> p'.t == Ahead(env, p, n, latest, prev, remembered)
    ensures !done ==> Valid(p', from, cap) && p'.t.cursor == n
                      && Ahead(env, p', n + 1, latest, env.slot(n).header.hash, false) ==
                          Ahead(env, p, n, latest, prev, remembered)
  {
    var ok;
    p', ok := Drain(env, p, from, cap);
    if !ok {
      return p', true;
    }
    p', done := Direct(env, p', n, latest, r, prev, remembered, from, cap);
  }

  /**
   The pipelined loop does what the sequential one does, whatever the node and the database answer; at every moment the
   blocks it accounts for are consecutive from the start, and no more transactions are open than depth, or one.
   */
  method IndexPipelined(env: Env, from: int, latest: int, depth: int, hash: Hash, first: bool, r: ReceiptSkip)
    returns (t: Tick, log: seq<Event>)
    modifies r
    ensures t == Loop(env, from + 1, latest, hash, first, Tick(from, old(r.Now()), [], [], None))
    ensures r.Now() == t.receipts
    ensures t.cursor >= from && Accounted(log) == Range(from, t.cursor - from) && SkippedIn(log) == t.skipped
    ensures Open(log) == 0 && Peak(log) <= if depth > 1 then depth else 1
  {
    ghost var cap := if depth > 1 then depth else 1;
    var prev, remembered := hash, first;
    var p := Pipe([], Tick(from, r.Now(), [], [], None), []);
    ghost var want := Loop(env, from + 1, latest, hash, first, p.t);
    var n := from + 1;
    while n <= latest
      invariant Valid(p, from, cap) && n == p.t.cursor + |p.queue| + 1 && |p.queue| < cap
      invariant (remembered ==> p.queue == [])
      invariant r.Now() == p.t.receipts && Ahead(env, p, n, latest, prev, remembered) == want
      decreases latest - n + 1
    {
      var b := env.slot(n);
      if b.Failed? {
        break;
      }
      if prev != 0 && b.header.parent != prev {
        if remembered {
          r.Recheck(env);
          return p.t.(receipts := r.Now()), p.log;
        }
        break;
      }
      var done;
      if b.NoReceipts? || b.empty {
        p, done := DrainAndDirect(env, p, n, latest, r, prev, remembered, from, cap);
      } else {
        p, done := OpenNext(env, p, n, latest, depth, prev, remembered, from, cap);
      }
      if done {
        return p.t, p.log;
      }
      prev, remembered, n := b.header.hash, false, n + 1;
    }
    var settled;
    p, settled := Drain(env, p, from, cap);
    return p.t, p.log;
  }
}
