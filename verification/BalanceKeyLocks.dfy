/** How a flush and a revert choose the balance-key locks they wait for and those they only try. */
module BalanceKeyLocks {
  import opened Sums
  import opened BalanceLocks

  predicate Ascending(s: seq<int>) { forall i, j :: 0 <= i < j < |s| ==> s[i] < s[j] }

  method SortKeys(s: seq<int>) returns (r: seq<int>)
    requires Distinct(s)
    ensures Ascending(r) && Elements(r) == Elements(s)
  {
    r := [];
    for i := 0 to |s|
      invariant Ascending(r) && Elements(r) == Elements(s[..i])
    {
      ElementsSnoc(s, i);
      var x, p := s[i], |r|;
      while p > 0 && x < r[p - 1]
        invariant 0 <= p <= |r| && forall j :: p <= j < |r| ==> x < r[j]
      {
        p := p - 1;
      }
      assert p > 0 ==> r[p - 1] in Elements(r);
      r := Inserted(r, x, p);
    }
    assert s[..|s|] == s;
  }

  function Inserted(s: seq<int>, x: int, p: int): seq<int>
    requires 0 <= p <= |s|
  {
    s[..p] + [x] + s[p..]
  }

  function HashesOf(hash: Key -> int, keys: seq<Key>): set<int> { set i | 0 <= i < |keys| :: hash(keys[i]) }

  /** The advisory keys of a set of pairs, sorted and without repeats: the order in which they are waited for. */
  method SortedLockKeys(hash: Key -> int, keys: seq<Key>) returns (r: seq<int>)
    ensures Ascending(r) && Elements(r) == HashesOf(hash, keys)
  {
    var seen, found := {}, [];
    for i := 0 to |keys|
      invariant seen == Elements(found) == HashesOf(hash, keys[..i]) && Distinct(found)
    {
      var h := hash(keys[i]);
      if h in seen {
        continue;
      }
      seen, found := seen + {h}, found + [h];
    }
    assert keys[..|keys|] == keys;
    r := SortKeys(found);
  }

  // ---------- the revert's locks ----------

  datatype Event = Waited(h: int) | Tried(h: int, ok: bool)

  function Acquired(log: seq<Event>): set<int> { set e | e in log && (e.Waited? || e.ok) :: e.h }

  /** Every lock waited for is above all those held by then. */
  predicate Disciplined(log: seq<Event>) {
    forall i :: 0 <= i < |log| && log[i].Waited? ==> forall h :: h in Acquired(log[..i]) ==> h < log[i].h
  }

  lemma {:induction false} AcquiredSnoc(log: seq<Event>, e: Event)
    ensures Acquired(log + [e]) == Acquired(log) + if e.Waited? || e.ok then {e.h} else {}
    ensures Disciplined(log) && (e.Waited? ==> forall h :: h in Acquired(log) ==> h < e.h) ==> Disciplined(log + [e])
  {
    var more := log + [e];
    assert e in more && forall x :: x in more <==> x in log || x == e;
    forall i | 0 <= i < |more| ensures more[..i] == if i <= |log| then log[..i] else more {
    }
    assert log[..|log|] == log;
  }

  function WaitedAll(waits: seq<int>): seq<Event> { seq(|waits|, i requires 0 <= i < |waits| => Waited(waits[i])) }

  function TriedAll(lower: seq<int>, free: set<int>): seq<Event> {
    seq(|lower|, i requires 0 <= i < |lower| => Tried(lower[i], lower[i] in free))
  }

  method WaitForAll(log: seq<Event>, waits: seq<int>) returns (log': seq<Event>)
    requires Disciplined(log) && Ascending(waits)
    requires forall w, h :: w in waits && h in Acquired(log) ==> h < w
    ensures Disciplined(log') && Acquired(log') == Acquired(log) + Elements(waits) && log' == log + WaitedAll(waits)
  {
    log' := log;
    for i := 0 to |waits|
      invariant Disciplined(log') && Acquired(log') == Acquired(log) + Elements(waits[..i])
      invariant log' == log + WaitedAll(waits[..i])
    {
      ElementsSnoc(waits, i);
      forall h | h in Acquired(log') ensures h < waits[i] {
        assert waits[i] in waits;
        if h !in Acquired(log) {
          var j :| 0 <= j < i && waits[j] == h;
        }
      }
      AcquiredSnoc(log', Waited(waits[i]));
      log' := log' + [Waited(waits[i])];
      assert WaitedAll(waits[..i + 1]) == WaitedAll(waits[..i]) + [Waited(waits[i])];
    }
    assert waits[..|waits|] == waits;
  }

  method TryAll(log: seq<Event>, lower: seq<int>, free: set<int>) returns (log': seq<Event>)
    requires Disciplined(log)
    ensures Disciplined(log') && Acquired(log') == Acquired(log) + (Elements(lower) * free)
    ensures log' == log + TriedAll(lower, free)
  {
    log' := log;
    for i := 0 to |lower|
      invariant Disciplined(log') && Acquired(log') == Acquired(log) + (Elements(lower[..i]) * free)
      invariant log' == log + TriedAll(lower[..i], free)
    {
      ElementsSnoc(lower, i);
      AcquiredSnoc(log', Tried(lower[i], lower[i] in free));
      log' := log' + [Tried(lower[i], lower[i] in free)];
      assert TriedAll(lower[..i + 1], free) == TriedAll(lower[..i], free) + [Tried(lower[i], lower[i] in free)];
    }
    assert lower[..|lower|] == lower;
  }

  predicate Waits(held: set<int>, h: int) { held == {} || forall x :: x in held ==> x < h }

  /** How keys are locked by a revert that holds some locks: waits in order above all of them, tries below. */
  ghost predicate RoundLocks(hash: Key -> int, keys: set<Key>, held: set<int>, waits: seq<int>, lower: seq<int>) {
    && Ascending(waits)
    && Elements(waits) == (set k | k in keys && hash(k) !in held && Waits(held, hash(k)) :: hash(k))
    && Elements(lower) == (set k | k in keys && hash(k) !in held && !Waits(held, hash(k)) :: hash(k))
  }

  /** What one round of locking keys adds to what a revert has done. */
  ghost predicate RoundLog(hash: Key -> int, keys: set<Key>, log: seq<Event>, free: set<int>, log': seq<Event>) {
    exists waits, lower :: RoundLocks(hash, keys, Acquired(log), waits, lower) && Follows(log, waits, lower, free, log')
  }

  ghost predicate Follows(log: seq<Event>, waits: seq<int>, lower: seq<int>, free: set<int>, log': seq<Event>) {
    log' == log + WaitedAll(waits) + TriedAll(lower, free)
  }

  /** Those keys whose lock is held already, those to wait for and those to try. */
  method SortOut(hash: Key -> int, keys: seq<Key>, held: seq<int>) returns (wait: seq<Key>, lower: seq<int>)
    ensures forall k :: k in wait <==> k in keys && hash(k) !in held && Waits(Elements(held), hash(k))
    ensures forall h :: h in lower ==> h !in held && !Waits(Elements(held), h)
    ensures forall k :: k in keys ==> hash(k) in held || k in wait || hash(k) in lower
    ensures forall h :: h in lower ==> h in HashesOf(hash, keys)
  {
    var top := -0x8000_0000;
    if held != [] {
      top := held[0];
      for i := 1 to |held|
        invariant top in held && forall j :: 0 <= j < i ==> held[j] <= top
      {
        top := if held[i] > top then held[i] else top;
      }
    }
    wait, lower := [], [];
    for i := 0 to |keys|
      invariant forall k :: k in wait <==> k in keys[..i] && hash(k) !in held && Waits(Elements(held), hash(k))
      invariant forall h :: h in lower ==> h !in held && !Waits(Elements(held), h)
      invariant forall k :: k in keys[..i] ==> hash(k) in held || k in wait || hash(k) in lower
      invariant forall h :: h in lower ==> h in HashesOf(hash, keys)
    {
      var h := hash(keys[i]);
      TopDecides(held, top, h);
      if h in held {
      } else if held == [] || h > top {
        wait := wait + [keys[i]];
      } else if h !in lower {
        lower := lower + [h];
      }
    }
  }

  lemma {:induction false} TopDecides(held: seq<int>, top: int, h: int)
    requires held != [] ==> top in held && forall j :: 0 <= j < |held| ==> held[j] <= top
    ensures Waits(Elements(held), h) <==> held == [] || h > top
  {
    if held != [] {
      assert top in Elements(held);
    }
  }

  /**
   The locks of keys, given those held: waited for, in order, when they come after every held one, and otherwise only
   tried; free is what the try finds free. A key is held afterwards exactly when its lock is.
   */
  method LockBalanceKeys(hash: Key -> int, keys: seq<Key>, log: seq<Event>, held: seq<int>, free: set<int>)
    returns (got: set<Key>, log': seq<Event>)
    requires Disciplined(log) && Acquired(log) == Elements(held)
    ensures Disciplined(log') && Acquired(log) <= Acquired(log') <= Acquired(log) + HashesOf(hash, keys)
    ensures forall k :: k in got <==> k in keys && hash(k) in Acquired(log')
    ensures forall k :: k in keys && Waits(Acquired(log), hash(k)) ==> k in got
    ensures forall k :: k in keys && hash(k) in free ==> k in got
    ensures RoundLog(hash, Elements(keys), log, free, log')
  {
    var wait, lower := SortOut(hash, keys, held);
    var waits := SortedLockKeys(hash, wait);
    forall w, h | w in waits && h in Acquired(log) ensures h < w {
      assert w in Elements(waits);
      var i :| 0 <= i < |wait| && hash(wait[i]) == w;
      assert wait[i] in wait;
    }
    log' := WaitForAll(log, waits);
    log' := TryAll(log', lower, free);
    SortedIsRound(hash, keys, held, wait, waits, lower);
    assert Follows(log, waits, lower, free, log') && Elements(held) == Acquired(log);
    got := set k | k in keys && hash(k) in Acquired(log');
    forall k | k in wait ensures hash(k) in Elements(waits) {
      var i :| 0 <= i < |wait| && wait[i] == k;
    }
    forall w | w in Elements(waits) ensures w in HashesOf(hash, keys) {
      var i :| 0 <= i < |wait| && hash(wait[i]) == w;
      assert wait[i] in keys;
      var j :| 0 <= j < |keys| && keys[j] == wait[i];
    }
    assert forall h :: h in held <==> h in Elements(held);
  }

  lemma {:induction false} SortedIsRound(hash: Key -> int, keys: seq<Key>, held: seq<int>, wait: seq<Key>,
                                         waits: seq<int>, lower: seq<int>)
    requires forall k :: k in wait <==> k in keys && hash(k) !in held && Waits(Elements(held), hash(k))
    requires forall h :: h in lower ==> h !in held && !Waits(Elements(held), h) && h in HashesOf(hash, keys)
    requires forall k :: k in keys ==> hash(k) in held || k in wait || hash(k) in lower
    requires Ascending(waits) && Elements(waits) == HashesOf(hash, wait)
    ensures RoundLocks(hash, Elements(keys), Elements(held), waits, lower)
  {
    var up := set k | k in Elements(keys) && hash(k) !in Elements(held) && Waits(Elements(held), hash(k)) :: hash(k);
    var down := set k | k in Elements(keys) && hash(k) !in Elements(held) && !Waits(Elements(held), hash(k)) :: hash(k);
    forall h ensures h in up <==> h in HashesOf(hash, wait) {
      if h in HashesOf(hash, wait) {
        var i :| 0 <= i < |wait| && hash(wait[i]) == h;
        assert wait[i] in wait;
      }
    }
    forall h | h in lower ensures h in down {
      var i :| 0 <= i < |keys| && hash(keys[i]) == h;
      assert keys[i] in keys;
    }
  }

  /** One read of a reverted block's keys, each with whether it has a history row at the block. */
  type KeyRows = seq<(Key, bool)>

  function KeysOf(rows: KeyRows): set<Key> { set i | 0 <= i < |rows| :: rows[i].0 }

  function Seen(rounds: seq<KeyRows>, n: int): set<Key>
    requires 0 <= n <= |rounds|
    decreases n
  {
    if n == 0 then {} else Seen(rounds, n - 1) + KeysOf(rounds[n - 1])
  }

  function WithRow(rows: KeyRows): set<Key> { set i | 0 <= i < |rows| && rows[i].1 :: rows[i].0 }

  function HadRow(rounds: seq<KeyRows>, n: int): set<Key>
    requires 0 <= n <= |rounds|
    decreases n
  {
    if n == 0 then {} else HadRow(rounds, n - 1) + WithRow(rounds[n - 1])
  }

  method FreshKeys(rows: KeyRows, seen: set<Key>) returns (unseen: seq<Key>)
    ensures forall k :: k in unseen <==> k in KeysOf(rows) && k !in seen
  {
    unseen := [];
    for i := 0 to |rows|
      invariant forall k :: k in unseen <==> k in KeysOf(rows[..i]) && k !in seen
    {
      if rows[i].0 !in seen && rows[i].0 !in unseen {
        unseen := unseen + [rows[i].0];
      }
    }
    assert rows[..|rows|] == rows;
  }

  method HoldAll(hash: Key -> int, held: seq<int>, got: set<Key>, keys: seq<Key>) returns (held': seq<int>)
    ensures forall h :: h in held' <==> h in held || exists i :: 0 <= i < |keys| && keys[i] in got && hash(keys[i]) == h
  {
    held' := held;
    for i := 0 to |keys|
      invariant forall h :: h in held' <==> h in held || exists j :: 0 <= j < i && keys[j] in got && hash(keys[j]) == h
    {
      if keys[i] in got {
        held' := held' + [hash(keys[i])];
      }
    }
  }

  /** The keys a revert sees for the first time in a round. */
  function NewIn(rounds: seq<KeyRows>, i: int): set<Key>
    requires 0 <= i < |rounds|
  {
    KeysOf(rounds[i]) - Seen(rounds, i)
  }

  /** Round i locked the keys it was the first to see, and a key is locked exactly when its lock was held after it. */
  ghost predicate RoundDone(hash: Key -> int, rounds: seq<KeyRows>, free: seq<set<int>>, trail: seq<seq<Event>>,
                            locked: set<Key>, i: int)
    requires 0 <= i < |rounds| == |free| && i + 1 < |trail|
  {
    && RoundLog(hash, NewIn(rounds, i), trail[i], free[i], trail[i + 1])
    && forall k :: k in NewIn(rounds, i) ==> (k in locked <==> hash(k) in Acquired(trail[i + 1]))
  }

  /**
   A revert reads its block's keys and locks the new ones until a read shows none; trail is what it had done after each
   round. It restores exactly the keys it locked that any of its reads found a row for.
   */
  method LockRevertKeys(hash: Key -> int, rounds: seq<KeyRows>, free: seq<set<int>>)
    returns (n: int, seen: set<Key>, restore: set<Key>, log: seq<Event>, locked: set<Key>, ghost trail: seq<seq<Event>>)
    requires |free| == |rounds|
    ensures 0 <= n <= |rounds| && seen == Seen(rounds, n) && Disciplined(log)
    ensures n < |rounds| ==> KeysOf(rounds[n]) <= seen
    ensures |trail| == n + 1 && trail[0] == [] && trail[n] == log
    ensures forall i :: 0 <= i < n ==> RoundDone(hash, rounds, free, trail, locked, i)
    ensures locked <= seen && forall k :: k in locked ==> hash(k) in Acquired(log)
    ensures restore == HadRow(rounds, if n < |rounds| then n + 1 else n) * locked
    ensures rounds != [] ==> WithRow(rounds[0]) <= restore
  {
    var held, got, hadRow := [], {}, {};
    n, seen, log, locked, trail := 0, {}, [], {}, [[]];
    while n < |rounds|
      invariant 0 <= n <= |rounds| && seen == Seen(rounds, n) && hadRow == HadRow(rounds, n)
      invariant Disciplined(log) && Acquired(log) == Elements(held) && locked <= seen
      invariant forall k :: k in locked ==> hash(k) in Acquired(log)
      invariant |trail| == n + 1 && trail[0] == [] && trail[n] == log
      invariant forall i :: 0 <= i < n ==> RoundDone(hash, rounds, free, trail, locked, i)
      invariant n > 0 ==> KeysOf(rounds[0]) <= locked && WithRow(rounds[0]) <= hadRow
      invariant n == 0 ==> held == []
      decreases |rounds| - n
    {
      var unseen := FreshKeys(rounds[n], seen);
      hadRow := hadRow + WithRow(rounds[n]);
      if unseen == [] {
        restore := hadRow * locked;
        return;
      }
      ghost var before := log;
      got, log := LockBalanceKeys(hash, unseen, log, held, free[n]);
      held := HoldAll(hash, held, got, unseen);
      HeldIsAcquired(hash, unseen, got, Acquired(before), Acquired(log), Elements(held));
      RoundsDone(hash, rounds, free, trail, locked, n, log, got, unseen);
      locked := locked + got;
      trail := trail + [log];
      seen := seen + KeysOf(rounds[n]);
      n := n + 1;
    }
    restore := hadRow * locked;
  }

  lemma {:induction false} NewInOnce(rounds: seq<KeyRows>, i: int, n: int)
    requires 0 <= i < n <= |rounds|
    ensures KeysOf(rounds[i]) <= Seen(rounds, n)
    decreases n
  {
    if i < n - 1 {
      NewInOnce(rounds, i, n - 1);
    }
  }

  /** One more round leaves what the rounds before it locked as it was. */
  lemma {:induction false} RoundsDone(hash: Key -> int, rounds: seq<KeyRows>, free: seq<set<int>>,
                                      trail: seq<seq<Event>>,
                                      locked: set<Key>, n: int, log: seq<Event>, got: set<Key>, unseen: seq<Key>)
    requires 0 <= n < |rounds| == |free| && |trail| == n + 1
    requires forall i :: 0 <= i < n ==> RoundDone(hash, rounds, free, trail, locked, i)
    requires forall k :: k in unseen <==> k in KeysOf(rounds[n]) && k !in Seen(rounds, n)
    requires forall k :: k in got <==> k in unseen && hash(k) in Acquired(log)
    requires RoundLog(hash, Elements(unseen), trail[n], free[n], log) && locked <= Seen(rounds, n)
    ensures forall i :: 0 <= i <= n ==> RoundDone(hash, rounds, free, trail + [log], locked + got, i)
  {
    var trail' := trail + [log];
    assert Elements(unseen) == NewIn(rounds, n);
    assert RoundDone(hash, rounds, free, trail', locked + got, n);
    forall i | 0 <= i < n ensures RoundDone(hash, rounds, free, trail', locked + got, i) {
      assert RoundDone(hash, rounds, free, trail, locked, i);
      NewInOnce(rounds, i, n);
      assert trail'[i] == trail[i] && trail'[i + 1] == trail[i + 1];
    }
  }

  lemma {:induction false} HeldIsAcquired(hash: Key -> int, keys: seq<Key>, got: set<Key>, before: set<int>,
                                          after: set<int>, held: set<int>)
    requires before <= after <= before + HashesOf(hash, keys)
    requires forall k :: k in got <==> k in keys && hash(k) in after
    requires forall h :: h in held <==>
              h in before || exists i :: 0 <= i < |keys| && keys[i] in got && hash(keys[i]) == h
    ensures after == held
  {
    forall h | h in after && h !in before ensures h in held {
      var i :| 0 <= i < |keys| && hash(keys[i]) == h;
      assert keys[i] in got;
    }
    forall h | h in held ensures h in after {
      if h !in before {
        var i :| 0 <= i < |keys| && keys[i] in got && hash(keys[i]) == h;
      }
    }
    assert forall h :: h in after <==> h in held;
  }
}
