/** The locks of balance flushes and reverts: one order for every wait, so that no set of them waits in a circle. */
module BalanceLocks {
  import opened Sums
  import BalanceEpochs

  type Key = BalanceEpochs.Key

  datatype Lock =
    | DailyStats | RevertLock | KeyLock(h: int) | TokenKey(h: int) | TokenRow(t: int)
    | HistoryRow(k: Key, b: int) | CurrentRow(k: Key) | RereadRow(k: Key)
  {
    /** The row locks of balances, token_balances_current and balance_rereads have no place in the order. */
    predicate Ordered() { !HistoryRow? && !CurrentRow? && !RereadRow? }

    function Phase(): int { if DailyStats? then 0 else if RevertLock? then 1 else if KeyLock? then 2
        else if TokenKey? then 3 else 4 }

    function Number(): int { if KeyLock? || TokenKey? then h else if TokenRow? then t else 0 }

    predicate Below(that: Lock) {
      Phase() < that.Phase() || (Phase() == that.Phase() && Number() < that.Number())
    }
  }

  datatype Hold = Hold(lock: Lock, shared: bool)

  datatype Wait = Wait(hold: Hold, ticket: int)

  datatype Tx = Tx(reverts: bool, held: set<Hold>, wait: Option<Wait>)

  datatype State = State(txs: map<int, Tx>, ticket: int)

  datatype Step =
    | Start(id: int, reverts: bool)
    | Request(id: int, hold: Hold)
    | Try(id: int, h: int)
    | Grant(id: int)
    | End(id: int)

  predicate Clash(a: Hold, b: Hold) { a.lock == b.lock && !(a.shared && b.shared) }

  predicate Holds(tx: Tx, lock: Lock, shared: bool) { Hold(lock, shared) in tx.held }

  /** What a transaction holds before it takes a balance row; hash is the advisory key of a (token, holder) pair. */
  predicate Guards(hash: Key -> int, tx: Tx, lock: Lock) {
    match lock
    case HistoryRow(k, _) => if tx.reverts then Holds(tx, RevertLock, false)
        else Holds(tx, RevertLock, true) && Holds(tx, KeyLock(hash(k)), false)
    case RereadRow(k) => if tx.reverts then Holds(tx, RevertLock, false)
        else Holds(tx, RevertLock, true) && Holds(tx, KeyLock(hash(k)), false)
    case CurrentRow(k) => Holds(tx, KeyLock(hash(k)), false)
    case _ => true
  }

  ghost predicate AboveHeld(tx: Tx, lock: Lock) {
    forall x :: x in tx.held && x.lock.Ordered() ==> x.lock.Below(lock)
  }

  /** A lock of the order is waited for only above every one held; a row is taken only under its guards. */
  ghost predicate Allowed(hash: Key -> int, tx: Tx, hold: Hold) {
    && (hold.lock.Ordered() ==> AboveHeld(tx, hold.lock))
    && Guards(hash, tx, hold.lock)
    && (hold.shared ==> hold.lock.RevertLock? && !tx.reverts)
  }

  ghost predicate Free(s: State, id: int, hold: Hold) {
    forall j, x :: j in s.txs && j != id && x in s.txs[j].held ==> !Clash(hold, x)
  }

  ghost predicate NoneQueued(s: State, id: int, hold: Hold) {
    forall j :: j in s.txs && j != id && s.txs[j].wait.Some? ==> !Clash(hold, s.txs[j].wait.value.hold)
  }

  /** What the lock manager takes: a transaction makes one request at a time, and a try takes only a free lock. */
  ghost predicate Possible(s: State, step: Step) {
    match step
    case Start(id, _) => id !in s.txs
    case Request(id, hold) => id in s.txs && s.txs[id].wait.None?
    case Try(id, h) => id in s.txs && s.txs[id].wait.None? && Free(s, id, Hold(KeyLock(h), false))
    case Grant(id) => id in s.txs && s.txs[id].wait.Some? && Free(s, id, s.txs[id].wait.value.hold)
    case End(id) => id in s.txs
  }

  /** A request the lock order allows; only a revert tries. */
  ghost predicate Enabled(hash: Key -> int, s: State, step: Step) {
    && Possible(s, step)
    && (step.Request? ==> Allowed(hash, s.txs[step.id], step.hold))
    && (step.Try? ==> s.txs[step.id].reverts)
  }

  ghost function Apply(s: State, step: Step): State
    requires Possible(s, step)
  {
    match step
    case Start(id, reverts) => s.(txs := s.txs[id := Tx(reverts, {}, None)])
    case Request(id, hold) =>
      var tx := s.txs[id];
      if Free(s, id, hold) && NoneQueued(s, id, hold) then s.(txs := s.txs[id := tx.(held := tx.held + {hold})])
      else State(s.txs[id := tx.(wait := Some(Wait(hold, s.ticket)))], s.ticket + 1)
    case Try(id, h) => s.(txs := s.txs[id := s.txs[id].(held := s.txs[id].held + {Hold(KeyLock(h), false)})])
    case Grant(id) =>
      var tx := s.txs[id];
      s.(txs := s.txs[id := tx.(held := tx.held + {tx.wait.value.hold}, wait := None)])
    case End(id) => s.(txs := s.txs - {id})
  }

  // ---------- the invariant ----------

  ghost predicate Guarded(hash: Key -> int, tx: Tx) {
    && (forall x :: x in tx.held ==> Guards(hash, tx, x.lock))
    && (forall x :: x in tx.held && x.shared ==> x.lock.RevertLock? && !tx.reverts)
    && (tx.wait.Some? ==> tx.wait.value.hold.lock.Ordered() && AboveHeld(tx, tx.wait.value.hold.lock)
                          && (tx.wait.value.hold.shared ==> tx.wait.value.hold.lock.RevertLock? && !tx.reverts))
  }

  ghost predicate Exclusive(s: State) {
    forall i, j, x, y :: i in s.txs && j in s.txs && i != j && x in s.txs[i].held && y in s.txs[j].held ==> !Clash(x, y)
  }

  ghost predicate Inv(hash: Key -> int, s: State) {
    Exclusive(s) && forall i :: i in s.txs ==> Guarded(hash, s.txs[i])
  }

  /**
   A balance row is free whenever it is asked for: a transaction that held it would hold a guard of it that
   clashes.
   */
  lemma {:induction false} RowsNeverWait(hash: Key -> int, s: State, id: int, hold: Hold)
    requires Inv(hash, s) && Enabled(hash, s, Request(id, hold)) && !hold.lock.Ordered()
    ensures Free(s, id, hold) && NoneQueued(s, id, hold)
    ensures Apply(s, Request(id, hold)).txs[id].wait.None?
  {
    forall j, x | j in s.txs && j != id && x in s.txs[j].held ensures !Clash(hold, x) {
      GuardsKeepOut(hash, s, id, j, hold.lock);
      assert x == Hold(x.lock, x.shared);
    }
    forall j | j in s.txs && j != id && s.txs[j].wait.Some? ensures !Clash(hold, s.txs[j].wait.value.hold) {
      assert Guarded(hash, s.txs[j]);
    }
  }

  lemma {:induction false} GuardsKeepOut(hash: Key -> int, s: State, i: int, j: int, lock: Lock)
    requires Inv(hash, s) && i in s.txs && j in s.txs && i != j && !lock.Ordered() && Guards(hash, s.txs[i], lock)
    ensures !Holds(s.txs[j], lock, false) && !Holds(s.txs[j], lock, true)
  {
    assert Guarded(hash, s.txs[j]);
    if Holds(s.txs[j], lock, false) {
      assert Guards(hash, s.txs[j], Hold(lock, false).lock);
      var key := Hold(KeyLock(hash(lock.k)), false);
      var fence, pass := Hold(RevertLock, false), Hold(RevertLock, true);
      assert Clash(key, key) && Clash(fence, fence) && Clash(fence, pass) && Clash(pass, fence);
    }
  }

  lemma {:induction false} StaysExclusive(s: State, id: int, hold: Hold)
    requires Exclusive(s) && id in s.txs && Free(s, id, hold)
    ensures Exclusive(State(s.txs[id := s.txs[id].(held := s.txs[id].held + {hold}, wait := None)], s.ticket))
  {
    forall j, x | j in s.txs && j != id && x in s.txs[j].held ensures !Clash(x, hold) {
      assert !Clash(hold, x);
    }
  }

  lemma {:induction false} StaysGuarded(hash: Key -> int, s: State, step: Step, i: int)
    requires Inv(hash, s) && Enabled(hash, s, step) && i in Apply(s, step).txs
    ensures Guarded(hash, Apply(s, step).txs[i])
  {
    if step.Request? && !step.hold.lock.Ordered() {
      RowsNeverWait(hash, s, step.id, step.hold);
    }
    if i in s.txs {
      assert Guarded(hash, s.txs[i]);
    }
  }

  lemma {:induction false} InvStep(hash: Key -> int, s: State, step: Step)
    requires Inv(hash, s) && Enabled(hash, s, step)
    ensures Inv(hash, Apply(s, step))
  {
    match step {
      case Request(id, hold) =>
        if Free(s, id, hold) {
          StaysExclusive(s, id, hold);
        }
      case Try(id, h) => StaysExclusive(s, id, Hold(KeyLock(h), false));
      case Grant(id) => StaysExclusive(s, id, s.txs[id].wait.value.hold);
      case _ =>
    }
    forall i | i in Apply(s, step).txs ensures Guarded(hash, Apply(s, step).txs[i]) {
      StaysGuarded(hash, s, step, i);
    }
  }

  // ---------- no circle of waits ----------

  /** i waits for a lock that j holds, or that j asked for earlier. */
  ghost predicate WaitsFor(s: State, i: int, j: int) {
    && i in s.txs && j in s.txs && i != j && s.txs[i].wait.Some?
    && ((exists x :: x in s.txs[j].held && Clash(s.txs[i].wait.value.hold, x))
        || (s.txs[j].wait.Some? && Clash(s.txs[i].wait.value.hold, s.txs[j].wait.value.hold)
            && s.txs[j].wait.value.ticket < s.txs[i].wait.value.ticket))
  }

  ghost predicate Chain(s: State, path: seq<int>) {
    forall n :: 0 <= n < |path| - 1 ==> WaitsFor(s, path[n], path[n + 1])
  }

  predicate Behind(a: Wait, b: Wait) {
    a.hold.lock.Below(b.hold.lock) || (a.hold.lock == b.hold.lock && b.ticket < a.ticket)
  }

  lemma {:induction false} ChainClimbs(hash: Key -> int, s: State, path: seq<int>)
    requires Inv(hash, s) && Chain(s, path) && |path| >= 2 && path[|path| - 1] in s.txs
    requires s.txs[path[|path| - 1]].wait.Some?
    ensures path[0] in s.txs && s.txs[path[0]].wait.Some?
    ensures Behind(s.txs[path[0]].wait.value, s.txs[path[|path| - 1]].wait.value)
    decreases |path|
  {
    assert WaitsFor(s, path[0], path[1]);
    if |path| > 2 {
      assert Chain(s, path[1..]) by {
        forall n | 0 <= n < |path[1..]| - 1 ensures WaitsFor(s, path[1..][n], path[1..][n + 1]) {
          assert WaitsFor(s, path[n + 1], path[n + 2]);
        }
      }
      ChainClimbs(hash, s, path[1..]);
    }
  }

  /** No chain of waits of any length comes back to where it started. */
  lemma {:induction false} NoCircle(hash: Key -> int, s: State, path: seq<int>)
    requires Inv(hash, s) && |path| >= 2 && Chain(s, path)
    ensures path[0] != path[|path| - 1]
  {
    if path[0] == path[|path| - 1] {
      assert WaitsFor(s, path[0], path[1]);
      ChainClimbs(hash, s, path);
    }
  }

  /** The waiter no other waiter is ahead of. */
  lemma {:induction false} FirstInLine(s: State, ids: set<int>) returns (i: int)
    requires ids != {} && forall j :: j in ids ==> j in s.txs && s.txs[j].wait.Some?
    ensures i in ids && forall j :: j in ids ==> !Behind(s.txs[i].wait.value, s.txs[j].wait.value)
    decreases |ids|
  {
    var x := Pick(ids);
    var rest := ids - {x};
    if rest == {} {
      assert ids == {x};
      return x;
    }
    var m := FirstInLine(s, rest);
    i := if Behind(s.txs[m].wait.value, s.txs[x].wait.value) then x else m;
    assert forall j :: j in ids ==> j == x || j in rest;
  }

  /** Somebody can always go on: a transaction that waits for nothing, or one whose lock is free. */
  lemma {:induction false} Progress(hash: Key -> int, s: State) returns (i: int)
    requires Inv(hash, s) && s.txs.Keys != {}
    ensures i in s.txs && (s.txs[i].wait.None? || Free(s, i, s.txs[i].wait.value.hold))
  {
    if j :| j in s.txs && s.txs[j].wait.None? {
      return j;
    }
    i := FirstInLine(s, s.txs.Keys);
    forall j, x | j in s.txs && j != i && x in s.txs[j].held ensures !Clash(s.txs[i].wait.value.hold, x) {
      assert Guarded(hash, s.txs[j]);
      assert AboveHeld(s.txs[j], s.txs[j].wait.value.hold.lock);
      assert !Behind(s.txs[i].wait.value, s.txs[j].wait.value);
      assert Guarded(hash, s.txs[i]);
    }
  }
}
