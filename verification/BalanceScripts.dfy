/**
 The lock sequences of balance flushes and reverts, as their code runs them, and the theorem that no interleaving of
 them waits in a circle. Nothing here restricts what a transaction asks for: each request is shown to be one the order
 allows.
 */
module BalanceScripts {
  import opened Sums
  import opened BalanceLocks
  import opened BalanceKeyLocks

  /** A lock waited for, or a balance-key lock taken only if it is free. */
  datatype Op = Ask(hold: Hold) | TryKey(h: int)

  function Asks(locks: seq<Lock>): seq<Op> { seq(|locks|, i requires 0 <= i < |locks| => Ask(Hold(locks[i], false))) }

  function KeyLocks(hs: seq<int>): seq<Lock> { seq(|hs|, i requires 0 <= i < |hs| => KeyLock(hs[i])) }

  function Tries(hs: seq<int>): seq<Op> { seq(|hs|, i requires 0 <= i < |hs| => TryKey(hs[i])) }

  function HistoryRows(rows: seq<(Key, int)>): seq<Lock> {
    seq(|rows|, i requires 0 <= i < |rows| => HistoryRow(rows[i].0, rows[i].1))
  }

  function CurrentRows(keys: seq<Key>): seq<Lock> { seq(|keys|, i requires 0 <= i < |keys| => CurrentRow(keys[i])) }

  function RereadRows(keys: seq<Key>): seq<Lock> { seq(|keys|, i requires 0 <= i < |keys| => RereadRow(keys[i])) }

  function TokenKeys(hs: seq<int>): seq<Lock> { seq(|hs|, i requires 0 <= i < |hs| => TokenKey(hs[i])) }

  function TokenRows(ts: seq<int>): seq<Lock> { seq(|ts|, i requires 0 <= i < |ts| => TokenRow(ts[i])) }

  /**
   What the last phases of a transaction write: its history rows, its current rows, the tokens whose holder_count
   moves, by their sorted advisory keys, the sorted tokens rows, and the requests to read again.
   */
  datatype Writes = Writes(history: seq<(Key, int)>, current: seq<Key>, tokenKeys: seq<int>, tokens: seq<int>,
                           rereads: seq<Key>)

  predicate TokensSorted(w: Writes) { Ascending(w.tokenKeys) && Ascending(w.tokens) }

  function TokenLocks(w: Writes): seq<Lock> { TokenKeys(w.tokenKeys) + TokenRows(w.tokens) }

  function WriteOps(w: Writes): seq<Op> {
    Asks(HistoryRows(w.history) + CurrentRows(w.current)) + (Asks(TokenLocks(w)) + Asks(RereadRows(w.rereads)))
  }

  /** A flush of reads of these keys: every row it writes is one of theirs. */
  predicate FlushWrites(keys: seq<Key>, w: Writes) {
    && TokensSorted(w)
    && (forall i :: 0 <= i < |w.history| ==> w.history[i].0 in keys)
    && (forall i :: 0 <= i < |w.current| ==> w.current[i] in keys)
    && (forall i :: 0 <= i < |w.rereads| ==> w.rereads[i] in keys)
  }

  /** A flush with history: the revert lock shared, its sorted key locks, then its writes. */
  function FlushOps(waits: seq<int>, w: Writes): seq<Op> {
    [Ask(Hold(RevertLock, true))] + (Asks(KeyLocks(waits)) + WriteOps(w))
  }

  const RevertOps: seq<Op> := [Ask(Hold(DailyStats, false)), Ask(Hold(RevertLock, false))]

  // ---------- transactions that run their sequences ----------

  /**
   Where a transaction stands: the operations still to run, and, while a revert is reading its block's keys, the keys
   seen and those a row was seen for.
   */
  datatype Script = Script(keying: bool, seen: set<Key>, had: set<Key>, todo: seq<Op>)

  datatype World = World(locks: State, scripts: map<int, Script>)

  datatype Move =
    | BeginFlush(id: int, keys: seq<Key>, waits: seq<int>, writes: Writes)
    | BeginRevert(id: int)
    | ReadKeys(id: int, rows: KeyRows, waits: seq<int>, lower: seq<int>)
    | LastRead(id: int, rows: KeyRows, writes: Writes)
    | Go(id: int)
    | Wake(id: int)
    | Finish(id: int)

  function HeldKeys(held: set<Hold>): set<int> { set x | x in held && x.lock.KeyLock? :: x.lock.h }

  /** Between two operations of the transaction. */
  ghost predicate Idle(s: World, id: int) {
    id in s.scripts && id in s.locks.txs && s.locks.txs[id].wait.None?
  }

  ghost predicate CanMove(hash: Key -> int, s: World, m: Move) {
    match m
    case BeginFlush(id, keys, waits, writes) =>
      id !in s.locks.txs && Ascending(waits) && Elements(waits) == HashesOf(hash, keys) && FlushWrites(keys, writes)
    case BeginRevert(id) => id !in s.locks.txs
    case ReadKeys(id, rows, waits, lower) =>
      && Idle(s, id) && s.scripts[id].keying && s.scripts[id].todo == []
      && RoundLocks(hash, KeysOf(rows) - s.scripts[id].seen, HeldKeys(s.locks.txs[id].held), waits, lower)
    case LastRead(id, rows, writes) =>
      && Idle(s, id) && s.scripts[id].keying && s.scripts[id].todo == [] && KeysOf(rows) <= s.scripts[id].seen
      && TokensSorted(writes)
      && (forall i :: 0 <= i < |writes.current| ==>
            writes.current[i] in s.scripts[id].had + WithRow(rows) &&
            hash(writes.current[i]) in HeldKeys(s.locks.txs[id].held))
    case Go(id) => Idle(s, id) && s.scripts[id].todo != []
    case Wake(id) =>
      && id in s.scripts && id in s.locks.txs && s.locks.txs[id].wait.Some?
      && Free(s.locks, id, s.locks.txs[id].wait.value.hold)
    case Finish(id) => id in s.locks.txs
  }

  /** The lock manager's part of a move; a failed try is none. */
  ghost function LockStep(s: World, m: Move): Option<Step> {
    match m
    case BeginFlush(id, _, _, _) => Some(Start(id, false))
    case BeginRevert(id) => Some(Start(id, true))
    case ReadKeys(_, _, _, _) => None
    case LastRead(_, _, _) => None
    case Go(id) =>
      if !(id in s.scripts && s.scripts[id].todo != []) then None
      else
        (match s.scripts[id].todo[0]
         case Ask(hold) => Some(Request(id, hold))
         case TryKey(h) => if Free(s.locks, id, Hold(KeyLock(h), false)) then Some(Try(id, h)) else None)
    case Wake(id) => Some(Grant(id))
    case Finish(id) => Some(End(id))
  }

  ghost function ScriptsAfter(s: World, m: Move): map<int, Script> {
    match m
    case BeginFlush(id, _, waits, writes) => s.scripts[id := Script(false, {}, {}, FlushOps(waits, writes))]
    case BeginRevert(id) => s.scripts[id := Script(true, {}, {}, RevertOps)]
    case ReadKeys(id, rows, waits, lower) =>
      if id !in s.scripts then s.scripts else
        var p := s.scripts[id];
        s.scripts[id := Script(true, p.seen + KeysOf(rows), p.had + WithRow(rows),
                               Asks(KeyLocks(waits)) + Tries(lower))]
    case LastRead(id, _, writes) => s.scripts[id := Script(false, {}, {}, WriteOps(writes))]
    case Go(id) =>
      if !(id in s.scripts && s.scripts[id].todo != []) then s.scripts
      else s.scripts[id := s.scripts[id].(todo := s.scripts[id].todo[1..])]
    case Wake(_) => s.scripts
    case Finish(id) => s.scripts - {id}
  }

  ghost function Moved(hash: Key -> int, s: World, m: Move): World
    requires CanMove(hash, s, m)
  {
    var step := LockStep(s, m);
    World(if step.Some? then Apply(s.locks, step.value) else s.locks, ScriptsAfter(s, m))
  }

  // ---------- sequences the order allows ----------

  /** Whatever the tries find, each wait of ops is allowed once those before it are held. */
  ghost predicate Safe(hash: Key -> int, reverts: bool, held: set<Hold>, ops: seq<Op>)
    decreases |ops|
  {
    ops == [] ||
    match ops[0]
    case Ask(hold) => Allowed(hash, Tx(reverts, held, None), hold) && Safe(hash, reverts, held + {hold}, ops[1..])
    case TryKey(h) =>
      && reverts && Safe(hash, reverts, held, ops[1..])
      && Safe(hash, reverts, held + {Hold(KeyLock(h), false)}, ops[1..])
  }

  function HoldsOf(locks: seq<Lock>): set<Hold> { set i | 0 <= i < |locks| :: Hold(locks[i], false) }

  predicate Climbing(locks: seq<Lock>) {
    && (forall i :: 0 <= i < |locks| ==> locks[i].Ordered())
    && forall i, j :: 0 <= i < j < |locks| ==> locks[i].Below(locks[j])
  }

  ghost predicate AllAbove(held: set<Hold>, locks: seq<Lock>) {
    forall x, i :: x in held && x.lock.Ordered() && 0 <= i < |locks| ==> x.lock.Below(locks[i])
  }

  lemma {:induction false} AsksFirst(locks: seq<Lock>, rest: seq<Op>)
    requires locks != []
    ensures Asks(locks) + rest != [] && (Asks(locks) + rest)[0] == Ask(Hold(locks[0], false))
    ensures (Asks(locks) + rest)[1..] == Asks(locks[1..]) + rest
    ensures forall held: set<Hold> :: held + {Hold(locks[0], false)} + HoldsOf(locks[1..]) == held + HoldsOf(locks)
  {
    forall held: set<Hold>
      ensures held + {Hold(locks[0], false)} + HoldsOf(locks[1..]) == held + HoldsOf(locks)
    {
      HoldsFirst(locks);
    }
  }

  lemma {:induction false} HoldsFirst(locks: seq<Lock>)
    requires locks != []
    ensures HoldsOf(locks) == {Hold(locks[0], false)} + HoldsOf(locks[1..])
  {
    forall x | x in HoldsOf(locks) ensures x in {Hold(locks[0], false)} + HoldsOf(locks[1..]) {
      var i :| 0 <= i < |locks| && x == Hold(locks[i], false);
      if i > 0 {
        assert locks[1..][i - 1] == locks[i];
      }
    }
    forall x | x in HoldsOf(locks[1..]) ensures x in HoldsOf(locks) {
      var i :| 0 <= i < |locks[1..]| && x == Hold(locks[1..][i], false);
      assert locks[i + 1] == locks[1..][i];
    }
    assert locks[0] == locks[0];
  }

  /** Locks of the order asked for upwards, all above those held. */
  lemma {:induction false} ClimbingIsSafe(hash: Key -> int, reverts: bool, held: set<Hold>, locks: seq<Lock>,
                                          rest: seq<Op>)
    requires Climbing(locks) && AllAbove(held, locks) && Safe(hash, reverts, held + HoldsOf(locks), rest)
    ensures Safe(hash, reverts, held, Asks(locks) + rest)
    decreases |locks|
  {
    if locks == [] {
      assert Asks(locks) + rest == rest && held + HoldsOf(locks) == held;
    } else {
      AsksFirst(locks, rest);
      ClimbingIsSafe(hash, reverts, held + {Hold(locks[0], false)}, locks[1..], rest);
      assert AboveHeld(Tx(reverts, held, None), locks[0]);
    }
  }

  ghost predicate AllGuarded(hash: Key -> int, reverts: bool, held: set<Hold>, locks: seq<Lock>) {
    forall i :: 0 <= i < |locks| ==> !locks[i].Ordered() && Guards(hash, Tx(reverts, held, None), locks[i])
  }

  lemma {:induction false} StillGuarded(hash: Key -> int, reverts: bool, held: set<Hold>, more: set<Hold>,
                                        locks: seq<Lock>)
    requires AllGuarded(hash, reverts, held, locks)
    ensures AllGuarded(hash, reverts, held + more, locks)
  {
  }

  /** Balance rows asked for under their guards, in any order. */
  lemma {:induction false} RowsAreSafe(hash: Key -> int, reverts: bool, held: set<Hold>, locks: seq<Lock>,
                                       rest: seq<Op>)
    requires AllGuarded(hash, reverts, held, locks)
    requires Safe(hash, reverts, held + HoldsOf(locks), rest)
    ensures Safe(hash, reverts, held, Asks(locks) + rest)
    decreases |locks|
  {
    if locks == [] {
      assert Asks(locks) + rest == rest && held + HoldsOf(locks) == held;
    } else {
      AsksFirst(locks, rest);
      RowsAreSafe(hash, reverts, held + {Hold(locks[0], false)}, locks[1..], rest);
    }
  }

  lemma {:induction false} TriesAreSafe(hash: Key -> int, held: set<Hold>, hs: seq<int>)
    ensures Safe(hash, true, held, Tries(hs))
    decreases |hs|
  {
    if hs != [] {
      assert Tries(hs)[1..] == Tries(hs[1..]);
      TriesAreSafe(hash, held, hs[1..]);
      TriesAreSafe(hash, held + {Hold(KeyLock(hs[0]), false)}, hs[1..]);
    }
  }

  /** The token locks come after every lock of the order taken before them. */
  lemma {:induction false} TokensClimb(held: set<Hold>, rows: seq<Lock>, w: Writes)
    requires TokensSorted(w) && (forall x :: x in held ==> x.lock.Phase() < 3)
    requires forall i :: 0 <= i < |rows| ==> !rows[i].Ordered()
    ensures Climbing(TokenLocks(w)) && AllAbove(held + HoldsOf(rows), TokenLocks(w))
  {
  }

  /** A transaction that holds no token lock, and the guards of its rows, runs its writes safely. */
  lemma {:induction false} WritesAreSafe(hash: Key -> int, reverts: bool, held: set<Hold>, w: Writes)
    requires TokensSorted(w) && forall x :: x in held ==> x.lock.Phase() < 3
    requires AllGuarded(hash, reverts, held, HistoryRows(w.history) + CurrentRows(w.current))
    requires AllGuarded(hash, reverts, held, RereadRows(w.rereads))
    ensures Safe(hash, reverts, held, WriteOps(w))
  {
    var rows, tokens, rereads := HistoryRows(w.history) + CurrentRows(w.current), TokenLocks(w), RereadRows(w.rereads);
    var held1 := held + HoldsOf(rows);
    var held2 := held1 + HoldsOf(tokens);
    StillGuarded(hash, reverts, held, HoldsOf(rows), rereads);
    StillGuarded(hash, reverts, held1, HoldsOf(tokens), rereads);
    TokensClimb(held, rows, w);
    RowsAreSafe(hash, reverts, held2, rereads, []);
    assert Asks(rereads) + [] == Asks(rereads);
    ClimbingIsSafe(hash, reverts, held1, tokens, Asks(rereads));
    RowsAreSafe(hash, reverts, held, rows, Asks(tokens) + Asks(rereads));
  }

  // ---------- what each transaction keeps ----------

  /** What it holds, and what it waits for, which it holds before it goes on. */
  function Holding(tx: Tx): set<Hold> { tx.held + if tx.wait.Some? then {tx.wait.value.hold} else {} }

  predicate Early(x: Hold) { (x.lock.DailyStats? || x.lock.RevertLock? || x.lock.KeyLock?) && !x.shared }

  /** A revert that still reads its keys holds only its first two locks and key locks. */
  ghost predicate Keying(held: set<Hold>, todo: seq<Op>) {
    && (forall x :: x in held ==> Early(x))
    && (forall op :: op in todo && op.Ask? ==> Early(op.hold))
    && (Hold(RevertLock, false) in held || Ask(Hold(RevertLock, false)) in todo)
  }

  ghost predicate Sound(hash: Key -> int, tx: Tx, p: Script) {
    && Safe(hash, tx.reverts, Holding(tx), p.todo)
    && (p.keying ==> tx.reverts && Keying(Holding(tx), p.todo))
  }

  ghost predicate WorldInv(hash: Key -> int, s: World) {
    && Inv(hash, s.locks) && s.scripts.Keys == s.locks.txs.Keys
    && forall id :: id in s.scripts ==> Sound(hash, s.locks.txs[id], s.scripts[id])
  }

  lemma {:induction false} FlushIsSafe(hash: Key -> int, keys: seq<Key>, waits: seq<int>, w: Writes)
    requires Ascending(waits) && Elements(waits) == HashesOf(hash, keys) && FlushWrites(keys, w)
    ensures Safe(hash, false, {}, FlushOps(waits, w))
  {
    var held := {Hold(RevertLock, true)};
    var locks := KeyLocks(waits);
    forall k | k in keys ensures Hold(KeyLock(hash(k)), false) in held + HoldsOf(locks) {
      var i :| 0 <= i < |keys| && keys[i] == k;
      assert hash(k) in Elements(waits);
      var j :| 0 <= j < |waits| && waits[j] == hash(k);
      assert locks[j] == KeyLock(hash(k));
    }
    WritesAreSafe(hash, false, held + HoldsOf(locks), w);
    ClimbingIsSafe(hash, false, held, locks, WriteOps(w));
    assert FlushOps(waits, w)[1..] == Asks(locks) + WriteOps(w);
    assert {} + {Hold(RevertLock, true)} == held;
  }

  lemma {:induction false} RevertStarts(hash: Key -> int)
    ensures Safe(hash, true, {}, RevertOps) && Keying({}, RevertOps)
  {
    var day := Hold(DailyStats, false);
    assert RevertOps[1..] == [Ask(Hold(RevertLock, false))] && RevertOps[1..][1..] == [];
    assert Safe(hash, true, {day} + {Hold(RevertLock, false)}, []);
    assert Allowed(hash, Tx(true, {day}, None), Hold(RevertLock, false));
    assert Safe(hash, true, {day}, RevertOps[1..]);
    assert {} + {day} == {day};
    assert RevertOps[1] == Ask(Hold(RevertLock, false));
  }

  lemma {:induction false} RoundIsSafe(hash: Key -> int, held: set<Hold>, keys: set<Key>, waits: seq<int>,
                                       lower: seq<int>)
    requires Keying(held, []) && RoundLocks(hash, keys, HeldKeys(held), waits, lower)
    ensures var todo := Asks(KeyLocks(waits)) + Tries(lower); Safe(hash, true, held, todo) && Keying(held, todo)
  {
    var locks := KeyLocks(waits);
    TriesAreSafe(hash, held + HoldsOf(locks), lower);
    forall x, i | x in held && x.lock.Ordered() && 0 <= i < |locks| ensures x.lock.Below(locks[i]) {
      assert waits[i] in Elements(waits);
      if x.lock.KeyLock? {
        assert x.lock.h in HeldKeys(held);
      }
    }
    ClimbingIsSafe(hash, true, held, locks, Tries(lower));
  }

  lemma {:induction false} LastReadIsSafe(hash: Key -> int, held: set<Hold>, w: Writes)
    requires Keying(held, []) && TokensSorted(w)
    requires forall i :: 0 <= i < |w.current| ==> hash(w.current[i]) in HeldKeys(held)
    ensures Safe(hash, true, held, WriteOps(w))
  {
    forall i | 0 <= i < |w.current| ensures Guards(hash, Tx(true, held, None), CurrentRows(w.current)[i]) {
      var h := hash(w.current[i]);
      assert h in HeldKeys(held);
      var x :| x in held && x.lock.KeyLock? && x.lock.h == h;
      assert x == Hold(KeyLock(h), false);
    }
    WritesAreSafe(hash, true, held, w);
  }

  // ---------- every move ----------

  /** Each move asks only for what the order allows: nothing in CanMove says so. */
  lemma {:induction false} EveryMoveAllowed(hash: Key -> int, s: World, m: Move)
    requires WorldInv(hash, s) && CanMove(hash, s, m)
    ensures LockStep(s, m).Some? ==> Enabled(hash, s.locks, LockStep(s, m).value)
  {
    if m.Go? {
      var tx, p := s.locks.txs[m.id], s.scripts[m.id];
      assert Sound(hash, tx, p);
      assert Holding(tx) == tx.held && tx == Tx(tx.reverts, tx.held, None);
    }
  }

  lemma {:induction false} OthersSound(hash: Key -> int, s: World, m: Move, id: int)
    requires WorldInv(hash, s) && CanMove(hash, s, m) && id != m.id
    requires id in Moved(hash, s, m).scripts
    ensures id in s.scripts && id in Moved(hash, s, m).locks.txs
    ensures Sound(hash, Moved(hash, s, m).locks.txs[id], Moved(hash, s, m).scripts[id])
  {
    assert Sound(hash, s.locks.txs[id], s.scripts[id]);
  }

  lemma {:induction false} GoSound(hash: Key -> int, s: World, id: int)
    requires WorldInv(hash, s) && CanMove(hash, s, Go(id))
    ensures var s' := Moved(hash, s, Go(id)); id in s'.locks.txs && Sound(hash, s'.locks.txs[id], s'.scripts[id])
  {
    var tx, p := s.locks.txs[id], s.scripts[id];
    var tx' := Moved(hash, s, Go(id)).locks.txs[id];
    var op := p.todo[0];
    assert Sound(hash, tx, p) && Holding(tx) == tx.held;
    assert p.todo == [op] + p.todo[1..];
    if op.Ask? {
      assert Holding(tx') == tx.held + {op.hold};
    } else {
      assert Holding(tx') == tx.held || Holding(tx') == tx.held + {Hold(KeyLock(op.h), false)};
    }
  }

  lemma {:induction false} WakeSound(hash: Key -> int, s: World, id: int)
    requires WorldInv(hash, s) && CanMove(hash, s, Wake(id))
    ensures var s' := Moved(hash, s, Wake(id)); id in s'.locks.txs && Sound(hash, s'.locks.txs[id], s'.scripts[id])
  {
    var tx, tx' := s.locks.txs[id], Moved(hash, s, Wake(id)).locks.txs[id];
    assert Sound(hash, tx, s.scripts[id]) && Holding(tx') == Holding(tx);
  }

  lemma {:induction false} MoverSound(hash: Key -> int, s: World, m: Move)
    requires WorldInv(hash, s) && CanMove(hash, s, m) && !m.Finish?
    ensures var s' := Moved(hash, s, m);
            m.id in s'.locks.txs && m.id in s'.scripts && Sound(hash, s'.locks.txs[m.id], s'.scripts[m.id])
  {
    match m
    case BeginFlush(id, keys, waits, writes) =>
      FlushIsSafe(hash, keys, waits, writes);
      assert Holding(Tx(false, {}, None)) == {};
    case BeginRevert(id) =>
      RevertStarts(hash);
      assert Holding(Tx(true, {}, None)) == {};
    case ReadKeys(id, rows, waits, lower) =>
      var tx, p := s.locks.txs[id], s.scripts[id];
      assert Sound(hash, tx, p) && Holding(tx) == tx.held;
      RoundIsSafe(hash, tx.held, KeysOf(rows) - p.seen, waits, lower);
    case LastRead(id, rows, writes) =>
      var tx, p := s.locks.txs[id], s.scripts[id];
      assert Sound(hash, tx, p) && Holding(tx) == tx.held;
      LastReadIsSafe(hash, tx.held, writes);
    case Go(id) => GoSound(hash, s, id);
    case Wake(id) => WakeSound(hash, s, id);
  }

  lemma {:induction false} InvMove(hash: Key -> int, s: World, m: Move)
    requires WorldInv(hash, s) && CanMove(hash, s, m)
    ensures WorldInv(hash, Moved(hash, s, m))
  {
    EveryMoveAllowed(hash, s, m);
    var s' := Moved(hash, s, m);
    if LockStep(s, m).Some? {
      InvStep(hash, s.locks, LockStep(s, m).value);
    }
    forall id | id in s'.scripts ensures id in s'.locks.txs && Sound(hash, s'.locks.txs[id], s'.scripts[id]) {
      if id == m.id {
        MoverSound(hash, s, m);
      } else {
        OthersSound(hash, s, m, id);
      }
    }
    SameTransactions(hash, s, m);
  }

  lemma {:induction false} SameTransactions(hash: Key -> int, s: World, m: Move)
    requires WorldInv(hash, s) && CanMove(hash, s, m)
    ensures Moved(hash, s, m).scripts.Keys == Moved(hash, s, m).locks.txs.Keys
  {
  }

  // ---------- every run ----------

  const NOTHING := World(State(map[], 0), map[])

  /** Any interleaving of any number of flushes and reverts; a move says nothing about the lock order. */
  ghost predicate Runs(hash: Key -> int, worlds: seq<World>, moves: seq<Move>) {
    |worlds| == |moves| + 1 && worlds[0] == NOTHING && forall i :: 0 <= i < |moves| ==> MovesAt(hash, worlds, moves, i)
  }

  ghost predicate MovesAt(hash: Key -> int, worlds: seq<World>, moves: seq<Move>, i: int)
    requires |worlds| == |moves| + 1 && 0 <= i < |moves|
  {
    CanMove(hash, worlds[i], moves[i]) && worlds[i + 1] == Moved(hash, worlds[i], moves[i])
  }

  lemma {:induction false} InvRun(hash: Key -> int, worlds: seq<World>, moves: seq<Move>, k: int)
    requires Runs(hash, worlds, moves) && 0 <= k <= |moves|
    ensures WorldInv(hash, worlds[k])
    decreases k
  {
    if k > 0 {
      InvRun(hash, worlds, moves, k - 1);
      InvAt(hash, worlds, moves, k - 1);
    }
  }

  lemma {:induction false} InvAt(hash: Key -> int, worlds: seq<World>, moves: seq<Move>, i: int)
    requires Runs(hash, worlds, moves) && 0 <= i < |moves| && WorldInv(hash, worlds[i])
    ensures WorldInv(hash, worlds[i + 1])
  {
    assert MovesAt(hash, worlds, moves, i);
    InvMove(hash, worlds[i], moves[i]);
  }

  /** In every run of flushes and reverts, no chain of waits of any length comes back to where it started. */
  lemma {:induction false} NoDeadlock(hash: Key -> int, worlds: seq<World>, moves: seq<Move>, k: int, path: seq<int>)
    requires Runs(hash, worlds, moves) && 0 <= k <= |moves| && |path| >= 2 && Chain(worlds[k].locks, path)
    ensures path[0] != path[|path| - 1]
  {
    InvRun(hash, worlds, moves, k);
    NoCircle(hash, worlds[k].locks, path);
  }

  /** In every state of every run with a transaction under way, one of them waits for nothing or for a free lock. */
  lemma {:induction false} SomeoneGoesOn(hash: Key -> int, worlds: seq<World>, moves: seq<Move>,
                                         k: int) returns (id: int)
    requires Runs(hash, worlds, moves) && 0 <= k <= |moves| && worlds[k].scripts.Keys != {}
    ensures id in worlds[k].scripts && (Idle(worlds[k], id) || CanMove(hash, worlds[k], Wake(id)))
  {
    InvRun(hash, worlds, moves, k);
    id := Progress(hash, worlds[k].locks);
  }
}
