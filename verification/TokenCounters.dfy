/**
 tokens.transfer_count and tokens.holder_count, kept by deltas while block writers, balance flushes and reverts
 overlap. A transaction is split where another can run between its statements; a token's advisory key serialises those
 that touch it.
 */
module TokenCounters {
  import opened Sums
  import BalanceEpochs

  type Token = int

  type Key = BalanceEpochs.Key

  /** A current-balance row set to a value, or removed. */
  datatype Write = Write(key: Key, value: Option<int>)

  datatype Row = Row(transfers: int, holders: int)

  datatype Phase = Begun | KeysHeld | TokensHeld | Written

  /**
   A block writer inserts own transfers of its block and creates token rows; a flush writes current balances. old' is
   the state of its balance keys that a flush read under their locks, tokens the token keys it holds, and pending the
   token rows it has written and not committed.
   */
  datatype Tx = Tx(block: Option<int>, own: map<Token, int>, creates: set<Token>, seedsOwn: bool,
                   writes: seq<Write>, old': map<Key, int>, tokens: set<Token>, pending: map<Token, Row>, phase: Phase)

  datatype World = World(blocks: map<int, map<Token, int>>, current: map<Key, int>, rows: map<Token, Row>,
                         active: map<int, Tx>)

  // ---------- what the counters count ----------

  function In(counts: map<Token, int>, t: Token): int { if t in counts then counts[t] else 0 }

  function At(blocks: map<int, map<Token, int>>, n: int, t: Token): int { if n in blocks then In(blocks[n], t) else 0 }

  /** The committed transfers of a token. */
  ghost function Transfers(blocks: map<int, map<Token, int>>, t: Token): int { Sum(blocks.Keys, n => At(blocks, n, t)) }

  function Positive(v: Option<int>): int { if v.Some? && v.value > 0 then 1 else 0 }

  function HolderKeys(current: map<Key, int>,
                      t: Token): set<Key> { set k | k in current && k.token == t && current[k] > 0 }

  function Holders(current: map<Key, int>, t: Token): int { |HolderKeys(current, t)| }

  lemma {:induction false} TransfersAdd(blocks: map<int, map<Token, int>>, n: int, own: map<Token, int>, t: Token)
    requires n !in blocks
    ensures Transfers(blocks[n := own], t) == Transfers(blocks, t) + In(own, t)
  {
    var blocks' := blocks[n := own];
    assert blocks'.Keys == blocks.Keys + {n};
    SumAdd(blocks.Keys, m => At(blocks', m, t), n);
    SumCong(blocks.Keys, m => At(blocks', m, t), m => At(blocks, m, t));
  }

  lemma {:induction false} TransfersRemove(blocks: map<int, map<Token, int>>, n: int, t: Token)
    ensures Transfers(blocks - {n}, t) == Transfers(blocks, t) - At(blocks, n, t)
  {
    if n in blocks {
      var less := blocks - {n};
      assert blocks == less[n := blocks[n]];
      TransfersAdd(less, n, blocks[n], t);
    } else {
      assert blocks - {n} == blocks;
    }
  }

  lemma {:induction false} Without(s: set<Key>, k: Key)
    ensures |s| == |s - {k}| + if k in s then 1 else 0
  {
    if k !in s {
      assert s - {k} == s;
    }
  }

  lemma {:induction false} HolderAt(current: map<Key, int>, k: Key, t: Token)
    ensures k in HolderKeys(current, t) <==> k.token == t && Positive(Get(current, k)) == 1
  {
  }

  lemma {:induction false} OtherHolders(current: map<Key, int>, k: Key, v: Option<int>, t: Token)
    ensures HolderKeys(Put(current, k, v), t) - {k} == HolderKeys(current, t) - {k}
  {
    forall x | x != k ensures x in HolderKeys(Put(current, k, v), t) <==> x in HolderKeys(current, t) {
      assert Get(Put(current, k, v), x) == Get(current, x);
      HolderAt(Put(current, k, v), x, t);
      HolderAt(current, x, t);
    }
  }

  lemma {:induction false} HoldersPut(current: map<Key, int>, k: Key, v: Option<int>, t: Token)
    ensures Holders(Put(current, k, v), t) ==
            Holders(current, t) + if k.token == t then Positive(v) - Positive(Get(current, k)) else 0
  {
    OtherHolders(current, k, v, t);
    HolderAt(Put(current, k, v), k, t);
    HolderAt(current, k, t);
    Without(HolderKeys(Put(current, k, v), t), k);
    Without(HolderKeys(current, t), k);
  }

  // ---------- a flush's balances ----------

  function KeyOf(w: Write): Key { w.key }

  function ValueOf(w: Write, was: Option<int>): Option<int> { w.value }

  /** The current balances once the first n writes are in. */
  function Balances(current: map<Key, int>, writes: seq<Write>, n: int): map<Key, int>
    requires 0 <= n <= |writes|
  {
    RowByRow(current, writes, n, KeyOf, ValueOf)
  }

  /** The holder_count movement of t: each key's new positivity minus its old one. */
  function Movement(old': map<Key, int>, writes: seq<Write>, n: int, t: Token): int
    requires 0 <= n <= |writes|
    decreases n
  {
    if n == 0 then 0 else
      var w := writes[n - 1];
      Movement(old', writes, n - 1, t) + if w.key.token == t then Positive(w.value) - Positive(Get(old', w.key)) else 0
  }

  function Moved(tx: Tx, t: Token): int { Movement(tx.old', tx.writes, |tx.writes|, t) }

  lemma {:induction false} MovementIsChange(current: map<Key, int>, writes: seq<Write>, n: int, t: Token)
    requires 0 <= n <= |writes| && DistinctKeys(writes, KeyOf)
    ensures Holders(Balances(current, writes, n), t) == Holders(current, t) + Movement(current, writes, n, t)
    decreases n
  {
    if n > 0 {
      var w := writes[n - 1];
      MovementIsChange(current, writes, n - 1, t);
      RowByRowElsewhere(current, writes, n - 1, KeyOf, ValueOf, w.key);
      HoldersPut(Balances(current, writes, n - 1), w.key, w.value, t);
    }
  }

  ghost predicate SameAt(a: map<Key, int>, b: map<Key, int>, writes: seq<Write>) {
    forall i :: 0 <= i < |writes| ==> Get(a, writes[i].key) == Get(b, writes[i].key)
  }

  lemma {:induction false} MovementCong(a: map<Key, int>, b: map<Key, int>, writes: seq<Write>, n: int, t: Token)
    requires 0 <= n <= |writes| && SameAt(a, b, writes)
    ensures Movement(a, writes, n, t) == Movement(b, writes, n, t)
    decreases n
  {
    if n > 0 {
      MovementCong(a, b, writes, n - 1, t);
    }
  }

  lemma {:induction false} MovementElsewhere(old': map<Key, int>, writes: seq<Write>, n: int, t: Token)
    requires 0 <= n <= |writes| && forall i :: 0 <= i < n ==> writes[i].key.token != t
    ensures Movement(old', writes, n, t) == 0
    decreases n
  {
    if n > 0 {
      MovementElsewhere(old', writes, n - 1, t);
    }
  }

  /** The tokens whose holder_count the transaction moves. */
  function MovedTokens(tx: Tx): set<Token> {
    set i | 0 <= i < |tx.writes| && Moved(tx, tx.writes[i].key.token) != 0 :: tx.writes[i].key.token
  }

  lemma {:induction false} MovedIsListed(tx: Tx, t: Token)
    ensures Moved(tx, t) != 0 <==> t in MovedTokens(tx)
  {
    if Moved(tx, t) != 0 && forall i :: 0 <= i < |tx.writes| ==> tx.writes[i].key.token != t {
      MovementElsewhere(tx.old', tx.writes, |tx.writes|, t);
    }
  }

  // ---------- the token rows a transaction writes ----------

  /**
   The row a transaction leaves for a token it holds. A row it creates is seeded from the committed transfers, its own
   included when it stores them first, and from the committed balances; the delta is added unless the seed counted it.
   */
  ghost function WrittenRow(s: World, tx: Tx, t: Token): Option<Row> {
    var delta := In(tx.own, t);
    if t in s.rows then Some(Row(s.rows[t].transfers + delta, Floor(s.rows[t].holders + Moved(tx, t))))
    else if t in tx.creates then
      var seeded := Transfers(s.blocks, t) + if tx.seedsOwn then delta else 0;
      Some(Row(seeded + if tx.seedsOwn then 0 else delta, Floor(Holders(s.current, t) + Moved(tx, t))))
    else None
  }

  ghost function WrittenRows(s: World, tx: Tx): map<Token, Row> {
    map t | t in tx.tokens && WrittenRow(s, tx, t).Some? :: WrittenRow(s, tx, t).value
  }

  // ---------- steps ----------

  datatype Step =
    | Begin(id: int, block: Option<int>, own: map<Token, int>, creates: set<Token>, seedsOwn: bool)
    | LockKeys(id: int, writes: seq<Write>)
    | LockTokens(id: int, also: set<Token>)
    | WriteRows(id: int)
    | Commit(id: int)
    | Rollback(id: int)
    | DeleteBlock(n: int, restored: seq<Write>)

  predicate KeysApart(a: seq<Write>, b: seq<Write>) {
    forall i, j :: 0 <= i < |a| && 0 <= j < |b| ==> a[i].key != b[j].key
  }

  function Doomed(s: World, n: int, restored: seq<Write>): set<Token> {
    (if n in s.blocks then s.blocks[n].Keys else {}) + set i | 0 <= i < |restored| :: restored[i].key.token
  }

  ghost predicate Enabled(s: World, step: Step) {
    match step
    case Begin(id, block, own, creates, _) =>
      && id !in s.active
      && (block.Some? ==> block.value !in s.blocks && forall j :: j in s.active ==> s.active[j].block != block)
      && (block.None? ==> own == map[] && creates == {})
    case LockKeys(id, writes) =>
      && id in s.active && s.active[id].phase.Begun? && s.active[id].block.None? && DistinctKeys(writes, KeyOf)
      && forall j :: j in s.active && j != id ==> KeysApart(s.active[j].writes, writes)
    case LockTokens(id, also) =>
      && id in s.active && !s.active[id].phase.TokensHeld? && !s.active[id].phase.Written?
      && forall j :: j in s.active && j != id ==> s.active[j].tokens !! Locks(s.active[id], also)
    case WriteRows(id) => id in s.active && s.active[id].phase.TokensHeld?
    case Commit(id) => id in s.active && s.active[id].phase.Written?
    case Rollback(id) => id in s.active
    case DeleteBlock(n, restored) =>
      && DistinctKeys(restored, KeyOf)
      && forall j :: j in s.active ==>
          KeysApart(s.active[j].writes, restored) && s.active[j].tokens !! Doomed(s, n, restored)
  }

  /**
   Every token the transaction's rows or balances touch; a block writer also locks those of transfers already
   stored.
   */
  function Locks(tx: Tx, also: set<Token>): set<Token> { tx.own.Keys + tx.creates + MovedTokens(tx) + also }

  function Landed(s: World, tx: Tx): World {
    s.(blocks := if tx.block.Some? then s.blocks[tx.block.value := tx.own] else s.blocks,
       current := Balances(s.current, tx.writes, |tx.writes|),
       rows := s.rows + tx.pending)
  }

  function RevertedRow(s: World, n: int, restored: seq<Write>, t: Token): Row
    requires t in s.rows
  {
    Row(Floor(s.rows[t].transfers - At(s.blocks, n, t)),
        Floor(s.rows[t].holders + Movement(s.current, restored, |restored|, t)))
  }

  function Deleted(s: World, n: int, restored: seq<Write>): World {
    s.(blocks := s.blocks - {n}, current := Balances(s.current, restored, |restored|),
       rows := map t | t in s.rows :: RevertedRow(s, n, restored, t))
  }

  ghost function Apply(s: World, step: Step): World
    requires Enabled(s, step)
  {
    match step
    case Begin(id, block, own, creates, seedsOwn) =>
      s.(active := s.active[id := Tx(block, own, creates, seedsOwn, [], map[], {}, map[], Begun)])
    case LockKeys(id, writes) =>
      s.(active := s.active[id := s.active[id].(writes := writes, old' := s.current, phase := KeysHeld)])
    case LockTokens(id, also) =>
      s.(active := s.active[id := s.active[id].(tokens := Locks(s.active[id], also), phase := TokensHeld)])
    case WriteRows(id) =>
      s.(active := s.active[id := s.active[id].(pending := WrittenRows(s, s.active[id]), phase := Written)])
    case Commit(id) => Landed(s, s.active[id]).(active := s.active - {id})
    case Rollback(id) => s.(active := s.active - {id})
    case DeleteBlock(n, restored) => Deleted(s, n, restored)
  }

  ghost predicate Feasible(s: World, steps: seq<Step>) decreases |steps| {
    steps == [] || (Enabled(s, steps[0]) && Feasible(Apply(s, steps[0]), steps[1..]))
  }

  ghost function Run(s: World, steps: seq<Step>): World
    requires Feasible(s, steps)
    decreases |steps|
  {
    if steps == [] then s else Run(Apply(s, steps[0]), steps[1..])
  }

  // ---------- the invariant ----------

  ghost predicate Exact(s: World, t: Token) {
    t in s.rows ==> s.rows[t].transfers == Transfers(s.blocks, t) && s.rows[t].holders == Holders(s.current, t)
  }

  /**
   What a transaction relies on while others run: its keys are as it read them, and its rows will be right once it
   lands.
   */
  ghost predicate Ready(s: World, tx: Tx, t: Token) {
    && (tx.phase.TokensHeld? || tx.phase.Written? ==> (t in tx.own || t in tx.creates || Moved(tx, t) != 0 ==>
        t in tx.tokens))
    && (t in tx.pending ==>
          t in tx.tokens && tx.phase.Written?
          && tx.pending[t].transfers == Transfers(s.blocks, t) + In(tx.own, t)
          && tx.pending[t].holders == Holders(s.current, t) + Moved(tx, t))
    && (tx.phase.Written? && t in tx.tokens && t in s.rows ==> t in tx.pending)
    && (tx.phase.Written? && t in tx.creates ==> t in tx.pending)
    && (t in tx.pending ==> t in s.rows || t in tx.creates)
  }

  ghost predicate Sound(s: World, tx: Tx) {
    && SameAt(tx.old', s.current, tx.writes) && DistinctKeys(tx.writes, KeyOf)
    && (tx.block.Some? ==> tx.block.value !in s.blocks) && (tx.block.None? ==> tx.own == map[])
  }

  ghost predicate Apart(s: World) {
    forall i, j :: i in s.active && j in s.active && i != j ==>
      && s.active[i].tokens !! s.active[j].tokens && KeysApart(s.active[i].writes, s.active[j].writes)
      && (s.active[i].block.Some? ==> s.active[i].block != s.active[j].block)
  }

  ghost predicate Inv(s: World) {
    && Apart(s)
    && (forall t :: Exact(s, t))
    && (forall i :: i in s.active ==> Sound(s, s.active[i]))
    && (forall i, t :: i in s.active ==> Ready(s, s.active[i], t))
  }

  // ---------- every step keeps it ----------

  /** A landing leaves the counts of a token it holds no key for. */
  lemma {:induction false} LandedCounts(s: World, tx: Tx, t: Token)
    requires Sound(s, tx)
    ensures Transfers(Landed(s, tx).blocks, t) == Transfers(s.blocks, t) + In(tx.own, t)
    ensures Holders(Landed(s, tx).current, t) == Holders(s.current, t) + Moved(tx, t)
  {
    MovementCong(tx.old', s.current, tx.writes, |tx.writes|, t);
    MovementIsChange(s.current, tx.writes, |tx.writes|, t);
    if tx.block.Some? {
      TransfersAdd(s.blocks, tx.block.value, tx.own, t);
    }
  }

  lemma {:induction false} DeletedCounts(s: World, n: int, restored: seq<Write>, t: Token)
    requires DistinctKeys(restored, KeyOf)
    ensures var s' := Deleted(s, n, restored);
            && Transfers(s'.blocks, t) == Transfers(s.blocks, t) - At(s.blocks, n, t)
            && Holders(s'.current, t) == Holders(s.current, t) + Movement(s.current, restored, |restored|, t)
            && (t !in Doomed(s, n, restored) ==>
                Transfers(s'.blocks, t) == Transfers(s.blocks, t) && Holders(s'.current, t) == Holders(s.current, t))
  {
    TransfersRemove(s.blocks, n, t);
    MovementIsChange(s.current, restored, |restored|, t);
    if t !in Doomed(s, n, restored) {
      MovementElsewhere(s.current, restored, |restored|, t);
    }
  }

  ghost predicate CountsFit(s: World) {
    forall n, t :: n in s.blocks && t in s.blocks[n] ==> s.blocks[n][t] >= 0
  }

  lemma {:induction false} TransfersCover(s: World, n: int, t: Token)
    requires CountsFit(s)
    ensures 0 <= At(s.blocks, n, t) <= Transfers(s.blocks, t)
  {
    SumNonNegative(s.blocks.Keys, m => At(s.blocks, m, t));
    if n in s.blocks {
      SumExtract(s.blocks.Keys, m => At(s.blocks, m, t), n);
      SumNonNegative(s.blocks.Keys - {n}, m => At(s.blocks, m, t));
    }
  }

  lemma {:induction false} LandedExact(s: World, tx: Tx, t: Token)
    requires Sound(s, tx) && Ready(s, tx, t) && Exact(s, t) && tx.phase.Written?
    ensures Exact(Landed(s, tx), t)
  {
    LandedCounts(s, tx, t);
  }

  lemma {:induction false} DeletedExact(s: World, n: int, restored: seq<Write>, t: Token)
    requires DistinctKeys(restored, KeyOf) && Exact(s, t) && CountsFit(s)
    ensures Exact(Deleted(s, n, restored), t)
  {
    DeletedCounts(s, n, restored, t);
    TransfersCover(s, n, t);
  }

  lemma {:induction false} KeepsExact(s: World, step: Step, t: Token)
    requires Inv(s) && CountsFit(s) && Enabled(s, step)
    ensures Exact(Apply(s, step), t)
  {
    assert Exact(s, t);
    match step
    case Commit(id) =>
      LandedExact(s, s.active[id], t);
    case DeleteBlock(n, restored) =>
      DeletedExact(s, n, restored, t);
    case _ =>
  }

  lemma {:induction false} BalancesElsewhere(current: map<Key, int>, writes: seq<Write>, others: seq<Write>)
    requires KeysApart(others, writes)
    ensures SameAt(current, Balances(current, writes, |writes|), others)
  {
    forall i | 0 <= i < |others| ensures Get(current, others[i].key) == Get(Balances(current, writes, |writes|),
          others[i].key) {
      RowByRowElsewhere(current, writes, |writes|, KeyOf, ValueOf, others[i].key);
    }
  }

  lemma {:induction false} KeepsSound(s: World, step: Step, i: int)
    requires Inv(s) && Enabled(s, step) && i in Apply(s, step).active
    ensures Sound(Apply(s, step), Apply(s, step).active[i])
  {
    if i in s.active {
      assert Sound(s, s.active[i]);
    }
    match step
    case Commit(id) => BalancesElsewhere(s.current, s.active[id].writes, s.active[i].writes);
    case DeleteBlock(n, restored) => BalancesElsewhere(s.current, restored, s.active[i].writes);
    case _ =>
  }

  lemma {:induction false} WrittenReady(s: World, tx: Tx, t: Token)
    requires Exact(s, t) && Sound(s, tx) && Ready(s, tx, t) && tx.phase.TokensHeld?
    ensures Ready(s, tx.(pending := WrittenRows(s, tx), phase := Written), t)
  {
    LandedCounts(s, tx, t);
  }

  lemma {:induction false} KeepsReady(s: World, step: Step, i: int, t: Token)
    requires Inv(s) && Enabled(s, step) && i in Apply(s, step).active
    ensures Ready(Apply(s, step), Apply(s, step).active[i], t)
  {
    assert Exact(s, t);
    if i in s.active {
      assert Ready(s, s.active[i], t) && Sound(s, s.active[i]);
    }
    match step
    case LockTokens(id, also) => MovedIsListed(s.active[id], t);
    case WriteRows(id) =>
      if i == id {
        WrittenReady(s, s.active[id], t);
      }
    case Commit(id) =>
      assert Sound(s, s.active[id]) && Ready(s, s.active[id], t);
      LandedCounts(s, s.active[id], t);
    case DeleteBlock(n, restored) => DeletedCounts(s, n, restored, t);
    case _ =>
  }

  // ---------- every run ----------

  /** A block's own counts of its transfers are not negative. */
  ghost predicate Natural(s: World) {
    CountsFit(s) && forall i, t :: i in s.active && t in s.active[i].own ==> s.active[i].own[t] >= 0
  }

  predicate BeginsNatural(step: Step) {
    step.Begin? ==> forall t :: t in step.own ==> step.own[t] >= 0
  }

  lemma {:induction false} KeepsApart(s: World, step: Step)
    requires Apart(s) && Enabled(s, step)
    ensures Apart(Apply(s, step))
  {
  }

  lemma {:induction false} KeepsNatural(s: World, step: Step)
    requires Inv(s) && Natural(s) && Enabled(s, step) && BeginsNatural(step)
    ensures Natural(Apply(s, step))
  {
  }

  lemma {:induction false} InvStep(s: World, step: Step)
    requires Inv(s) && Natural(s) && Enabled(s, step) && BeginsNatural(step)
    ensures Inv(Apply(s, step)) && Natural(Apply(s, step))
  {
    var s' := Apply(s, step);
    KeepsApart(s, step);
    KeepsNatural(s, step);
    forall t ensures Exact(s', t) {
      KeepsExact(s, step, t);
    }
    forall i | i in s'.active ensures Sound(s', s'.active[i]) {
      KeepsSound(s, step, i);
    }
    forall i, t | i in s'.active ensures Ready(s', s'.active[i], t) {
      KeepsReady(s, step, i, t);
    }
  }

  /** In every interleaving, each token row counts exactly the committed transfers and the current holders. */
  lemma {:induction false} CountersExact(s: World, steps: seq<Step>)
    requires Inv(s) && Natural(s) && Feasible(s, steps)
    requires forall i :: 0 <= i < |steps| ==> BeginsNatural(steps[i])
    ensures Inv(Run(s, steps)) && Natural(Run(s, steps))
    ensures forall t :: Exact(Run(s, steps), t)
    decreases |steps|
  {
    if steps != [] {
      InvStep(s, steps[0]);
      CountersExact(Apply(s, steps[0]), steps[1..]);
    }
  }

  /** The tokens created by the writers that commit in a run. */
  ghost function Created(s: World, steps: seq<Step>): set<Token>
    requires Feasible(s, steps)
    decreases |steps|
  {
    if steps == [] then {}
    else (if steps[0].Commit? then s.active[steps[0].id].creates else {}) + Created(Apply(s, steps[0]), steps[1..])
  }

  /** A commit adds the rows its transaction creates, and nothing else adds a row or removes one. */
  lemma {:induction false} StepRows(s: World, step: Step)
    requires Inv(s) && Enabled(s, step)
    ensures Apply(s, step).rows.Keys == s.rows.Keys + if step.Commit? then s.active[step.id].creates else {}
  {
    if step.Commit? {
      var tx := s.active[step.id];
      forall t ensures t in s.rows.Keys + tx.pending.Keys <==> t in s.rows.Keys + tx.creates {
        assert Ready(s, tx, t);
      }
      assert Apply(s, step).rows.Keys == s.rows.Keys + tx.pending.Keys;
    }
  }

  /** After any run the tokens with a row are those that had one and those a committed writer created. */
  lemma {:induction false} RowsExactly(s: World, steps: seq<Step>)
    requires Inv(s) && Natural(s) && Feasible(s, steps)
    requires forall i :: 0 <= i < |steps| ==> BeginsNatural(steps[i])
    ensures Run(s, steps).rows.Keys == s.rows.Keys + Created(s, steps)
    decreases |steps|
  {
    if steps != [] {
      InvStep(s, steps[0]);
      StepRows(s, steps[0]);
      RowsExactly(Apply(s, steps[0]), steps[1..]);
    }
  }

  /** A database with nothing in it meets the invariant. */
  lemma {:induction false} EmptyIsExact()
    ensures var s := World(map[], map[], map[], map[]); Inv(s) && Natural(s)
  {
  }
}
