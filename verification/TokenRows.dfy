/** The token rows a block writer and a flush change, statement by statement. */
module TokenRows {
  import opened Sums
  import opened TokenCounters

  /** The flush's sum of each token's key movements. */
  method HolderDeltas(old': map<Key, int>, writes: seq<Write>) returns (delta: map<Token, int>)
    ensures forall t :: In(delta, t) == Movement(old', writes, |writes|, t)
  {
    delta := map[];
    for i := 0 to |writes|
      invariant forall t :: In(delta, t) == Movement(old', writes, i, t)
    {
      var w := writes[i];
      delta := delta[w.key.token := In(delta, w.key.token) + Positive(w.value) - Positive(Get(old', w.key))];
    }
  }

  /** The tokens upsert: a row that was not there is new, and to be seeded. */
  method CreateRows(rows: map<Token, Row>, tokens: seq<Token>) returns (rows': map<Token, Row>, seed: set<Token>)
    ensures forall t :: t in seed <==> t in tokens && t !in rows
    ensures forall t :: t in rows' <==> t in rows || t in tokens
    ensures forall t :: t in rows ==> rows'[t] == rows[t]
  {
    rows', seed := rows, {};
    for i := 0 to |tokens|
      invariant forall t :: t in seed <==> t in tokens[..i] && t !in rows
      invariant forall t :: t in rows' <==> t in rows || t in tokens[..i]
      invariant forall t :: t in rows ==> rows'[t] == rows[t]
    {
      if tokens[i] !in rows' {
        rows', seed := rows'[tokens[i] := Row(0, 0)], seed + {tokens[i]};
      }
    }
  }

  /** The seed of one created row: the counts on disk, this transaction's rows included when it stored them. */
  ghost function Seed(s: World, tx: Tx, t: Token): Row {
    Row(Transfers(s.blocks, t) + (if tx.seedsOwn then In(tx.own, t) else 0), Holders(s.current, t))
  }

  method SeedRows(rows: map<Token, Row>, seed: set<Token>, counted: map<Token, Row>) returns (rows': map<Token, Row>)
    requires forall t :: t in seed ==> t in counted && t in rows
    ensures rows'.Keys == rows.Keys
    ensures forall t :: t in rows ==> rows'[t] == if t in seed then counted[t] else rows[t]
  {
    rows' := rows;
    var todo := seed;
    while todo != {}
      invariant todo <= seed && rows'.Keys == rows.Keys
      invariant forall t :: t in rows ==> rows'[t] == if t in seed && t !in todo then counted[t] else rows[t]
      decreases |todo|
    {
      var t := Min(todo);
      rows', todo := rows'[t := counted[t]], todo - {t};
    }
  }

  method AddDeltas(rows: map<Token, Row>, deltas: map<Token, int>) returns (rows': map<Token, Row>)
    ensures rows'.Keys == rows.Keys
    ensures forall t :: t in rows ==> rows'[t] == rows[t].(transfers := rows[t].transfers + In(deltas, t))
  {
    rows' := rows;
    var todo := deltas.Keys;
    while todo != {}
      invariant todo <= deltas.Keys && rows'.Keys == rows.Keys
      invariant forall t :: t in rows ==>
                  rows'[t] == rows[t].(transfers := rows[t].transfers + if t in todo then 0 else In(deltas, t))
      decreases |todo|
    {
      var t := Min(todo);
      todo := todo - {t};
      if t in rows' {
        rows' := rows'[t := rows'[t].(transfers := rows'[t].transfers + deltas[t])];
      }
    }
  }

  /** A created row takes what the seed statement counted, and a delta is added unless the seed counted it already. */
  function Phased(rows: map<Token, Row>, tx: Tx, counted: map<Token, Row>, t: Token): Option<Row> {
    var isNew := t in tx.creates && t !in rows;
    var seeded := if isNew then Get(counted, t) else Get(rows, t);
    if seeded.None? then None
    else Some(seeded.value.(transfers := seeded.value.transfers + if tx.seedsOwn && isNew then 0 else In(tx.own, t)))
  }

  /** A block writer's token phases; counted is what the seed statement finds for the rows it creates. */
  method WriteTokenRows(rows: map<Token, Row>, tx: Tx, tokens: seq<Token>, counted: map<Token, Row>)
    returns (rows': map<Token, Row>)
    requires forall t :: t in tx.creates <==> t in tokens
    requires forall t :: t in tokens ==> t in counted
    ensures forall t :: Get(rows', t) == Phased(rows, tx, counted, t)
  {
    var created, seed := CreateRows(rows, tokens);
    var seeded := SeedRows(created, seed, counted);
    var deltas := if tx.seedsOwn then tx.own - seed else tx.own;
    rows' := AddDeltas(seeded, deltas);
    forall t ensures Get(rows', t) == Phased(rows, tx, counted, t) {
      assert t in rows' <==> t in rows || t in tokens;
    }
  }

  /** Each row the phases leave is the one its counters must have once the writer commits. */
  lemma {:induction false} PhasesWriteRows(s: World, tx: Tx, counted: map<Token, Row>, t: Token)
    requires tx.writes == [] && (t in s.rows ==> s.rows[t].holders >= 0)
    requires t in tx.creates && t !in s.rows ==> Get(counted, t) == Some(Seed(s, tx, t))
    ensures Phased(s.rows, tx, counted, t) == WrittenRow(s, tx, t)
  {
    assert Moved(tx, t) == 0;
  }
}
