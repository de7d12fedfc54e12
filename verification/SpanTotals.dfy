/** What a span of blocks contributes to the ledger, block by block and in parts. */
module SpanTotals {
  import opened Sums

  const ZERO_ADDRESS := 0

  /** A token transfer; value is None when it is not a number. */
  datatype Transfer = Transfer(token: int, erc20: bool, from: int, to: int, value: Option<int>)

  /** What a block adds to one address. */
  datatype Delta = Delta(txs: int, sent: int, internal: int, transfers: int)

  datatype BlockData = BlockData(number: int, txs: int, transfers: seq<Transfer>, addresses: map<int, Delta>)

  datatype Token = Token(transfers: int, supply: int)

  datatype Address = Address(txs: int, sent: int, internal: int, transfers: int, first: int, last: int)

  datatype Totals = Totals(blocks: int, txs: int, transfers: int, tokens: map<int, Token>, addresses: map<int, Address>)

  const NOTHING := Totals(0, 0, 0, map[], map[])

  // ---------- adding up ----------

  function PlusToken(a: Token, b: Token): Token { Token(a.transfers + b.transfers, a.supply + b.supply) }

  function PlusAddress(a: Address, b: Address): Address {
    Address(a.txs + b.txs, a.sent + b.sent, a.internal + b.internal, a.transfers + b.transfers,
            if b.first < a.first then b.first else a.first, if b.last > a.last then b.last else a.last)
  }

  function Merge<V>(a: map<int, V>, b: map<int, V>, f: (V, V) -> V): map<int, V> {
    map k | k in a.Keys + b.Keys :: if k in a && k in b then f(a[k], b[k]) else if k in a then a[k] else b[k]
  }

  lemma {:induction false} MergeAssoc<V(!new)>(a: map<int, V>, b: map<int, V>, c: map<int, V>, f: (V, V) -> V)
    requires forall x, y, z :: f(f(x, y), z) == f(x, f(y, z))
    ensures Merge(Merge(a, b, f), c, f) == Merge(a, Merge(b, c, f), f)
  {
    forall k ensures Get(Merge(Merge(a, b, f), c, f), k) == Get(Merge(a, Merge(b, c, f), f), k) {
    }
    SameRows(Merge(Merge(a, b, f), c, f), Merge(a, Merge(b, c, f), f));
  }

  function Plus(a: Totals, b: Totals): Totals {
    Totals(a.blocks + b.blocks, a.txs + b.txs, a.transfers + b.transfers,
           Merge(a.tokens, b.tokens, PlusToken), Merge(a.addresses, b.addresses, PlusAddress))
  }

  lemma {:induction false} PlusAssoc(a: Totals, b: Totals, c: Totals)
    ensures Plus(Plus(a, b), c) == Plus(a, Plus(b, c))
  {
    assert forall x, y, z :: PlusToken(PlusToken(x, y), z) == PlusToken(x, PlusToken(y, z));
    assert forall x, y, z :: PlusAddress(PlusAddress(x, y), z) == PlusAddress(x, PlusAddress(y, z));
    MergeAssoc(a.tokens, b.tokens, c.tokens, PlusToken);
    MergeAssoc(a.addresses, b.addresses, c.addresses, PlusAddress);
  }

  lemma {:induction false} PlusNothing(a: Totals)
    ensures Plus(a, NOTHING) == a && Plus(NOTHING, a) == a
  {
  }

  // ---------- one block ----------

  /** Supply is minted from the zero address and burnt to it; a transfer that does both nets to nothing. */
  function SupplyOf(t: Transfer): int {
    if !t.erc20 || t.value.None? then 0
    else (if t.from == ZERO_ADDRESS then t.value.value else 0) - (if t.to == ZERO_ADDRESS then t.value.value else 0)
  }

  predicate Counts(b: BlockData) { forall i :: 0 <= i < |b.transfers| ==> Parses(b.transfers[i]) }

  function OneToken(t: Transfer): map<int, Token> { map[t.token := Token(1, SupplyOf(t))] }

  function TokensOf(ts: seq<Transfer>, n: int): map<int, Token>
    requires 0 <= n <= |ts|
  {
    if n == 0 then map[] else Merge(TokensOf(ts, n - 1), OneToken(ts[n - 1]), PlusToken)
  }

  function AddressesOf(b: BlockData): map<int, Address> {
    map a | a in b.addresses ::
      var d := b.addresses[a]; Address(d.txs, d.sent, d.internal, d.transfers, b.number, b.number)
  }

  /** What a block contributes on its own. */
  function Of(b: BlockData): Totals {
    Totals(1, b.txs, |b.transfers|, TokensOf(b.transfers, |b.transfers|), AddressesOf(b))
  }

  function TransfersOf(ts: seq<Transfer>, n: int, token: int): int
    requires 0 <= n <= |ts|
  {
    if n == 0 then 0 else TransfersOf(ts, n - 1, token) + if ts[n - 1].token == token then 1 else 0
  }

  /** The ERC-20 values of a token's transfers sent from, or to, the zero address. */
  function ValueOf(t: Transfer): int { if t.erc20 && t.value.Some? then t.value.value else 0 }

  function Minted(ts: seq<Transfer>, n: int, token: int): int
    requires 0 <= n <= |ts|
  {
    if n == 0 then 0 else
      Minted(ts, n - 1, token)
      + if ts[n - 1].token == token && ts[n - 1].from == ZERO_ADDRESS then ValueOf(ts[n - 1]) else 0
  }

  function Burnt(ts: seq<Transfer>, n: int, token: int): int
    requires 0 <= n <= |ts|
  {
    if n == 0 then 0 else
      Burnt(ts, n - 1, token)
      + if ts[n - 1].token == token && ts[n - 1].to == ZERO_ADDRESS then ValueOf(ts[n - 1]) else 0
  }

  /** A token's share of a block is the count of its transfers and their mints less their burns. */
  lemma {:induction false} TokenShare(ts: seq<Transfer>, n: int, token: int)
    requires 0 <= n <= |ts|
    ensures var count, supply := TransfersOf(ts, n, token), Minted(ts, n, token) - Burnt(ts, n, token);
            && Get(TokensOf(ts, n), token) == (if count == 0 then None else Some(Token(count, supply)))
            && count >= 0 && (count == 0 ==> supply == 0)
    decreases n
  {
    if n > 0 {
      TokenShare(ts, n - 1, token);
    }
  }

  predicate Parses(t: Transfer) { !t.erc20 || t.value.Some? }

  /** A transfer is counted before its value is read, so one that is not a number has counted and moved no supply. */
  method AddTransfer(tokens: map<int, Token>, t: Transfer) returns (tokens': map<int, Token>, ok: bool)
    ensures ok <==> Parses(t)
    ensures tokens' == Merge(tokens, OneToken(t), PlusToken)
  {
    var tt := if t.token in tokens then tokens[t.token] else Token(0, 0);
    tt := tt.(transfers := tt.transfers + 1);
    ok := true;
    if t.erc20 {
      if t.value.None? {
        ok := false;
      } else {
        if t.from == ZERO_ADDRESS {
          tt := tt.(supply := tt.supply + t.value.value);
        }
        if t.to == ZERO_ADDRESS {
          tt := tt.(supply := tt.supply - t.value.value);
        }
      }
    }
    tokens' := tokens[t.token := tt];
    assert tokens' == Merge(tokens, OneToken(t), PlusToken);
  }

  /** The transfers up to the first whose value is not a number, that one included. */
  function Reached(ts: seq<Transfer>, n: int): int
    requires 0 <= n <= |ts|
    decreases |ts| - n
  {
    if n == |ts| then n else if Parses(ts[n]) then Reached(ts, n + 1) else n + 1
  }

  lemma {:induction false} ReachedInside(ts: seq<Transfer>, n: int)
    requires 0 <= n <= |ts|
    ensures n <= Reached(ts, n) <= |ts|
    decreases |ts| - n
  {
    if n < |ts| && Parses(ts[n]) {
      ReachedInside(ts, n + 1);
    }
  }

  method AddTransfers(tokens: map<int, Token>, ts: seq<Transfer>) returns (tokens': map<int, Token>, ok: bool)
    ensures ok <==> forall i :: 0 <= i < |ts| ==> Parses(ts[i])
    ensures 0 <= Reached(ts, 0) <= |ts| && (ok ==> Reached(ts, 0) == |ts|)
    ensures tokens' == Merge(tokens, TokensOf(ts, Reached(ts, 0)), PlusToken)
  {
    ReachedInside(ts, 0);
    tokens' := tokens;
    for i := 0 to |ts|
      invariant tokens' == Merge(tokens, TokensOf(ts, i), PlusToken) && Reached(ts, i) == Reached(ts, 0)
      invariant forall j :: 0 <= j < i ==> Parses(ts[j])
    {
      tokens', ok := AddTransfer(tokens', ts[i]);
      TokensAssoc(tokens, TokensOf(ts, i), OneToken(ts[i]));
      if !ok {
        return;
      }
    }
    ok := true;
  }

  lemma {:induction false} TokensAssoc(a: map<int, Token>, b: map<int, Token>, c: map<int, Token>)
    ensures Merge(Merge(a, b, PlusToken), c, PlusToken) == Merge(a, Merge(b, c, PlusToken), PlusToken)
  {
    assert forall x, y, z :: PlusToken(PlusToken(x, y), z) == PlusToken(x, PlusToken(y, z));
    MergeAssoc(a, b, c, PlusToken);
  }

  /** What a block that fails has added by then: its counts, its transfers that far, and no address. */
  function Broken(b: BlockData): Totals
    requires 0 <= Reached(b.transfers, 0) <= |b.transfers|
  {
    Totals(1, b.txs, |b.transfers|, TokensOf(b.transfers, Reached(b.transfers, 0)), map[])
  }

  /**
   Adding a block to a span's totals, or an error for a transfer value that is not a number; what was added before the
   error stays, so the totals are of no use then.
   */
  method AddBlock(s: Totals, b: BlockData) returns (s': Totals, ok: bool)
    ensures ok <==> Counts(b)
    ensures ok ==> s' == Plus(s, Of(b))
    ensures !ok ==> 0 <= Reached(b.transfers, 0) <= |b.transfers| && s' == Plus(s, Broken(b))
  {
    var tokens;
    tokens, ok := AddTransfers(s.tokens, b.transfers);
    s' := Totals(s.blocks + 1, s.txs + b.txs, s.transfers + |b.transfers|, tokens, s.addresses);
    if !ok {
      assert Merge(s.addresses, map[], PlusAddress) == s.addresses;
      return;
    }
    s' := s'.(addresses := Merge(s.addresses, AddressesOf(b), PlusAddress));
  }

  // ---------- a range of blocks ----------

  /** The sum over the blocks from lo to hi, hi excluded. */
  function Fold(data: int -> BlockData, lo: int, hi: int): Totals
    decreases hi - lo
  {
    if hi <= lo then NOTHING else Plus(Fold(data, lo, hi - 1), Of(data(hi - 1)))
  }

  /** A range counted in two parts is the range counted at once. */
  lemma {:induction false} FoldSplits(data: int -> BlockData, lo: int, mid: int, hi: int)
    requires lo <= mid <= hi
    ensures Plus(Fold(data, lo, mid), Fold(data, mid, hi)) == Fold(data, lo, hi)
    decreases hi - mid
  {
    if mid == hi {
      PlusNothing(Fold(data, lo, mid));
    } else {
      FoldSplits(data, lo, mid, hi - 1);
      PlusAssoc(Fold(data, lo, mid), Fold(data, mid, hi - 1), Of(data(hi - 1)));
    }
  }

  /** So every block counts once. */
  lemma {:induction false} FoldCountsBlocks(data: int -> BlockData, lo: int, hi: int)
    requires lo <= hi
    ensures Fold(data, lo, hi).blocks == hi - lo
    decreases hi - lo
  {
    if lo < hi {
      FoldCountsBlocks(data, lo, hi - 1);
    }
  }
}
