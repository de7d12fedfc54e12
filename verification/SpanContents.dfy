/** What a range of blocks adds up to, block by block: a span's totals said without the way they are added. */
module SpanContents {
  import opened Sums
  import opened SpanTotals

  type Data = int -> BlockData

  predicate Within(lo: int, n: int, hi: int) { lo <= n < hi }

  function Range(lo: int, hi: int): set<int> { set n | lo <= n < hi && Within(lo, n, hi) }

  lemma {:induction false} RangeSnoc(lo: int, hi: int)
    requires lo < hi
    ensures Range(lo, hi) == Range(lo, hi - 1) + {hi - 1} && hi - 1 !in Range(lo, hi - 1)
  {
  }

  // ---------- the chain's counters ----------

  function TxsAt(data: Data): int -> int { n => data(n).txs }

  function TransfersAt(data: Data): int -> int { n => |data(n).transfers| }

  lemma {:induction false} FoldCounts(data: Data, lo: int, hi: int)
    requires lo <= hi
    ensures var f := Fold(data, lo, hi);
            && f.blocks == hi - lo && f.txs == Sum(Range(lo, hi), TxsAt(data))
            && f.transfers == Sum(Range(lo, hi), TransfersAt(data))
    decreases hi - lo
  {
    if lo < hi {
      FoldCounts(data, lo, hi - 1);
      RangeSnoc(lo, hi);
      SumAdd(Range(lo, hi - 1), TxsAt(data), hi - 1);
      SumAdd(Range(lo, hi - 1), TransfersAt(data), hi - 1);
    } else {
      assert Range(lo, hi) == {};
    }
  }

  // ---------- an address ----------

  /** The blocks of the range that list the address. */
  function Listing(data: Data, lo: int, hi: int, a: int): set<int> { set n | lo <= n < hi && a in data(n).addresses }

  function DeltaAt(data: Data, a: int, n: int): Delta {
    if a in data(n).addresses then data(n).addresses[a] else Delta(0, 0, 0, 0)
  }

  function AddressTxs(data: Data, a: int): int -> int { n => DeltaAt(data, a, n).txs }
  function AddressSent(data: Data, a: int): int -> int { n => DeltaAt(data, a, n).sent }
  function AddressInternal(data: Data, a: int): int -> int { n => DeltaAt(data, a, n).internal }
  function AddressTransfers(data: Data, a: int): int -> int { n => DeltaAt(data, a, n).transfers }

  /** Each block's data carries its own number. */
  ghost predicate Numbered(data: Data) { forall n :: data(n).number == n }

  /** The address's four counters are sums over the blocks that list it, and it was first and last seen in them. */
  ghost predicate Holds(data: Data, s: set<int>, a: int, t: Address) {
    && s != {} && t.first == Min(s) && t.last == Max(s)
    && t.txs == Sum(s, AddressTxs(data, a)) && t.sent == Sum(s, AddressSent(data, a))
    && t.internal == Sum(s, AddressInternal(data, a)) && t.transfers == Sum(s, AddressTransfers(data, a))
  }

  lemma {:induction false} HoldsMore(data: Data, s: set<int>, a: int, t: Address, n: int)
    requires Numbered(data) && n !in s && a in data(n).addresses && (s != {} ==> Holds(data, s, a, t))
    ensures var one := AddressesOf(data(n))[a];
            Holds(data, s + {n}, a, if s == {} then one else PlusAddress(t, one))
  {
    SumAdd(s, AddressTxs(data, a), n);
    SumAdd(s, AddressSent(data, a), n);
    SumAdd(s, AddressInternal(data, a), n);
    SumAdd(s, AddressTransfers(data, a), n);
    MinMaxOfAdd(s, n);
    assert MinOf(s + {n}) == Some(Min(s + {n})) && MaxOf(s + {n}) == Some(Max(s + {n}));
  }

  function JoinAddresses(x: Option<Address>, y: Option<Address>): Option<Address> {
    if x.None? then y else if y.None? then x else Some(PlusAddress(x.value, y.value))
  }

  lemma {:induction false} PlusAddresses(x: Totals, y: Totals, a: int)
    ensures Get(Plus(x, y).addresses, a) == JoinAddresses(Get(x.addresses, a), Get(y.addresses, a))
  {
  }

  /** The address's row in a range's totals, one block's after another. */
  function AddressRow(data: Data, lo: int, hi: int, a: int): Option<Address>
    decreases hi - lo
  {
    if hi <= lo then None else JoinAddresses(AddressRow(data, lo, hi - 1, a), Get(AddressesOf(data(hi - 1)), a))
  }

  lemma {:induction false} FoldAddressRow(data: Data, lo: int, hi: int, a: int)
    ensures Get(Fold(data, lo, hi).addresses, a) == AddressRow(data, lo, hi, a)
    decreases hi - lo
  {
    if lo < hi {
      FoldAddressRow(data, lo, hi - 1, a);
      PlusAddresses(Fold(data, lo, hi - 1), Of(data(hi - 1)), a);
    }
  }

  ghost predicate AddressIs(data: Data, s: set<int>, a: int, t: Option<Address>) {
    (t.Some? <==> s != {}) && (t.Some? ==> Holds(data, s, a, t.value))
  }

  lemma {:induction false} ListingSnoc(data: Data, lo: int, n: int, a: int)
    requires lo <= n
    ensures n !in Listing(data, lo, n, a)
    ensures Listing(data, lo, n + 1, a) == Listing(data, lo, n, a) + if a in data(n).addresses then {n} else {}
  {
  }

  lemma {:induction false} AddressIsMore(data: Data, s: set<int>, a: int, row: Option<Address>, n: int)
    requires Numbered(data) && n !in s && AddressIs(data, s, a, row)
    ensures AddressIs(data, s + (if a in data(n).addresses then {n} else {}), a,
                      JoinAddresses(row, Get(AddressesOf(data(n)), a)))
  {
    if a in data(n).addresses {
      HoldsMore(data, s, a, if row.Some? then row.value else AddressesOf(data(n))[a], n);
    } else {
      assert s + {} == s;
    }
  }

  lemma {:induction false} AddressRowIs(data: Data, lo: int, hi: int, a: int)
    requires Numbered(data) && lo <= hi
    ensures AddressIs(data, Listing(data, lo, hi, a), a, AddressRow(data, lo, hi, a))
    decreases hi - lo
  {
    if lo < hi {
      AddressRowIs(data, lo, hi - 1, a);
      ListingSnoc(data, lo, hi - 1, a);
      AddressIsMore(data, Listing(data, lo, hi - 1, a), a, AddressRow(data, lo, hi - 1, a), hi - 1);
    } else {
      assert Listing(data, lo, hi, a) == {};
    }
  }

  /** An address is in a range's totals exactly when a block lists it, with its sums and its first and last block. */
  lemma {:induction false} FoldAddress(data: Data, lo: int, hi: int, a: int)
    requires Numbered(data) && lo <= hi
    ensures AddressIs(data, Listing(data, lo, hi, a), a, Get(Fold(data, lo, hi).addresses, a))
  {
    FoldAddressRow(data, lo, hi, a);
    AddressRowIs(data, lo, hi, a);
  }

  // ---------- a token ----------

  function CountAt(data: Data, token: int): int -> int {
    n => TransfersOf(data(n).transfers, |data(n).transfers|, token)
  }

  function SupplyAt(data: Data, token: int): int -> int {
    n => Minted(data(n).transfers, |data(n).transfers|, token) - Burnt(data(n).transfers, |data(n).transfers|, token)
  }

  /** No transfer and no row, or the row of that many transfers and that supply. */
  predicate TokenIs(t: Option<Token>, count: int, supply: int) {
    count >= 0 && (count == 0 ==> supply == 0) && t == if count == 0 then None else Some(Token(count, supply))
  }

  function JoinTokens(x: Option<Token>, y: Option<Token>): Option<Token> {
    if x.None? then y else if y.None? then x
    else Some(Token(x.value.transfers + y.value.transfers, x.value.supply + y.value.supply))
  }

  lemma {:induction false} TokenIsJoined(x: Option<Token>, y: Option<Token>, c: int, s: int, d: int, t: int)
    requires TokenIs(x, c, s) && TokenIs(y, d, t)
    ensures TokenIs(JoinTokens(x, y), c + d, s + t)
  {
  }

  lemma {:induction false} PlusTokens(x: Totals, y: Totals, token: int)
    ensures Get(Plus(x, y).tokens, token) == JoinTokens(Get(x.tokens, token), Get(y.tokens, token))
  {
  }

  function TokenAt(data: Data, token: int): int -> Option<Token> { n => Get(Of(data(n)).tokens, token) }

  /** Rows joined one block's after another. */
  function JoinAll(rows: int -> Option<Token>, lo: int, hi: int): Option<Token>
    decreases hi - lo
  {
    if hi <= lo then None else JoinTokens(JoinAll(rows, lo, hi - 1), rows(hi - 1))
  }

  lemma {:induction false} FoldTokenRow(data: Data, lo: int, hi: int, token: int)
    ensures Get(Fold(data, lo, hi).tokens, token) == JoinAll(TokenAt(data, token), lo, hi)
    decreases hi - lo
  {
    if lo < hi {
      FoldTokenRow(data, lo, hi - 1, token);
      PlusTokens(Fold(data, lo, hi - 1), Of(data(hi - 1)), token);
    }
  }

  lemma {:induction false} OneMore(lo: int, n: int, f: int -> int)
    requires lo <= n
    ensures Sum(Range(lo, n + 1), f) == Sum(Range(lo, n), f) + f(n)
  {
    RangeSnoc(lo, n + 1);
    SumAdd(Range(lo, n), f, n);
  }

  lemma {:induction false} BlockToken(data: Data, n: int, token: int)
    ensures TokenIs(Get(Of(data(n)).tokens, token), CountAt(data, token)(n), SupplyAt(data, token)(n))
  {
    TokenShare(data(n).transfers, |data(n).transfers|, token);
  }

  lemma {:induction false} JoinAllIs(rows: int -> Option<Token>, count: int -> int, supply: int -> int, lo: int,
                                     hi: int)
    requires lo <= hi && forall n :: TokenIs(rows(n), count(n), supply(n))
    ensures TokenIs(JoinAll(rows, lo, hi), Sum(Range(lo, hi), count), Sum(Range(lo, hi), supply))
    decreases hi - lo
  {
    if lo < hi {
      var n := hi - 1;
      JoinAllIs(rows, count, supply, lo, n);
      OneMore(lo, n, count);
      OneMore(lo, n, supply);
      TokenIsJoined(JoinAll(rows, lo, n), rows(n), Sum(Range(lo, n), count), Sum(Range(lo, n), supply), count(n),
                    supply(n));
    } else {
      assert Range(lo, hi) == {};
    }
  }

  /** A token is in a range's totals exactly when a transfer of it is, with its transfers, mints and burns. */
  lemma {:induction false} FoldToken(data: Data, lo: int, hi: int, token: int)
    requires lo <= hi
    ensures TokenIs(Get(Fold(data, lo, hi).tokens, token), Sum(Range(lo, hi), CountAt(data, token)),
                    Sum(Range(lo, hi), SupplyAt(data, token)))
  {
    var rows, count, supply := TokenAt(data, token), CountAt(data, token), SupplyAt(data, token);
    forall n ensures TokenIs(rows(n), count(n), supply(n)) {
      BlockToken(data, n, token);
    }
    JoinAllIs(rows, count, supply, lo, hi);
    FoldTokenRow(data, lo, hi, token);
  }
}
