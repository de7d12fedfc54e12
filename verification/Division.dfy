/** Remainders, for ranges laid out on a grid. */
module Division {

  lemma {:induction false} AtLeast(span: int, k: int)
    requires span > 0
    ensures k >= 1 ==> span * k >= span
    ensures k >= 0 ==> span * k >= 0
  {
  }

  lemma {:induction false} SameQuotient(span: int, k: int, r: int, q: int, m: int)
    requires span > 0 && 0 <= r < span && 0 <= m < span && span * k + r == span * q + m
    ensures r == m
  {
    AtLeast(span, k - q);
    AtLeast(span, q - k);
    if k == q {
      assert span * k == span * q;
    }
  }

  lemma {:induction false} Remainder(span: int, k: int, r: int)
    requires span > 0 && 0 <= r < span
    ensures (span * k + r) % span == r
  {
    var x := span * k + r;
    assert x == span * (x / span) + x % span;
    SameQuotient(span, k, r, x / span, x % span);
  }

  lemma {:induction false} Decomposed(x: int, size: int, q: int, m: int)
    requires size > 0 && x > 0 && x == size * q + m && 0 <= m < size
    ensures m <= x && (m == 0 ==> x >= size)
  {
    AtLeast(size, q);
    AtLeast(size, -q);
    assert size * -q == -(size * q);
  }

  lemma {:induction false} WholeTimes(size: int, q: int)
    requires size > 0
    ensures (size * q) % size == 0 && (size * q - size) % size == 0
  {
    Remainder(size, q, 0);
    Remainder(size, q - 1, 0);
    assert size * (q - 1) == size * q - size;
  }

  /** What is left of x after its remainder, and after one whole size, is whole. */
  lemma {:induction false} WholeParts(x: int, size: int)
    requires size > 0 && x > 0
    ensures 0 <= x % size <= x && (x - x % size) % size == 0
    ensures x % size == 0 ==> x >= size && (x - size) % size == 0
  {
    var q, m := x / size, x % size;
    assert x == size * q + m;
    Decomposed(x, size, q, m);
    WholeTimes(size, q);
    assert x - m == size * q;
  }

  lemma {:induction false} RemainderRepeats(x: int, size: int)
    requires size > 0
    ensures x % size == (x - size) % size
  {
    var q := x / size;
    assert x == size * q + x % size;
    Remainder(size, q - 1, x % size);
  }
}
