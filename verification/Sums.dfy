/** Finite sums and extrema over sets, shared by the components that keep a total in step with a table. */
module Sums {

  datatype Option<+T> = None | Some(value: T)

  /** The value a table holds for a key, if any: a SELECT by primary key. */
  function Get<K, V>(m: map<K, V>, k: K): (r: Option<V>)
    ensures r.Some? <==> k in m
    ensures k in m ==> r == Some(m[k])
  {
    if k in m then Some(m[k]) else None
  }

  /** Sets a key's row, or removes it. */
  function Put<K(!new), V>(m: map<K, V>, k: K, v: Option<V>): (r: map<K, V>)
    ensures Get(r, k) == v
    ensures forall x :: x != k ==> Get(r, x) == Get(m, x)
  {
    if v.Some? then m[k := v.value] else m - {k}
  }

  ghost function Pick<T(!new)>(s: set<T>): (x: T)
    requires s != {}
    ensures x in s
  {
    var x :| x in s; x
  }

  ghost function Sum<T(!new)>(s: set<T>, f: T -> int): int
  {
    if s == {} then 0 else
      var x := Pick(s);
      f(x) + Sum(s - {x}, f)
  }

  /** Any element can be taken out first. */
  lemma {:induction false} SumExtract<T(!new)>(s: set<T>, f: T -> int, x: T)
    requires x in s
    ensures Sum(s, f) == f(x) + Sum(s - {x}, f)
  {
    var y := Pick(s);
    if x != y {
      SumExtract(s - {y}, f, x);
      SumExtract(s - {x}, f, y);
      assert s - {y} - {x} == s - {x} - {y};
    }
  }

  lemma {:induction false} SumAdd<T(!new)>(s: set<T>, f: T -> int, x: T)
    requires x !in s
    ensures Sum(s + {x}, f) == f(x) + Sum(s, f)
  {
    SumExtract(s + {x}, f, x);
    assert s + {x} - {x} == s;
  }

  lemma {:induction false} SumCong<T(!new)>(s: set<T>, f: T -> int, g: T -> int)
    requires forall x :: x in s ==> f(x) == g(x)
    ensures Sum(s, f) == Sum(s, g)
  {
    if s != {} {
      var x := Pick(s);
      SumExtract(s, f, x);
      SumExtract(s, g, x);
      SumCong(s - {x}, f, g);
    }
  }

  lemma {:induction false} SumDisjoint<T(!new)>(s: set<T>, t: set<T>, f: T -> int)
    requires s !! t
    ensures Sum(s + t, f) == Sum(s, f) + Sum(t, f)
  {
    if s == {} {
      assert s + t == t;
    } else {
      var x := Pick(s);
      SumExtract(s, f, x);
      SumExtract(s + t, f, x);
      assert s + t - {x} == (s - {x}) + t;
      SumDisjoint(s - {x}, t, f);
    }
  }

  lemma {:induction false} SumNonNegative<T(!new)>(s: set<T>, f: T -> int)
    requires forall x :: x in s ==> f(x) >= 0
    ensures Sum(s, f) >= 0
  {
    if s != {} {
      var x := Pick(s);
      SumExtract(s, f, x);
      SumNonNegative(s - {x}, f);
    }
  }

  lemma {:induction false} MinExists(s: set<int>)
    requires s != {}
    ensures exists m :: m in s && forall x :: x in s ==> m <= x
    decreases |s|
  {
    var y := Pick(s);
    var rest := s - {y};
    assert forall x :: x in s ==> x == y || x in rest;
    if rest != {} {
      MinExists(rest);
      var lo :| lo in rest && forall x :: x in rest ==> lo <= x;
      var m := if y < lo then y else lo;
      assert m in s && forall x :: x in s ==> m <= x;
    } else {
      assert y in s && forall x :: x in s ==> y <= x;
    }
  }

  lemma {:induction false} MaxExists(s: set<int>)
    requires s != {}
    ensures exists m :: m in s && forall x :: x in s ==> x <= m
    decreases |s|
  {
    var y := Pick(s);
    var rest := s - {y};
    assert forall x :: x in s ==> x == y || x in rest;
    if rest != {} {
      MaxExists(rest);
      var hi :| hi in rest && forall x :: x in rest ==> x <= hi;
      var m := if y > hi then y else hi;
      assert m in s && forall x :: x in s ==> x <= m;
    } else {
      assert y in s && forall x :: x in s ==> x <= y;
    }
  }

  function Min(s: set<int>): (m: int)
    requires s != {}
    ensures m in s && forall x :: x in s ==> m <= x
  {
    MinExists(s);
    var m :| m in s && forall x :: x in s ==> m <= x;
    m
  }

  function Max(s: set<int>): (m: int)
    requires s != {}
    ensures m in s && forall x :: x in s ==> x <= m
  {
    MaxExists(s);
    var m :| m in s && forall x :: x in s ==> x <= m;
    m
  }

  /** GREATEST(x, 0): where a counter stops. */
  function Floor(x: int): int { if x < 0 then 0 else x }

  /** SQL's LEAST and GREATEST: a NULL operand is ignored. */
  function Least(a: Option<int>, b: Option<int>): (r: Option<int>)
    ensures a.Some? && b.Some? ==> r.Some? && (r == a || r == b) && r.value <= a.value && r.value <= b.value
    ensures a.None? ==> r == b
    ensures b.None? ==> r == a
  {
    if a.None? then b else if b.None? then a else if a.value <= b.value then a else b
  }

  function Greatest(a: Option<int>, b: Option<int>): (r: Option<int>)
    ensures a.Some? && b.Some? ==> r.Some? && (r == a || r == b) && a.value <= r.value && b.value <= r.value
    ensures a.None? ==> r == b
    ensures b.None? ==> r == a
  {
    if a.None? then b else if b.None? then a else if b.value <= a.value then a else b
  }

  function MinOf(s: set<int>): (r: Option<int>)
    ensures r.None? <==> s == {}
    ensures r.Some? ==> r.value in s && forall x :: x in s ==> r.value <= x
  {
    if s == {} then None else Some(Min(s))
  }

  function MaxOf(s: set<int>): (r: Option<int>)
    ensures r.None? <==> s == {}
    ensures r.Some? ==> r.value in s && forall x :: x in s ==> x <= r.value
  {
    if s == {} then None else Some(Max(s))
  }

  lemma {:induction false} MinMaxOfAdd(s: set<int>, n: int)
    ensures MinOf(s + {n}) == Least(MinOf(s), Some(n))
    ensures MaxOf(s + {n}) == Greatest(MaxOf(s), Some(n))
  {
    assert n in s + {n};
    if s != {} {
      assert MinOf(s).value in s + {n} && MaxOf(s).value in s + {n};
    }
  }

  lemma {:induction false} SameRows<K(!new), V(!new)>(m: map<K, V>, m': map<K, V>)
    requires forall k :: Get(m, k) == Get(m', k)
    ensures m == m'
  {
    assert forall k :: k in m <==> Get(m, k).Some?;
    assert forall k :: k in m' <==> Get(m', k).Some?;
    assert m.Keys == m'.Keys;
    assert forall k :: k in m ==> Some(m[k]) == Get(m, k) && Some(m'[k]) == Get(m', k);
  }

  predicate Distinct<K(==)>(s: seq<K>) { forall i, j :: 0 <= i < j < |s| ==> s[i] != s[j] }

  function Elements<K(==)>(s: seq<K>): set<K> { set x | x in s }

  lemma {:induction false} ElementsSnoc<K(!new)>(s: seq<K>, i: int)
    requires 0 <= i < |s|
    ensures Elements(s[..i + 1]) == Elements(s[..i]) + {s[i]}
    ensures Distinct(s) ==> s[i] !in Elements(s[..i])
  {
    assert s[..i + 1] == s[..i] + [s[i]];
  }

  lemma {:induction false} PutSize<K(!new), V>(m: map<K, V>, k: K, v: Option<V>)
    ensures |Put(m, k, v)| == |m| + (if v.Some? then 1 else 0) - (if k in m then 1 else 0)
  {
    var r := Put(m, k, v);
    assert |r| == |r.Keys| && |m| == |m.Keys|;
    if v.None? {
      assert r.Keys == m.Keys - {k};
    } else {
      assert r.Keys == m.Keys + {k};
    }
  }

  // ---------- a table changed row by row ----------

  /** The table once the first i of a writer's statements have run, each setting its key's row from the row it finds. */
  function RowByRow<E, K(!new), V>(m: map<K, V>, es: seq<E>, i: int, key: E -> K,
                         f: (E, Option<V>) -> Option<V>): map<K, V>
    requires 0 <= i <= |es|
    decreases i
  {
    if i == 0 then m else
      var before := RowByRow(m, es, i - 1, key, f);
      var e := es[i - 1];
      Put(before, key(e), f(e, Get(before, key(e))))
  }

  predicate DistinctKeys<E, K(==)>(es: seq<E>, key: E -> K) {
    forall i, j :: 0 <= i < j < |es| ==> key(es[i]) != key(es[j])
  }

  lemma {:induction false} RowByRowElsewhere<E, K(!new), V>(m: map<K, V>, es: seq<E>, i: int, key: E -> K,
                                                            f: (E, Option<V>) -> Option<V>, k: K)
    requires 0 <= i <= |es| && forall j :: 0 <= j < i ==> key(es[j]) != k
    ensures Get(RowByRow(m, es, i, key, f), k) == Get(m, k)
    decreases i
  {
    if i > 0 {
      RowByRowElsewhere(m, es, i - 1, key, f, k);
    }
  }

  lemma {:induction false} RowByRowAt<E, K(!new), V>(m: map<K, V>, es: seq<E>, i: int, key: E -> K,
                                                     f: (E, Option<V>) -> Option<V>, j: int)
    requires 0 <= j < i <= |es| && DistinctKeys(es, key)
    ensures Get(RowByRow(m, es, i, key, f), key(es[j])) == f(es[j], Get(m, key(es[j])))
    decreases i
  {
    if j == i - 1 {
      RowByRowElsewhere(m, es, j, key, f, key(es[j]));
    } else {
      RowByRowAt(m, es, i - 1, key, f, j);
    }
  }
}
