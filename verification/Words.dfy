// Common small types, and the wrap-around arithmetic of Go's uint64.

module Options {
  datatype Option<+T> = None | Some(value: T)
}

module Words {
  const TWO_64: int := 0x1_0000_0000_0000_0000

  /** A Go `uint64`. */
  type Word = x: int | 0 <= x < 0x1_0000_0000_0000_0000

  /** A Go `byte`. */
  type Byte = x: int | 0 <= x < 256

  function Add64(a: Word, b: Word): (r: Word)
    ensures r == (a + b) % TWO_64
  {
    if a + b < TWO_64 then a + b else a + b - TWO_64
  }

  function Sub64(a: Word, b: Word): (r: Word)
    ensures r == (a - b) % TWO_64
  {
    if b <= a then a - b else a - b + TWO_64
  }

  /** Reducing one summand first does not change a sum modulo 2^64. */
  lemma ModPlus(x: int, d: int)
    ensures (x % TWO_64 + d) % TWO_64 == (x + d) % TWO_64
  {
    var q := x / TWO_64;
    assert x == q * TWO_64 + x % TWO_64;
    ModShift(x % TWO_64 + d, q);
    assert x + d == x % TWO_64 + d + q * TWO_64;
  }

  lemma ModShift(x: int, q: int)
    ensures (x + q * TWO_64) % TWO_64 == x % TWO_64
  {
    var r, k := x % TWO_64, x / TWO_64;
    assert x + q * TWO_64 == (k + q) * TWO_64 + r;
    assert 0 <= r < TWO_64;
  }
}

// Sums over finite maps, defined without reference to an order of the keys.
module FiniteSums {
  ghost function Pick<K(!new)>(keys: set<K>): (k: K)
    requires keys != {}
    ensures k in keys
  {
    var k :| k in keys;
    k
  }

  ghost function Sum<K(!new), V(!new)>(m: map<K, V>, f: V -> int): int
    decreases m.Keys
  {
    if m.Keys == {} then 0 else
      var k := Pick(m.Keys);
      f(m[k]) + Sum(m - {k}, f)
  }

  /** Any key may be taken out first. */
  lemma {:induction false} SumRemove<K(!new), V(!new)>(m: map<K, V>, k: K, f: V -> int)
    requires k in m
    ensures Sum(m, f) == f(m[k]) + Sum(m - {k}, f)
    decreases m.Keys
  {
    var j := Pick(m.Keys);
    if j != k {
      var a, b := m - {j}, m - {k};
      SumRemove(a, k, f);
      SumRemove(b, j, f);
      assert a - {k} == b - {j};
    }
  }

  lemma SumInsert<K(!new), V(!new)>(m: map<K, V>, k: K, v: V, f: V -> int)
    requires k !in m
    ensures Sum(m[k := v], f) == Sum(m, f) + f(v)
  {
    SumRemove(m[k := v], k, f);
    assert m[k := v] - {k} == m;
  }

  lemma SumUpdate<K(!new), V(!new)>(m: map<K, V>, k: K, v: V, f: V -> int)
    requires k in m
    ensures Sum(m[k := v], f) == Sum(m, f) - f(m[k]) + f(v)
  {
    SumRemove(m, k, f);
    SumRemove(m[k := v], k, f);
    assert m[k := v] - {k} == m - {k};
  }

  /** With nonnegative terms, one term, or two terms under different keys, are at most the sum. */
  lemma {:induction false} SumNonNegative<K(!new), V(!new)>(m: map<K, V>, f: V -> int)
    requires forall k :: k in m ==> 0 <= f(m[k])
    ensures 0 <= Sum(m, f)
    decreases m.Keys
  {
    if m.Keys != {} {
      var j := Pick(m.Keys);
      SumNonNegative(m - {j}, f);
    }
  }

  lemma SumAtLeastTwo<K(!new), V(!new)>(m: map<K, V>, j: K, k: K, f: V -> int)
    requires j in m && k in m && j != k
    requires forall k :: k in m ==> 0 <= f(m[k])
    ensures f(m[j]) + f(m[k]) <= Sum(m, f)
  {
    SumRemove(m, j, f);
    SumRemove(m - {j}, k, f);
    SumNonNegative(m - {j} - {k}, f);
  }
}
