/** Optional values, the saturating clock arithmetic of the relay, and sequence surgery. */
module Basics {

  datatype Option<+T> = None | Some(value: T)

  type Name = string

  const U64_MAX: nat := 0xFFFF_FFFF_FFFF_FFFF

  /** `a.saturating_sub(b)` */
  function SatSub(a: nat, b: nat): nat {
    if a < b then 0 else a - b
  }

  /** `a.saturating_add(b)` on 64-bit words. */
  function SatAdd(a: nat, b: nat): nat {
    if a + b > U64_MAX then U64_MAX else a + b
  }

  function Min(a: nat, b: nat): nat {
    if a < b then a else b
  }

  function Pow2(n: nat): (p: nat)
    ensures p > 0
  {
    if n == 0 then 1 else 2 * Pow2(n - 1)
  }

  /** `s.remove(i)` */
  function RemoveAt<T>(s: seq<T>, i: nat): seq<T>
    requires i < |s|
  {
    s[..i] + s[i + 1..]
  }

  /** `s.insert(i, x)` */
  function InsertAt<T>(s: seq<T>, i: nat, x: T): seq<T>
    requires i <= |s|
  {
    s[..i] + [x] + s[i..]
  }

  lemma SubSlice<T>(s: seq<T>, a: nat, b: nat, c: nat, d: nat)
    requires a <= b <= |s| && c <= d <= b - a
    ensures s[a..b][c..d] == s[a + c..a + d]
  {
    var x, y := s[a..b][c..d], s[a + c..a + d];
    assert |x| == |y|;
    forall i | 0 <= i < |x| ensures x[i] == y[i] {
    }
  }

  predicate Distinct<T(==)>(s: seq<T>) {
    forall i, j :: 0 <= i < j < |s| ==> s[i] != s[j]
  }
}

/** Sums of a weight over the values of a map. */
module Totals {

  ghost function Total<K, V>(m: map<K, V>, weight: V -> nat): nat {
    if m == map[] then 0
    else var k :| k in m; weight(m[k]) + Total(m - {k}, weight)
  }

  /** The sum does not depend on the order in which the entries are taken. */
  lemma {:induction false} TotalRemove<K, V>(m: map<K, V>, weight: V -> nat, k: K)
    requires k in m
    ensures Total(m, weight) == weight(m[k]) + Total(m - {k}, weight)
    decreases |m|
  {
    var first :| first in m && Total(m, weight) == weight(m[first]) + Total(m - {first}, weight);
    if first != k {
      assert |m - {first}| < |m| && |m - {k}| < |m|;
      TotalRemove(m - {first}, weight, k);
      TotalRemove(m - {k}, weight, first);
      assert m - {first} - {k} == m - {k} - {first};
    }
  }

  lemma TotalUpdate<K, V>(m: map<K, V>, weight: V -> nat, k: K, v: V)
    ensures Total(m[k := v], weight) == weight(v) + Total(m - {k}, weight)
    ensures k in m ==> Total(m, weight) == weight(m[k]) + Total(m - {k}, weight)
    ensures k !in m ==> m - {k} == m
  {
    TotalRemove(m[k := v], weight, k);
    assert m[k := v] - {k} == m - {k};
    if k in m { TotalRemove(m, weight, k); }
  }

  /** Two maps on the same keys with pointwise smaller weights have a smaller sum. */
  lemma {:induction false} TotalMonotone<K, V>(m: map<K, V>, n: map<K, V>, weight: V -> nat)
    requires n.Keys <= m.Keys
    requires forall k :: k in n ==> weight(n[k]) <= weight(m[k])
    ensures Total(n, weight) <= Total(m, weight)
    decreases |m|
  {
    if n != map[] {
      var k :| k in n;
      TotalRemove(m, weight, k);
      TotalRemove(n, weight, k);
      assert |m - {k}| < |m|;
      TotalMonotone(m - {k}, n - {k}, weight);
    }
  }

  /** Dropping entries of no weight leaves the sum alone. */
  lemma {:induction false} TotalIgnoresZero<K, V>(m: map<K, V>, n: map<K, V>, weight: V -> nat)
    requires n.Keys <= m.Keys
    requires forall k :: k in m ==> if k in n then n[k] == m[k] else weight(m[k]) == 0
    ensures Total(n, weight) == Total(m, weight)
    decreases |m|
  {
    if m != map[] {
      var k :| k in m;
      TotalRemove(m, weight, k);
      if k in n { TotalRemove(n, weight, k); }
      assert |m - {k}| < |m|;
      assert n - {k} == n || k in n;
      TotalIgnoresZero(m - {k}, n - {k}, weight);
    }
  }
}

/** Removal from maps, and what it does to their size. */
module Maps {

  function Minus<K, V>(m: map<K, V>, gone: set<K>): map<K, V> {
    map k | k in m && k !in gone :: m[k]
  }

  lemma SizeMinus<K, V>(m: map<K, V>, gone: set<K>)
    ensures |Minus(m, gone)| <= |m|
  {
    var less := Minus(m, gone).Keys;
    assert |m.Keys - less| == |m.Keys| - |less|;
  }

  lemma SizeDrop<K, V>(m: map<K, V>, k: K)
    requires k in m
    ensures |Minus(m, {k})| + 1 == |m|
  {
    assert m.Keys == Minus(m, {k}).Keys + {k};
  }

  lemma SizeAdd<K, V>(m: map<K, V>, k: K, v: V)
    ensures |m[k := v]| == if k in m then |m| else |m| + 1
  {
    assert m[k := v].Keys == m.Keys + {k};
  }
}
