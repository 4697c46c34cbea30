/** Sums of a weight over the values of a map. */
module Sums {

  ghost function Sum<K, V>(m: map<K, V>, w: V -> int): int {
    if m == map[] then 0
    else
      var k :| k in m;
      w(m[k]) + Sum(m - {k}, w)
  }

  /** Any entry may be taken out first. */
  lemma {:induction false} SumTake<K, V>(m: map<K, V>, w: V -> int, k: K)
    requires k in m
    ensures Sum(m, w) == w(m[k]) + Sum(m - {k}, w)
    decreases |m|
  {
    var first :| first in m && Sum(m, w) == w(m[first]) + Sum(m - {first}, w);
    if first == k {
    } else {
      SumTake(m - {first}, w, k);
      SumTake(m - {k}, w, first);
      assert m - {first} - {k} == m - {k} - {first};
    }
  }

  /** Writing one entry changes the sum by the difference of the weights. */
  lemma SumPut<K, V>(m: map<K, V>, w: V -> int, k: K, v: V)
    ensures Sum(m[k := v], w) == Sum(m, w) + w(v) - (if k in m then w(m[k]) else 0)
  {
    SumTake(m[k := v], w, k);
    assert m[k := v] - {k} == m - {k};
    if k in m {
      SumTake(m, w, k);
    } else {
      assert m - {k} == m;
    }
  }

  /** Maps with the same keys whose weights agree have the same sum; so do weights that split. */
  lemma {:induction false} SumSplit<K, V>(m: map<K, V>, w: V -> int, a: map<K, V>, u: V -> int,
                                          b: map<K, V>, v: V -> int)
    requires m.Keys == a.Keys == b.Keys
    requires forall k | k in m :: w(m[k]) == u(a[k]) + v(b[k])
    ensures Sum(m, w) == Sum(a, u) + Sum(b, v)
    decreases |m|
  {
    if m == map[] {
      assert a == map[] && b == map[];
    } else {
      var k :| k in m;
      SumTake(m, w, k);
      SumTake(a, u, k);
      SumTake(b, v, k);
      SumSplit(m - {k}, w, a - {k}, u, b - {k}, v);
    }
  }

  /** With weights that are never negative the sum is at least each of them. */
  lemma {:induction false} SumAtLeast<K, V>(m: map<K, V>, w: V -> int, k: K)
    requires forall x | x in m :: w(m[x]) >= 0
    ensures Sum(m, w) >= 0
    ensures k in m ==> Sum(m, w) >= w(m[k])
    decreases |m|, k !in m
  {
    if k in m {
      SumTake(m, w, k);
      if x :| x in m - {k} {
        SumAtLeast(m - {k}, w, x);
      } else {
        assert m - {k} == map[];
      }
    } else if x :| x in m {
      SumAtLeast(m, w, x);
    } else {
      assert m == map[];
    }
  }

  /** With weights that are never negative a part of a map sums to no more than the whole. */
  lemma {:induction false} SumPart<K, V>(m: map<K, V>, part: map<K, V>, w: V -> int)
    requires forall x | x in m :: w(m[x]) >= 0
    requires part.Keys <= m.Keys && forall x | x in part :: part[x] == m[x]
    ensures Sum(part, w) <= Sum(m, w)
    decreases |m|
  {
    if x :| x in m && x !in part {
      SumTake(m, w, x);
      SumPart(m - {x}, part, w);
    } else {
      assert part == m;
    }
  }

  /** A sum of zero weights is zero. */
  lemma {:induction false} SumZero<K, V>(m: map<K, V>, w: V -> int)
    requires forall x | x in m :: w(m[x]) == 0
    ensures Sum(m, w) == 0
    decreases |m|
  {
    if x :| x in m {
      SumTake(m, w, x);
      SumZero(m - {x}, w);
    } else {
      assert m == map[];
    }
  }
}

/** The same over real weights. */
module RealSums {

  ghost function Sum<K, V>(m: map<K, V>, w: V -> real): real {
    if m == map[] then 0.0
    else
      var k :| k in m;
      w(m[k]) + Sum(m - {k}, w)
  }

  lemma {:induction false} SumTake<K, V>(m: map<K, V>, w: V -> real, k: K)
    requires k in m
    ensures Sum(m, w) == w(m[k]) + Sum(m - {k}, w)
    decreases |m|
  {
    var first :| first in m && Sum(m, w) == w(m[first]) + Sum(m - {first}, w);
    if first == k {
    } else {
      SumTake(m - {first}, w, k);
      SumTake(m - {k}, w, first);
      assert m - {first} - {k} == m - {k} - {first};
    }
  }

  lemma SumPut<K, V>(m: map<K, V>, w: V -> real, k: K, v: V)
    ensures Sum(m[k := v], w) == Sum(m, w) + w(v) - (if k in m then w(m[k]) else 0.0)
  {
    SumTake(m[k := v], w, k);
    assert m[k := v] - {k} == m - {k};
    if k in m {
      SumTake(m, w, k);
    } else {
      assert m - {k} == m;
    }
  }

  /** Maps with the same keys whose weights agree have the same sum. */
  lemma {:induction false} SumSame<K, V, U>(m: map<K, V>, w: V -> real, a: map<K, U>, u: U -> real)
    requires m.Keys == a.Keys
    requires forall k | k in m :: w(m[k]) == u(a[k])
    ensures Sum(m, w) == Sum(a, u)
    decreases |m|
  {
    if m == map[] {
      assert a == map[];
    } else {
      var k :| k in m;
      SumTake(m, w, k);
      SumTake(a, u, k);
      SumSame(m - {k}, w, a - {k}, u);
    }
  }
}
