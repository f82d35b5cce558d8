/**
Weighted sums over finite maps and over sequences.  Every conservation
statement of the project (ledger totals, funded escrow value, replayed
journals) is one of these sums, so the laws here are the only place where
the shape of a sum matters.
*/
module Sums {

  /** The total weight of the entries of `m`. */
  ghost function Sum<K(!new), V(!new)>(m: map<K, V>, w: (K, V) -> int): int {
    if m == map[] then 0
    else
      var k :| k in m;
      w(k, m[k]) + Sum(m - {k}, w)
  }

  /** The order in which keys are visited does not matter: any key can be taken out first. */
  lemma {:induction false} SumRemove<K(!new), V(!new)>(m: map<K, V>, w: (K, V) -> int, k: K)
    requires k in m
    ensures Sum(m, w) == w(k, m[k]) + Sum(m - {k}, w)
    decreases |m|
  {
    var j :| j in m && Sum(m, w) == w(j, m[j]) + Sum(m - {j}, w);
    if j != k {
      SumRemove(m - {j}, w, k);
      SumRemove(m - {k}, w, j);
      assert (m - {j}) - {k} == (m - {k}) - {j};
    }
  }

  /** Writing one key changes the sum by the difference of the two weights. */
  lemma {:induction false} SumUpdate<K(!new), V(!new)>(m: map<K, V>, w: (K, V) -> int, k: K, v: V)
    ensures Sum(m[k := v], w) == Sum(m, w) - (if k in m then w(k, m[k]) else 0) + w(k, v)
  {
    SumRemove(m[k := v], w, k);
    if k in m {
      SumRemove(m, w, k);
      assert m[k := v] - {k} == m - {k};
    } else {
      assert m[k := v] - {k} == m;
    }
  }

  /** Sums of two maps agree when every entry of one weighs as much as the entry of the other. */
  lemma {:induction false} SumCongruent<K(!new), V(!new), U(!new)>(
    m: map<K, V>, w: (K, V) -> int, n: map<K, U>, u: (K, U) -> int)
    requires m.Keys == n.Keys
    requires forall k :: k in m ==> w(k, m[k]) == u(k, n[k])
    ensures Sum(m, w) == Sum(n, u)
    decreases |m|
  {
    if m != map[] {
      var k :| k in m;
      SumRemove(m, w, k);
      SumRemove(n, u, k);
      SumCongruent(m - {k}, w, n - {k}, u);
    } else {
      assert n == map[];
    }
  }

  lemma {:induction false} SumBounds<K(!new), V(!new)>(m: map<K, V>, w: (K, V) -> int)
    requires forall k :: k in m ==> 0 <= w(k, m[k])
    ensures 0 <= Sum(m, w)
    ensures forall k :: k in m ==> w(k, m[k]) <= Sum(m, w)
    decreases |m|
  {
    forall k | k in m ensures 0 <= w(k, m[k]) <= Sum(m, w) {
      SumRemove(m, w, k);
      SumBounds(m - {k}, w);
    }
  }

  /** The sum of a pointwise sum of weights. */
  lemma {:induction false} SumPlus<K(!new), V(!new)>(
    m: map<K, V>, w: (K, V) -> int, a: (K, V) -> int, b: (K, V) -> int)
    requires forall k :: k in m ==> w(k, m[k]) == a(k, m[k]) + b(k, m[k])
    ensures Sum(m, w) == Sum(m, a) + Sum(m, b)
    decreases |m|
  {
    if m != map[] {
      var k :| k in m;
      SumRemove(m, w, k);
      SumRemove(m, a, k);
      SumRemove(m, b, k);
      SumPlus(m - {k}, w, a, b);
    }
  }

  /** The total weight of the elements of a sequence, newest last. */
  ghost function SumSeq<T(!new)>(s: seq<T>, w: T -> int): int {
    if s == [] then 0 else SumSeq(s[..|s| - 1], w) + w(s[|s| - 1])
  }

  lemma SumSeqAppend<T(!new)>(s: seq<T>, x: T, w: T -> int)
    ensures SumSeq(s + [x], w) == SumSeq(s, w) + w(x)
  {
    assert (s + [x])[..|s|] == s;
  }
}
