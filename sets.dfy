/** Facts about finite sets used by the loops that delete entries one at a time. */
module Sets {
  /** Adding an element a set lacks adds one to its size. */
  lemma GrowByOne<T>(s: set<T>, x: T)
    requires x !in s
    ensures |s + {x}| == |s| + 1
  {
  }

  /** Taking out one more key is taking it out of what is left. */
  lemma MinusOneMore<K, V>(m: map<K, V>, d: set<K>, k: K)
    ensures m - (d + {k}) == (m - d) - {k}
  {
  }

  /** Taking keys out of a map leaves one entry fewer for each. */
  lemma MinusSize<K, V>(m: map<K, V>, d: set<K>)
    requires d <= m.Keys
    ensures |(m - d).Keys| == |m.Keys| - |d|
  {
    assert (m - d).Keys == m.Keys - d;
    assert m.Keys == (m.Keys - d) + d;
  }
}
