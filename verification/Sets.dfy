/** Facts for loops that work through a set, one element at a time. */
module Sets {
  lemma MinusOne<K, V>(m: map<K, V>, s: set<K>, k: K)
    ensures m - s - {k} == m - (s + {k})
  {}

  lemma Visited<T>(all: set<T>, todo: set<T>, x: T)
    requires x in todo
    ensures all - (todo - {x}) == if x in all then (all - todo) + {x} else all - todo
    ensures |all - (todo - {x})| == |all - todo| + (if x in all then 1 else 0)
  {}
}
