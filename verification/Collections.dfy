/** Small facts about sets and maps that the loops over dictionaries need. */
module Collections {
  /** Moving one element from what is left to what is done. */
  lemma MoveOver<T>(done: set<T>, rest: set<T>, x: T)
    requires x in rest
    ensures (done + {x}) + (rest - {x}) == done + rest
    ensures done !! rest ==> done + {x} !! rest - {x}
  {
  }

  /** Two maps that agree everywhere but at k differ by one update. */
  lemma DiffersAt<K, V>(m: map<K, V>, m': map<K, V>, k: K)
    requires m'.Keys == m.Keys + {k} && forall o :: o in m && o != k ==> m'[o] == m[o]
    ensures m' == m[k := m'[k]]
  {
  }

  /** The second of two updates at one key wins. */
  lemma UpdateTwice<K, V>(m: map<K, V>, k: K, a: V, b: V)
    ensures m[k := a][k := b] == m[k := b]
  {
  }
}
