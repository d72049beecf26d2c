/** Counting the keys of a map by what they map to. */
module Counting {

  function Where<K, V(==)>(m: map<K, V>, v: V): set<K> {
    set k | k in m && m[k] == v
  }

  function One(b: bool): nat {
    if b then 1 else 0
  }

  lemma WhereUpdated<K, V>(m: map<K, V>, k: K, now: V, v: V)
    ensures |Where(m[k := now], v)| == |Where(m, v)| - One(k in m && m[k] == v) + One(now == v)
  {
    var others := Where(m, v) - {k};
    assert Where(m[k := now], v) == if now == v then others + {k} else others;
    assert Where(m, v) == if k in m && m[k] == v then others + {k} else others;
  }

  lemma WhereRemoved<K, V>(m: map<K, V>, k: K, v: V)
    ensures |Where(m - {k}, v)| == |Where(m, v)| - One(k in m && m[k] == v)
  {
    assert Where(m - {k}, v) == Where(m, v) - {k};
  }
}
