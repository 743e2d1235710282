/** Families of Redis sets under keys built from one id: a missing set is an empty one. */
module IndexSets {

  function SetAt<K, E>(m: map<K, set<E>>, k: K): set<E> {
    if k in m then m[k] else {}
  }

  function AddAt<K(!new), E>(m: map<K, set<E>>, k: K, e: E): (r: map<K, set<E>>)
    ensures forall x :: SetAt(r, x) == if x == k then SetAt(m, x) + {e} else SetAt(m, x)
  {
    m[k := SetAt(m, k) + {e}]
  }

  function DropAt<K(!new), E>(m: map<K, set<E>>, k: K, e: E): (r: map<K, set<E>>)
    ensures forall x :: SetAt(r, x) == if x == k then SetAt(m, x) - {e} else SetAt(m, x)
  {
    if k in m then m[k := m[k] - {e}] else m
  }

  /** DEL, then SADD of what is wanted; SADD of nothing is never sent. */
  function ReplaceAt<K(!new), E>(m: map<K, set<E>>, k: K, es: set<E>): (r: map<K, set<E>>)
    ensures forall x :: SetAt(r, x) == if x == k then es else SetAt(m, x)
  {
    if es == {} then m - {k} else m[k := es]
  }

  function Elements<T>(l: seq<T>): set<T> {
    set x | x in l
  }

  /** SREM of one element from the sets of several keys. */
  function DropFrom<K(!new), E>(m: map<K, set<E>>, ks: set<K>, e: E): (r: map<K, set<E>>)
    ensures forall x :: SetAt(r, x) == if x in ks then SetAt(m, x) - {e} else SetAt(m, x)
  {
    map k | k in m :: if k in ks then m[k] - {e} else m[k]
  }

  lemma DropFromMore<K(!new), E>(m: map<K, set<E>>, ks: set<K>, k: K, e: E)
    ensures DropAt(DropFrom(m, ks, e), k, e) == DropFrom(m, ks + {k}, e)
  {
    assert k in m ==> m[k] - {e} - {e} == m[k] - {e};
  }

  lemma DropFromNone<K(!new), E>(m: map<K, set<E>>, e: E)
    ensures DropFrom(m, {}, e) == m
  {
  }

  lemma SomeElement<E>(s: set<E>)
    ensures s != {} ==> exists e :: e in s
  {
    if forall e :: e !in s {
      assert s == {};
    }
  }

  lemma SomeInt(s: set<int>)
    ensures s != {} ==> exists n: int :: n in s
  {
    if forall n: int :: n !in s {
      assert s == {};
    }
  }
}
