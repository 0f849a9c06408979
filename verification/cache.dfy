/**
  The expiring key-value store behind `django.core.cache.cache`, with the
  clock made explicit. An entry written at `now` with a timeout of `t`
  seconds holds until `now + t`; it is visible at a time `at` exactly when
  `at < now + t` (the local-memory backend treats an entry whose expiry is
  at or before the current time as gone).
 */
module Cache {

  datatype Entry<V> = Entry(value: V, expiry: int)

  type Store<K, V> = map<K, Entry<V>>

  /** Whether `k` holds an unexpired entry at time `now`. */
  predicate Live<K, V>(st: Store<K, V>, k: K, now: int)
  {
    k in st && now < st[k].expiry
  }

  /** `cache.get(k, default)`. */
  function Get<K, V>(st: Store<K, V>, k: K, default: V, now: int): (v: V)
    ensures Live(st, k, now) ==> v == st[k].value
    ensures !Live(st, k, now) ==> v == default
  {
    if k in st && now < st[k].expiry then st[k].value else default
  }

  /** `cache.set(k, v, timeout)` at time `now`: `k` reads back as `v` for
      the next `timeout` seconds and not after; every other key keeps its
      entry. */
  function Set<K(!new), V>(st: Store<K, V>, k: K, v: V, now: int, timeout: int): (r: Store<K, V>)
    ensures forall at :: Live(r, k, at) <==> at < now + timeout
    ensures k in r && r[k].value == v
    ensures forall other :: other != k ==> (other in r <==> other in st)
    ensures forall other :: other != k && other in st ==> r[other] == st[other]
  {
    st[k := Entry(v, now + timeout)]
  }

  /** `cache.delete(k)`: `k` reads back as the default from now on; every
      other key keeps its entry. */
  function Delete<K(!new), V>(st: Store<K, V>, k: K): (r: Store<K, V>)
    ensures forall at :: !Live(r, k, at)
    ensures forall other :: other != k ==> (other in r <==> other in st)
    ensures forall other :: other != k && other in st ==> r[other] == st[other]
  {
    st - {k}
  }

  /** Reading after a write: the written key gives the new value until the
      timeout runs out and the default afterwards; every other key reads as
      it did before. */
  lemma GetAfterSet<K(!new), V>(st: Store<K, V>, k: K, v: V, now: int, timeout: int, j: K, d: V, at: int)
    ensures Get(Set(st, k, v, now, timeout), j, d, at) ==
              if j == k then (if at < now + timeout then v else d) else Get(st, j, d, at)
  {
    var r := Set(st, k, v, now, timeout);
    if j != k && j in st {
      assert r[j] == st[j];
    }
  }

  /** Reading after a delete: the deleted key gives the default at every
      time; every other key reads as it did before. */
  lemma GetAfterDelete<K(!new), V>(st: Store<K, V>, k: K, j: K, d: V, at: int)
    ensures Get(Delete(st, k), j, d, at) == if j == k then d else Get(st, j, d, at)
  {
    var r := Delete(st, k);
    if j != k && j in st {
      assert r[j] == st[j];
    }
  }

  /** Without a write, an entry that has expired stays expired. */
  lemma ExpiredStaysExpired<K, V>(st: Store<K, V>, k: K, now: int, later: int)
    requires now <= later && !Live(st, k, now)
    ensures !Live(st, k, later)
  {
  }
}
