/** The Redis commands the services rely on, over one family of keys.

    A family is a map from key to (value, expiry).  Entries are never collected: an entry whose
    expiry has passed stays in the map but no command sees it any more.  Time is a single integer
    clock, in seconds, shared by the server and by Redis. */
module Redis {
  import opened Options

  datatype Expiry = Persistent | At(time: int)

  datatype Entry<+V> = Entry(value: V, expiry: Expiry)

  type Keyspace<K(==), +V> = map<K, Entry<V>>

  predicate Live<K, V>(m: Keyspace<K, V>, k: K, now: int) {
    k in m && (m[k].expiry.At? ==> now < m[k].expiry.time)
  }

  /** GET */
  function Get<K, V>(m: Keyspace<K, V>, k: K, now: int): Option<V> {
    if Live(m, k, now) then Some(m[k].value) else None
  }

  /** SET key value EX ttl */
  function SetEx<K, V>(m: Keyspace<K, V>, k: K, v: V, now: int, ttl: int): Keyspace<K, V> {
    m[k := Entry(v, At(now + ttl))]
  }

  /** DEL */
  function Delete<K, V>(m: Keyspace<K, V>, k: K): Keyspace<K, V> {
    m - {k}
  }

  /** EXPIRE: nothing on a missing key, a deletion when the time to live is not positive. */
  function Expire<K, V>(m: Keyspace<K, V>, k: K, now: int, ttl: int): Keyspace<K, V> {
    if !Live(m, k, now) then m
    else if ttl <= 0 then m - {k}
    else m[k := m[k].(expiry := At(now + ttl))]
  }

  /** TTL: -2 for a missing key, -1 for a key without expiry. */
  function Ttl<K, V>(m: Keyspace<K, V>, k: K, now: int): int {
    if !Live(m, k, now) then -2
    else match m[k].expiry
      case Persistent => -1
      case At(t) => t - now
  }

  /** INCR: a missing key counts from zero and is created without expiry. */
  function Incr<K>(m: Keyspace<K, int>, k: K, now: int): Keyspace<K, int> {
    if Live(m, k, now) then m[k := m[k].(value := m[k].value + 1)]
    else m[k := Entry(1, Persistent)]
  }

  /** SADD: a missing set is created without expiry. */
  function SAdd<K, E>(m: Keyspace<K, set<E>>, k: K, e: E, now: int): Keyspace<K, set<E>> {
    if Live(m, k, now) then m[k := m[k].(value := m[k].value + {e})]
    else m[k := Entry({e}, Persistent)]
  }

  /** SREM: removing the last member removes the key. */
  function SRem<K, E>(m: Keyspace<K, set<E>>, k: K, e: E, now: int): Keyspace<K, set<E>> {
    if !Live(m, k, now) then m
    else if m[k].value - {e} == {} then m - {k}
    else m[k := m[k].(value := m[k].value - {e})]
  }
}
