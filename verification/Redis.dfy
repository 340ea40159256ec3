/** The part of Redis the control plane relies on: single keys with an optional expiry, changed
    by atomic commands. A key is live strictly before its expiry; every command reads the clock
    once. */
module RedisModel {
  import opened Text

  datatype Entry = Entry(value: int, expiresAt: Option<int>)

  type Store<K> = map<K, Entry>

  predicate Live<K>(s: Store<K>, k: K, now: int) {
    k in s && (s[k].expiresAt.None? || now < s[k].expiresAt.value)
  }

  /** GET */
  function Get<K>(s: Store<K>, k: K, now: int): Option<int> {
    if Live(s, k, now) then Some(s[k].value) else None
  }

  /** The value INCR returns. */
  function Incremented<K>(s: Store<K>, k: K, now: int): int {
    if Live(s, k, now) then s[k].value + 1 else 1
  }

  /** INCR keeps the expiry of a live key and creates a key without one. */
  function Incr<K>(s: Store<K>, k: K, now: int): Store<K> {
    s[k := Entry(Incremented(s, k, now), if Live(s, k, now) then s[k].expiresAt else None)]
  }

  /** PEXPIRE, a no-op on a missing key. */
  function PExpire<K>(s: Store<K>, k: K, ttl: int, now: int): Store<K> {
    if Live(s, k, now) then s[k := Entry(s[k].value, Some(now + ttl))] else s
  }

  /** SET k v PX ttl */
  function SetPx<K>(s: Store<K>, k: K, v: int, ttl: int, now: int): Store<K> {
    s[k := Entry(v, Some(now + ttl))]
  }

  /** DEL */
  function Del<K>(s: Store<K>, k: K): Store<K> {
    s - {k}
  }
}
