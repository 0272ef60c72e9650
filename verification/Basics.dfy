/** Shared vocabulary: optional values, the clock and expiring entries. */
module Basics {
  datatype Option<+T> = None | Some(value: T)

  /** An instant, or a duration, in nanoseconds. The zero `time.Time` of the source is `None`. */
  type Time = int

  const SECOND: int := 1_000_000_000
  const MINUTE: int := 60 * SECOND
  const MILLISECOND: int := 1_000_000
}

/** The abstract meaning of a map whose entries carry a deadline: only unexpired entries exist. */
module TtlMaps {
  import opened Basics

  datatype Entry<+V> = Entry(value: V, expiresAt: Time)

  /** An entry lives strictly before its deadline. */
  predicate IsLive<K, V>(m: map<K, Entry<V>>, k: K, now: Time) {
    k in m && now < m[k].expiresAt
  }

  /** What a reader at `now` sees. */
  function Live<K, V>(m: map<K, Entry<V>>, now: Time): map<K, V> {
    map k | k in m && now < m[k].expiresAt :: m[k].value
  }

  function Lookup<K, V>(m: map<K, Entry<V>>, k: K, now: Time): Option<V> {
    if IsLive(m, k, now) then Some(m[k].value) else None
  }

  /** Physical removal of every expired entry. */
  function Purge<K, V>(m: map<K, Entry<V>>, now: Time): map<K, Entry<V>> {
    map k | k in m && now < m[k].expiresAt :: m[k]
  }

  /** Purging is invisible from that instant on, to readers and to later purges. */
  lemma PurgeIsInvisible<K, V>(m: map<K, Entry<V>>, now: Time, later: Time)
    requires now <= later
    ensures Purge(Purge(m, now), later) == Purge(m, later)
    ensures Live(Purge(m, now), later) == Live(m, later)
  {
  }
}
