/**
 Session capacity on values: one namespace of expiring reservations. `Reserve`, `Release` and `Move`
 are what the memory store does to its keys while its cached count equals their number;
 `Reservations.ReserveIsQuota`, `ReleaseIsQuota`, `MoveIsQuota` and `PurgeIsQuota` prove that.
 */
module Quota {
  import opened Basics

  function LiveOnly<K>(r: map<K, Time>, now: Time): map<K, Time> {
    map k | k in r && now < r[k] :: r[k]
  }

  function Reserve<K>(r: map<K, Time>, id: K, limit: int, now: Time, expiresAt: Time): (map<K, Time>, bool) {
    if id in r then (r[id := expiresAt], true)
    else if |r| < limit then (r[id := expiresAt], true)
    else
      var live := LiveOnly(r, now);
      if |live| < limit then (live[id := expiresAt], true) else (live, false)
  }

  function Release<K>(r: map<K, Time>, id: K): map<K, Time> {
    r - {id}
  }

  function Move<K>(r: map<K, Time>, source: K, target: K, expiresAt: Time): (map<K, Time>, bool) {
    if source in r then ((r - {source})[target := expiresAt], true) else (r, false)
  }

  lemma LiveOnlyShrinks<K>(r: map<K, Time>, now: Time)
    ensures |LiveOnly(r, now)| <= |r|
  {
    SubmapSize(LiveOnly(r, now), r);
  }

  lemma SubmapSize<K, V>(m: map<K, V>, n: map<K, V>)
    requires m.Keys <= n.Keys
    ensures |m| <= |n|
  {
    SubsetSize(m.Keys, n.Keys);
    assert |m| == |m.Keys| && |n| == |n.Keys|;
  }

  lemma {:induction false} SubsetSize<T>(a: set<T>, b: set<T>)
    requires a <= b
    ensures |a| <= |b|
  {
    if a != {} {
      var x :| x in a;
      SubsetSize(a - {x}, b - {x});
    }
  }

  lemma AddKey<K, V>(m: map<K, V>, k: K, v: V)
    ensures |m[k := v]| == if k in m then |m| else |m| + 1
  {
    assert m[k := v].Keys == m.Keys + {k};
    assert |m[k := v].Keys| == |m[k := v]| && |m.Keys| == |m|;
  }

  /** Capacity is never exceeded, whatever is reserved or renewed. */
  lemma ReserveBound<K>(r: map<K, Time>, id: K, limit: int, now: Time, expiresAt: Time)
    requires |r| <= limit
    ensures |Reserve(r, id, limit, now, expiresAt).0| <= limit
  {
    LiveOnlyShrinks(r, now);
    AddKey(r, id, expiresAt);
    AddKey(LiveOnly(r, now), id, expiresAt);
  }

  /** Moving or releasing a reservation never needs more of it. */
  lemma MoveBound<K>(r: map<K, Time>, source: K, target: K, expiresAt: Time)
    ensures |Move(r, source, target, expiresAt).0| <= |r|
    ensures |Release(r, source)| <= |r|
  {
    SubmapSize(Release(r, source), r);
    AddKey(r - {source}, target, expiresAt);
    if source in r {
      assert (r - {source})[source := r[source]] == r;
      AddKey(r - {source}, source, r[source]);
    }
  }
}
