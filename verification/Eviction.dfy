/**
 How the memory store chooses what to evict (store/memory.go, `evictOldestEntryLocked` and
 `evictOldestBucketLocked`): one scan over a map, in an order nobody controls, that remembers the key with
 the earliest time and takes the empty key for "none yet".
 */
module Eviction {
  import opened Basics

  /** `order` names each of `keys` once. */
  ghost predicate Lists(order: seq<string>, keys: set<string>) {
    && (forall k :: k in order <==> k in keys)
    && (forall i, j | 0 <= i < j < |order| :: order[i] != order[j])
  }

  /** What the scan has found after `order`. */
  function Oldest(times: map<string, Time>, order: seq<string>): (key: string)
    requires forall k | k in order :: k in times
    ensures key == "" || key in order
  {
    if order == [] then ""
    else
      var (earlier, k) := (Oldest(times, order[..|order| - 1]), order[|order| - 1]);
      if earlier == "" || times[k] < times[earlier] then k else earlier
  }

  /** The map once the key found is deleted, if any was. */
  function Without<V>(m: map<string, V>, key: string): map<string, V> {
    if key == "" then m else m - {key}
  }

  /** Among proper keys the scan finds one with the earliest time. */
  lemma {:induction false} OldestIsLeast(times: map<string, Time>, order: seq<string>)
    requires order != [] && "" !in order && forall k | k in order :: k in times
    ensures Oldest(times, order) in order
    ensures forall k | k in order :: times[Oldest(times, order)] <= times[k]
  {
    var rest := order[..|order| - 1];
    assert order == rest + [order[|order| - 1]];
    if rest != [] {
      OldestIsLeast(times, rest);
    }
  }

  /** It comes to nothing if and only if it ends with the empty key, and every other key is strictly younger. */
  lemma OldestIsNoneIff(times: map<string, Time>, order: seq<string>)
    requires order != [] && Lists(order, times.Keys)
    ensures Oldest(times, order) == "" <==>
      order[|order| - 1] == "" && forall k | k in times && k != "" :: times[""] < times[k]
  {
    var (rest, last) := (order[..|order| - 1], order[|order| - 1]);
    assert order == rest + [last];
    if last == "" && rest != [] {
      OldestIsLeast(times, rest);
    }
  }

  lemma {:induction false} SomeOrder(keys: set<string>) returns (order: seq<string>)
    ensures Lists(order, keys)
  {
    if keys == {} {
      order := [];
    } else {
      var k :| k in keys;
      var rest := SomeOrder(keys - {k});
      order := rest + [k];
    }
  }

  /** There is an order in which nothing is evicted exactly when the empty key is there and strictly oldest. */
  lemma EvictionCanFailIff(times: map<string, Time>)
    requires times != map[]
    ensures (exists order :: Lists(order, times.Keys) && Oldest(times, order) == "")
       <==> "" in times && forall k | k in times && k != "" :: times[""] < times[k]
  {
    if "" in times && forall k | k in times && k != "" :: times[""] < times[k] {
      var others := SomeOrder(times.Keys - {""});
      var order := others + [""];
      assert Lists(order, times.Keys);
      OldestIsNoneIff(times, order);
    }
    forall order | Lists(order, times.Keys) && Oldest(times, order) == ""
      ensures "" in times && forall k | k in times && k != "" :: times[""] < times[k]
    {
      var k :| k in times;
      assert k in order;
      OldestIsNoneIff(times, order);
      assert order[|order| - 1] in order;
    }
  }

  /** One more key in the order. */
  lemma OldestStep(times: map<string, Time>, order: seq<string>, k: string)
    requires k in times && forall j | j in order :: j in times
    ensures var earlier := Oldest(times, order);
      Oldest(times, order + [k]) == if earlier == "" || times[k] < times[earlier] then k else earlier
  {
    assert (order + [k])[..|order|] == order;
  }
}
