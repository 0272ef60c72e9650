/**
 The in-memory store (store/memory.go). Every method is one critical section under the store's mutex;
 `now` is what the store's clock says in it. Cancelled contexts and a closed store, which make every
 method fail without effect, are left out.
 */
module MemoryStores {
  import opened Basics
  import opened TtlMaps
  import TokenBuckets
  import Reservations
  import Quota
  import Eviction

  newtype byte = x: int | 0 <= x < 256
  type Bytes = seq<byte>

  datatype Status = Ok | NotFound | InvalidTTL | InvalidValue | KeyTooLarge | ValueTooLarge

  /** The entries that readers from `now` on can see, with their deadlines: the store's meaning. */
  function Visible(m: map<string, Entry<Bytes>>, now: Time): map<string, Entry<Bytes>> {
    Purge(m, now)
  }

  function LiveBuckets(m: map<string, TokenBuckets.Bucket>, now: Time): map<string, TokenBuckets.Bucket> {
    map k | k in m && now < m[k].expiresAt :: m[k]
  }

  /**
   What making room for `key` may cost. No entry changes or appears; an entry that readers could see is
   lost only if at least `capacity` were visible, only one is, and none had an earlier deadline.
   */
  ghost predicate LeastLoss(before: map<string, Entry<Bytes>>, after: map<string, Entry<Bytes>>, key: string,
                            now: Time, capacity: nat) {
    && (forall k | k in after && k != key :: k in before && after[k] == before[k])
    && forall k | k in Visible(before, now) && k != key && k !in after ::
         && |Visible(before, now)| >= capacity
         && (forall j | j in Visible(before, now) :: before[k].expiresAt <= before[j].expiresAt)
         && (forall j | j in Visible(before, now) && j != key && j !in after :: j == k)
  }

  /** The same for buckets, whichever of them is lost. */
  ghost predicate OneBucketLoss(before: map<string, TokenBuckets.Bucket>, after: map<string, TokenBuckets.Bucket>,
                                key: string, now: Time, capacity: nat) {
    && (forall k | k in after && k != key :: k in before && after[k] == before[k])
    && forall k | k in LiveBuckets(before, now) && k != key && k !in after ::
         && k != ""
         && |LiveBuckets(before, now)| >= capacity
         && (forall j | j in LiveBuckets(before, now) && j != key && j !in after :: j == k)
  }

  /** And none was used longer ago. */
  ghost predicate LeastBucketLoss(before: map<string, TokenBuckets.Bucket>, after: map<string, TokenBuckets.Bucket>,
                                  key: string, now: Time, capacity: nat) {
    && OneBucketLoss(before, after, key, now, capacity)
    && forall k | k in LiveBuckets(before, now) && k != key && k !in after ::
         forall j | j in LiveBuckets(before, now) :: before[k].updatedAt <= before[j].updatedAt
  }

  function Stamps(m: map<string, TokenBuckets.Bucket>): map<string, Time> {
    map k | k in m :: m[k].updatedAt
  }

  /** What one scan for the oldest bucket, in some order, leaves. */
  ghost predicate Evicted(before: map<string, TokenBuckets.Bucket>, after: map<string, TokenBuckets.Bucket>) {
    exists order :: Eviction.Lists(order, before.Keys)
      && after == Eviction.Without(before, Eviction.Oldest(Stamps(before), order))
  }

  /** The bucket with the empty key is there, and all others were used after it. */
  predicate EmptyKeyIsOldest(m: map<string, TokenBuckets.Bucket>) {
    "" in m && forall k | k in m && k != "" :: m[""].updatedAt < m[k].updatedAt
  }

  /**
   Evicting from the live buckets when they fill the store: one goes, the one used longest ago unless the
   empty key confuses the scan; or none does, and then the empty key was strictly oldest.
   */
  lemma EvictingABucket(before: map<string, TokenBuckets.Bucket>, after: map<string, TokenBuckets.Bucket>,
                        key: string, now: Time, capacity: nat)
    requires Evicted(LiveBuckets(before, now), after)
    requires LiveBuckets(before, now) != map[] && |LiveBuckets(before, now)| >= capacity
    ensures OneBucketLoss(before, after, key, now, capacity)
    ensures "" !in LiveBuckets(before, now) ==> LeastBucketLoss(before, after, key, now, capacity)
    ensures |after| == |LiveBuckets(before, now)| - 1
      || (after == LiveBuckets(before, now) && EmptyKeyIsOldest(LiveBuckets(before, now)))
  {
    var live := LiveBuckets(before, now);
    OneScan(live, after);
    if "" !in live {
      ScanFindsLeast(live, after);
    }
  }

  lemma ScanFindsNone(live: map<string, TokenBuckets.Bucket>, order: seq<string>)
    requires live != map[] && Eviction.Lists(order, live.Keys) && Stamps(live).Keys == live.Keys
    requires Eviction.Oldest(Stamps(live), order) == ""
    ensures EmptyKeyIsOldest(live)
  {
    var some :| some in live;
    assert some in order && some in Stamps(live);
    Eviction.OldestIsNoneIff(Stamps(live), order);
    assert order[|order| - 1] in order;
    forall j | j in live && j != "" ensures live[""].updatedAt < live[j].updatedAt {
      assert Stamps(live)[""] < Stamps(live)[j];
    }
  }

  lemma OneScan(live: map<string, TokenBuckets.Bucket>, after: map<string, TokenBuckets.Bucket>)
    requires Evicted(live, after) && live != map[]
    ensures (after == live && EmptyKeyIsOldest(live))
      || exists k | k in live :: k != "" && after == live - {k} && |after| == |live| - 1
  {
    var order :| Eviction.Lists(order, live.Keys)
      && after == Eviction.Without(live, Eviction.Oldest(Stamps(live), order));
    var k := Eviction.Oldest(Stamps(live), order);
    assert Stamps(live).Keys == live.Keys;
    if k == "" {
      ScanFindsNone(live, order);
    } else {
      assert k in live && (live - {k})[k := live[k]] == live;
      Quota.AddKey(live - {k}, k, live[k]);
    }
  }

  lemma ScanFindsLeast(live: map<string, TokenBuckets.Bucket>, after: map<string, TokenBuckets.Bucket>)
    requires Evicted(live, after) && live != map[] && "" !in live
    ensures forall k | k in live && k !in after :: forall j | j in live :: live[k].updatedAt <= live[j].updatedAt
  {
    var order :| Eviction.Lists(order, live.Keys)
      && after == Eviction.Without(live, Eviction.Oldest(Stamps(live), order));
    var some :| some in live;
    assert some in order;
    Eviction.OldestIsLeast(Stamps(live), order);
    var k := Eviction.Oldest(Stamps(live), order);
    forall j | j in live ensures live[k].updatedAt <= live[j].updatedAt {
      assert j in order && Stamps(live)[k] <= Stamps(live)[j];
    }
  }

  /** Some expired buckets may be gone, and that is all. */
  ghost predicate BucketsKept(before: map<string, TokenBuckets.Bucket>, after: map<string, TokenBuckets.Bucket>,
                              now: Time) {
    && (forall k | k in after :: k in before && after[k] == before[k])
    && (forall k | k in LiveBuckets(before, now) :: k in after)
    && |after| <= |before|
  }

  /** While fewer than `capacity` entries are visible, nothing is lost: the write is a plain update. */
  lemma NoLossBelowCapacity(before: map<string, Entry<Bytes>>, after: map<string, Entry<Bytes>>, key: string,
                            e: Entry<Bytes>, now: Time, capacity: nat)
    requires LeastLoss(before, after, key, now, capacity) && key in after && after[key] == e && now < e.expiresAt
    requires |Visible(before, now)| < capacity
    ensures Visible(after, now) == Visible(before, now)[key := e]
  {
    forall k | k in Visible(before, now) && k != key ensures k in Visible(after, now) {
      assert k in after;
    }
  }

  /** If only visible entries are left and they fill the store, evicting the one that expires first is such a loss. */
  lemma EvictingLosesLeast(before: map<string, Entry<Bytes>>, k: string, key: string, now: Time, capacity: nat)
    requires k in Visible(before, now) && |Visible(before, now)| >= capacity
    requires forall j | j in Visible(before, now) ::
      Visible(before, now)[k].expiresAt <= Visible(before, now)[j].expiresAt
    ensures LeastLoss(before, Visible(before, now) - {k}, key, now, capacity)
    ensures |Visible(before, now) - {k}| == |Visible(before, now)| - 1
  {
    var live := Visible(before, now);
    assert (live - {k})[k := live[k]] == live;
    Quota.AddKey(live - {k}, k, live[k]);
  }

  class MemoryStore {
    const maxEntries: nat
    const maxKeyBytes: nat
    const maxValueBytes: nat
    var entries: map<string, Entry<Bytes>>
    var buckets: map<string, TokenBuckets.Bucket>
    var reservations: map<Reservations.Slot, Time>
    var counts: map<string, int>
    ghost var emptyKeyUsed: bool  // for a bucket

    /**
     Entries have non-empty keys and never outnumber the limit; neither do buckets, as long as no bucket with
     an empty key was ever asked for.
     */
    ghost predicate Valid()
      reads this
    {
      && maxEntries > 0 && "" !in entries && |entries| <= maxEntries
      && (!emptyKeyUsed ==> "" !in buckets && |buckets| <= maxEntries)
    }

    ghost function Table(): Reservations.Table
      reads this
    {
      Reservations.Table(reservations, counts)
    }

    constructor (maxEntries: nat, maxKeyBytes: nat, maxValueBytes: nat)
      requires maxEntries > 0
      ensures Valid() && entries == map[] && buckets == map[] && reservations == map[] && counts == map[]
      ensures !emptyKeyUsed
      ensures this.maxEntries == maxEntries && this.maxKeyBytes == maxKeyBytes && this.maxValueBytes == maxValueBytes
    {
      this.maxEntries, this.maxKeyBytes, this.maxValueBytes := maxEntries, maxKeyBytes, maxValueBytes;
      entries, buckets, reservations, counts := map[], map[], map[], map[];
      emptyKeyUsed := false;
    }

    /** Keys are short and not empty, values are short; an ill key is reported first. */
    function Check(key: string, value: Bytes): (status: Status)
      ensures status == Ok <==> 0 < |key| <= maxKeyBytes && |value| <= maxValueBytes
      ensures status == KeyTooLarge <==> key == "" || |key| > maxKeyBytes
      ensures status == Ok || status == KeyTooLarge || status == ValueTooLarge
    {
      if |key| == 0 || |key| > maxKeyBytes then KeyTooLarge
      else if |value| > maxValueBytes then ValueTooLarge
      else Ok
    }

    // ---- making room --------------------------------------------------------------------------

    method ExpireLocked(now: Time)
      modifies this`entries, this`buckets
      ensures entries == Purge(old(entries), now)
      ensures buckets == LiveBuckets(old(buckets), now)
    {
      ExpireEntries(now);
      ExpireBuckets(now);
    }

    method ExpireEntries(now: Time)
      modifies this`entries
      ensures entries == Purge(old(entries), now)
    {
      var todo := entries.Keys;
      while todo != {}
        invariant todo <= entries.Keys <= old(entries).Keys
        invariant entries
               == map k | k in old(entries) && (k in todo || now < old(entries)[k].expiresAt) :: old(entries)[k]
        decreases |todo|
      {
        var k :| k in todo;
        todo := todo - {k};
        if now >= entries[k].expiresAt {
          entries := entries - {k};
        }
      }
    }

    method ExpireBuckets(now: Time)
      modifies this`buckets
      ensures buckets == LiveBuckets(old(buckets), now)
    {
      var todo := buckets.Keys;
      while todo != {}
        invariant todo <= buckets.Keys <= old(buckets).Keys
        invariant buckets
               == map k | k in old(buckets) && (k in todo || now < old(buckets)[k].expiresAt) :: old(buckets)[k]
        decreases |todo|
      {
        var k :| k in todo;
        todo := todo - {k};
        if now >= buckets[k].expiresAt {
          buckets := buckets - {k};
        }
      }
    }

    /** Removes an entry with the earliest deadline; the empty key stands for "none yet". */
    method EvictOldestEntry()
      requires "" !in entries && entries != map[]
      modifies this`entries
      ensures exists k | k in old(entries) ::
        entries == old(entries) - {k}
        && forall j | j in old(entries) :: old(entries)[k].expiresAt <= old(entries)[j].expiresAt
    {
      var oldestKey, oldestExp := "", 0;
      var todo := entries.Keys;
      while todo != {}
        invariant todo <= entries.Keys && entries == old(entries)
        invariant oldestKey == "" <==> todo == entries.Keys
        invariant oldestKey != "" ==> oldestKey in entries && oldestExp == entries[oldestKey].expiresAt
        invariant forall j | j in entries.Keys - todo :: oldestExp <= entries[j].expiresAt
        decreases |todo|
      {
        var k :| k in todo;
        todo := todo - {k};
        if oldestKey == "" || entries[k].expiresAt < oldestExp {
          oldestKey, oldestExp := k, entries[k].expiresAt;
        }
      }
      if oldestKey != "" {
        entries := entries - {oldestKey};
      }
    }

    /** The same for buckets, by last use; these may have an empty key. */
    method EvictOldestBucket()
      modifies this`buckets
      ensures Evicted(old(buckets), buckets)
    {
      var oldestKey, oldestTime := "", 0;
      var todo := buckets.Keys;
      ghost var order: seq<string> := [];
      while todo != {}
        invariant todo <= buckets.Keys && buckets == old(buckets)
        invariant Eviction.Lists(order, buckets.Keys - todo)
        invariant oldestKey == Eviction.Oldest(Stamps(buckets), order)
        invariant oldestKey != "" ==> oldestTime == buckets[oldestKey].updatedAt
        decreases |todo|
      {
        var k :| k in todo;
        todo := todo - {k};
        Eviction.OldestStep(Stamps(buckets), order, k);
        order := order + [k];
        if oldestKey == "" || buckets[k].updatedAt < oldestTime {
          oldestKey, oldestTime := k, buckets[k].updatedAt;
        }
      }
      if oldestKey != "" {
        buckets := buckets - {oldestKey};
      }
    }

    /** Evict from the entries that are left once the expired ones among `before` are gone. */
    method EvictFor(ghost before: map<string, Entry<Bytes>>, key: string, now: Time)
      requires entries == Visible(before, now) && "" !in entries && |entries| >= maxEntries > 0
      modifies this`entries
      ensures LeastLoss(before, entries, key, now, maxEntries)
      ensures entries.Keys <= old(entries).Keys && |entries| == |old(entries)| - 1
    {
      assert entries != map[];
      EvictOldestEntry();
      ghost var live := old(entries);
      ghost var k :| k in live && entries == live - {k}
        && forall j | j in live :: live[k].expiresAt <= live[j].expiresAt;
      EvictingLosesLeast(before, k, key, now, maxEntries);
    }

    /** Make room for an entry that is not there. */
    method MakeRoom(key: string, now: Time)
      requires Valid() && key != "" && key !in entries
      modifies this`entries, this`buckets
      ensures Valid() && |entries| < maxEntries && key !in entries
      ensures LeastLoss(old(entries), entries, key, now, maxEntries)
      ensures BucketsKept(old(buckets), buckets, now)
    {
      if |entries| >= maxEntries {
        ExpireLocked(now);
        Quota.SubmapSize(entries, old(entries));
        Quota.SubmapSize(buckets, old(buckets));
        if |entries| >= maxEntries {
          EvictFor(old(entries), key, now);
        }
      }
    }

    // ---- entries ------------------------------------------------------------------------------

    /** The first half of `Get`, under the read lock: the answer is decided here. */
    method GetShared(key: string, now: Time) returns (status: Status, value: Bytes, upgrade: bool)
      ensures Lookup(entries, key, now) == if status == Ok then Some(value) else None
      ensures status == Ok || status == NotFound
      ensures upgrade <==> key in entries && now >= entries[key].expiresAt
    {
      if key !in entries {
        return NotFound, [], false;
      }
      if now >= entries[key].expiresAt {
        return NotFound, [], true;
      }
      return Ok, entries[key].value, false;
    }

    /**
     The second half, under the write lock and at a later time: others may have written in between. It
     removes nothing a reader could still see.
     */
    method GetUpgrade(key: string, now: Time)
      requires Valid()
      modifies this`entries
      ensures Valid() && forall later | now <= later :: Visible(entries, later) == Visible(old(entries), later)
      ensures entries == if IsLive(old(entries), key, now) then old(entries) else old(entries) - {key}
    {
      if key in entries && now >= entries[key].expiresAt {
        Quota.SubmapSize(entries - {key}, entries);
        entries := entries - {key};
      }
    }

    method Set(key: string, value: Bytes, ttl: Time, now: Time) returns (status: Status)
      requires Valid()
      modifies this`entries, this`buckets
      ensures Valid()
      ensures status == if ttl <= 0 then InvalidTTL else Check(key, value)
      ensures status != Ok ==> entries == old(entries) && buckets == old(buckets)
      ensures status == Ok ==>
        && key in entries && entries[key] == Entry(value, now + ttl)
        && LeastLoss(old(entries), entries, key, now, maxEntries)
        && (key in old(entries) ==> entries == old(entries)[key := Entry(value, now + ttl)])
      ensures BucketsKept(old(buckets), buckets, now)
    {
      if ttl <= 0 {
        return InvalidTTL;
      }
      status := Check(key, value);
      if status != Ok {
        return;
      }
      if key !in entries {
        MakeRoom(key, now);
      }
      Quota.AddKey(entries, key, Entry(value, now + ttl));
      entries := entries[key := Entry(value, now + ttl)];
    }

    method Delete(key: string, now: Time)
      requires Valid()
      modifies this`entries
      ensures Valid() && Visible(entries, now) == Visible(old(entries), now) - {key}
    {
      Quota.SubmapSize(entries - {key}, entries);
      entries := entries - {key};
    }

    method GetDel(key: string, now: Time) returns (status: Status, value: Bytes)
      requires Valid()
      modifies this`entries
      ensures Valid() && Visible(entries, now) == Visible(old(entries), now) - {key}
      ensures Lookup(old(entries), key, now) == if status == Ok then Some(value) else None
      ensures status == Ok || status == NotFound
    {
      if key !in entries {
        return NotFound, [];
      }
      var ent := entries[key];
      Quota.SubmapSize(entries - {key}, entries);
      entries := entries - {key};
      if now >= ent.expiresAt {
        return NotFound, [];
      }
      return Ok, ent.value;
    }

    /** Writes exactly when no reader could see the key. */
    method SetNX(key: string, value: Bytes, ttl: Time, now: Time) returns (status: Status, written: bool)
      requires Valid()
      modifies this`entries, this`buckets
      ensures Valid()
      ensures status == if ttl <= 0 then InvalidTTL else Check(key, value)
      ensures written <==> status == Ok && key !in Visible(old(entries), now)
      ensures !written ==> entries == old(entries) && buckets == old(buckets)
      ensures BucketsKept(old(buckets), buckets, now)
      ensures written ==>
        && key in entries && entries[key] == Entry(value, now + ttl)
        && LeastLoss(old(entries), entries, key, now, maxEntries)
    {
      if ttl <= 0 {
        return InvalidTTL, false;
      }
      status := Check(key, value);
      if status != Ok {
        return status, false;
      }
      if key in entries {
        if now < entries[key].expiresAt {
          return Ok, false;
        }
        Quota.SubmapSize(entries - {key}, entries);
        entries := entries - {key};
      }
      ghost var without := entries;
      assert Visible(without, now) == Visible(old(entries), now);
      MakeRoom(key, now);
      Quota.AddKey(entries, key, Entry(value, now + ttl));
      entries := entries[key := Entry(value, now + ttl)];
      return Ok, true;
    }

    /** Deletes exactly what the caller expects to be there. */
    method CompareAndDelete(key: string, expected: Bytes, now: Time) returns (deleted: bool)
      requires Valid()
      modifies this`entries
      ensures Valid()
      ensures deleted <==> Lookup(old(entries), key, now) == Some(expected)
      ensures Visible(entries, now)
           == if deleted then Visible(old(entries), now) - {key} else Visible(old(entries), now)
    {
      if key !in entries {
        return false;
      }
      if now >= entries[key].expiresAt {
        Quota.SubmapSize(entries - {key}, entries);
        entries := entries - {key};
        return false;
      }
      if entries[key].value != expected {
        return false;
      }
      Quota.SubmapSize(entries - {key}, entries);
      entries := entries - {key};
      return true;
    }

    /** Extends exactly what the caller expects to be there. */
    method CompareAndTouch(key: string, expected: Bytes, ttl: Time, now: Time) returns (status: Status, touched: bool)
      requires Valid()
      modifies this`entries
      ensures Valid()
      ensures status == if ttl <= 0 then InvalidTTL else Ok
      ensures touched <==> ttl > 0 && Lookup(old(entries), key, now) == Some(expected)
      ensures entries == if touched then old(entries)[key := Entry(expected, now + ttl)] else old(entries)
    {
      if ttl <= 0 {
        return InvalidTTL, false;
      }
      if key !in entries || now >= entries[key].expiresAt || entries[key].value != expected {
        return Ok, false;
      }
      Quota.AddKey(entries, key, Entry(expected, now + ttl));
      entries := entries[key := Entry(expected, now + ttl)];
      return Ok, true;
    }

    method Touch(key: string, ttl: Time, now: Time) returns (status: Status)
      requires Valid()
      modifies this`entries
      ensures Valid()
      ensures status == if ttl <= 0 then InvalidTTL else if IsLive(old(entries), key, now) then Ok else NotFound
      ensures Visible(entries, now) == if status == Ok
        then Visible(old(entries), now)[key := Entry(old(entries)[key].value, now + ttl)]
        else Visible(old(entries), now)
    {
      if ttl <= 0 {
        return InvalidTTL;
      }
      if key !in entries {
        return NotFound;
      }
      if now >= entries[key].expiresAt {
        Quota.SubmapSize(entries - {key}, entries);
        entries := entries - {key};
        return NotFound;
      }
      Quota.AddKey(entries, key, Entry(entries[key].value, now + ttl));
      entries := entries[key := Entry(entries[key].value, now + ttl)];
      return Ok;
    }

    // ---- reservations -------------------------------------------------------------------------

    /** Drops the expired keys of a namespace, and counts the others afresh. */
    method CountReservations(ns: string, now: Time) returns (count: nat)
      modifies this`reservations, this`counts
      ensures reservations == Reservations.Scanned(old(reservations), ns, now)
      ensures count == |Reservations.InNamespace(reservations, ns)|
      ensures counts == old(counts)[ns := count]
    {
      count := 0;
      ghost var start := reservations;
      var todo := reservations.Keys;
      Reservations.ScanEnds(start, ns, now);
      while todo != {}
        invariant todo <= start.Keys && counts == old(counts)
        invariant reservations == Reservations.ScanLeft(start, todo, ns, now)
        invariant count == |Reservations.Counted(start, todo, ns, now)|
        decreases |todo|
      {
        var k :| k in todo;
        Reservations.ScanStep(start, todo, k, ns, now);
        todo := todo - {k};
        if k.namespace == ns {
          if now >= reservations[k] {
            reservations := reservations - {k};
          } else {
            count := count + 1;
          }
        }
      }
      counts := counts[ns := count];
    }

    method ReserveSession(k: Reservations.Slot, limit: int, now: Time, expiresAt: Time)
      returns (status: Status, ok: bool)
      modifies this`reservations, this`counts
      ensures status == if k.namespace == "" || k.id == "" || limit <= 0 then InvalidValue else Ok
      ensures if status == Ok then (Table(), ok) == Reservations.Reserve(old(Table()), k, limit, now, expiresAt)
              else Table() == old(Table()) && !ok
    {
      if k.namespace == "" || k.id == "" || limit <= 0 {
        return InvalidValue, false;
      }
      if k !in reservations {
        var cached := if k.namespace in counts then counts[k.namespace] else 0;
        if cached >= limit {
          cached := CountReservations(k.namespace, now);
          if cached >= limit {
            return Ok, false;
          }
        }
        assert old(counts)[k.namespace := cached][k.namespace := cached + 1] == old(counts)[k.namespace := cached + 1];
        counts := counts[k.namespace := cached + 1];
      }
      reservations := reservations[k := expiresAt];
      return Ok, true;
    }

    method ReleaseSession(k: Reservations.Slot)
      modifies this`reservations, this`counts
      ensures Table() == Reservations.Release(old(Table()), k)
    {
      if k in reservations {
        reservations := reservations - {k};
        if k.namespace in counts && counts[k.namespace] > 0 {
          counts := counts[k.namespace := counts[k.namespace] - 1];
        }
      }
    }

    method MoveSessionReservation(source: Reservations.Slot, target: Reservations.Slot, expiresAt: Time)
      returns (status: Status)
      modifies this`reservations
      ensures (Table(), status == Ok) == Reservations.Move(old(Table()), source, target, expiresAt)
      ensures status == Ok || status == NotFound
    {
      if source !in reservations {
        return NotFound;
      }
      reservations := reservations - {source};
      reservations := reservations[target := expiresAt];
      return Ok;
    }

    method PurgeReservations(now: Time)
      modifies this`reservations, this`counts
      ensures Table() == Reservations.Purged(old(Table()), now)
    {
      ghost var start := Table();
      ghost var order: seq<Reservations.Slot> := [];
      var todo := reservations.Keys;
      while todo != {}
        invariant todo <= start.expiries.Keys
        invariant forall k :: k in order <==> k in start.expiries.Keys - todo
        invariant forall i, j | 0 <= i < j < |order| :: order[i] != order[j]
        invariant Table() == Reservations.PurgeKeys(start, order, now)
        decreases |todo|
      {
        var k :| k in todo;
        Reservations.OneMoreKey(start, order, k, now);
        order := order + [k];
        todo := todo - {k};
        if now >= reservations[k] {
          reservations := reservations - {k};
          if k.namespace in counts && counts[k.namespace] > 0 {
            counts := counts[k.namespace := counts[k.namespace] - 1];
          }
        }
      }
      Reservations.PurgeKeysEnds(start, order, now);
    }

    // ---- token buckets ------------------------------------------------------------------------

    function BucketOf(key: string): Option<TokenBuckets.Bucket>
      reads this
    {
      if key in buckets then Some(buckets[key]) else None
    }

    /** One call of the rate limiter; `wait` is in seconds. */
    method ConsumeToken(key: string, rule: TokenBuckets.Rule, cost: int, now: Time)
      returns (status: Status, allowed: bool, wait: int)
      requires Valid()
      modifies this`entries, this`buckets, this`emptyKeyUsed
      ensures Valid() && Visible(entries, now) == Visible(old(entries), now)
      ensures status == if rule.Valid() && cost > 0 then Ok else InvalidValue
      ensures status != Ok ==> buckets == old(buckets) && entries == old(entries) && !allowed
      ensures status == Ok ==>
        && key in buckets
        && (buckets[key], allowed) == TokenBuckets.Consume(rule, old(BucketOf(key)), cost, now)
        && wait == (if allowed then 0 else TokenBuckets.WaitSeconds(rule, buckets[key].tokens, cost))
      ensures emptyKeyUsed == (old(emptyKeyUsed) || (status == Ok && key == ""))
      ensures OneBucketLoss(old(buckets), buckets, key, now, maxEntries)
      ensures "" !in LiveBuckets(old(buckets), now) ==> LeastBucketLoss(old(buckets), buckets, key, now, maxEntries)
      ensures |buckets| <= maxEntries || |buckets| <= |old(buckets)| || EmptyKeyIsOldest(LiveBuckets(old(buckets), now))
    {
      if rule.rate <= 0.0 || rule.burst <= 0 || cost <= 0 || rule.ttl <= 0 {
        return InvalidValue, false, 0;
      }
      if key == "" {
        emptyKeyUsed := true;
      }
      var found := BucketOf(key);
      if key !in buckets {
        MakeBucketRoom(key, now);
      }
      var b: TokenBuckets.Bucket;
      status := Ok;
      b, allowed, wait := Take(found, rule, cost, now);
      Quota.AddKey(buckets, key, b);
      buckets := buckets[key := b];
    }

    /** Refill what was found and take the tokens, or say how long to wait. */
    static method Take(found: Option<TokenBuckets.Bucket>, rule: TokenBuckets.Rule, cost: int, now: Time)
      returns (b: TokenBuckets.Bucket, allowed: bool, wait: int)
      requires rule.Valid()
      ensures (b, allowed) == TokenBuckets.Consume(rule, found, cost, now)
      ensures wait == if allowed then 0 else TokenBuckets.WaitSeconds(rule, b.tokens, cost)
    {
      if found.None? || now >= found.value.expiresAt {
        b := TokenBuckets.Bucket(rule.burst as real, now, now + rule.ttl);
      } else {
        b := found.value;
        var elapsed := now - b.updatedAt;
        if elapsed > 0 {
          var refilled := TokenBuckets.Min(rule.burst as real, b.tokens + TokenBuckets.Gain(rule.rate, elapsed));
          b := b.(tokens := refilled, updatedAt := now);
        }
        b := b.(expiresAt := now + rule.ttl);
      }
      allowed, wait := b.tokens >= cost as real, 0;
      if allowed {
        b := b.(tokens := b.tokens - cost as real);
      } else {
        wait := TokenBuckets.WaitSeconds(rule, b.tokens, cost);
      }
    }

    /** Make room for a bucket that is not there. */
    method MakeBucketRoom(key: string, now: Time)
      requires maxEntries > 0 && "" !in entries && |entries| <= maxEntries && key !in buckets
      modifies this`entries, this`buckets
      ensures key !in buckets && |buckets| <= |old(buckets)|
      ensures |entries| <= |old(entries)| && "" !in entries && Visible(entries, now) == Visible(old(entries), now)
      ensures OneBucketLoss(old(buckets), buckets, key, now, maxEntries)
      ensures "" !in LiveBuckets(old(buckets), now) ==> LeastBucketLoss(old(buckets), buckets, key, now, maxEntries)
      ensures |buckets| < maxEntries || |buckets| < |old(buckets)| || EmptyKeyIsOldest(LiveBuckets(old(buckets), now))
    {
      if |buckets| >= maxEntries {
        Quota.SubmapSize(Purge(entries, now), entries);
        Quota.SubmapSize(LiveBuckets(buckets, now), buckets);
        ExpireLocked(now);
        if |buckets| >= maxEntries {
          EvictBucketFor(old(buckets), key, now);
        }
      }
    }

    /** Evict from the buckets that are left once the expired ones among `before` are gone. */
    method EvictBucketFor(ghost before: map<string, TokenBuckets.Bucket>, key: string, now: Time)
      requires buckets == LiveBuckets(before, now) && |buckets| >= maxEntries > 0
      modifies this`buckets
      ensures buckets.Keys <= old(buckets).Keys
      ensures OneBucketLoss(before, buckets, key, now, maxEntries)
      ensures "" !in old(buckets) ==> LeastBucketLoss(before, buckets, key, now, maxEntries)
      ensures |buckets| == |old(buckets)| - 1 || (buckets == old(buckets) && EmptyKeyIsOldest(old(buckets)))
    {
      assert buckets != map[];
      EvictOldestBucket();
      EvictingABucket(before, buckets, key, now, maxEntries);
    }

    // ---- the janitor --------------------------------------------------------------------------

    /** A sweep changes nothing that any reader, caller or reservation can see from then on. */
    method Janitor(now: Time)
      requires Valid()
      modifies this
      ensures Valid()
      ensures forall later | now <= later :: Visible(entries, later) == Visible(old(entries), later)
      ensures entries == Visible(entries, now) && buckets == LiveBuckets(buckets, now)
      ensures forall k | k in reservations :: now < reservations[k]
      ensures forall key :: BucketOf(key) == TokenBuckets.Swept(old(BucketOf(key)), now)
      ensures Table() == Reservations.Purged(old(Table()), now)
    {
      Quota.SubmapSize(Purge(entries, now), entries);
      Quota.SubmapSize(LiveBuckets(buckets, now), buckets);
      ExpireLocked(now);
      PurgeReservations(now);
      forall later | now <= later ensures Visible(entries, later) == Visible(old(entries), later) {
        PurgeIsInvisible(old(entries), now, later);
      }
    }
  }

  /**
   A bucket with an empty key can make the buckets outnumber the limit: in a store with one place it is never
   evicted for another.
   */
  method EmptyKeyOverflows(rule: TokenBuckets.Rule, now: Time, maxKeyBytes: nat, maxValueBytes: nat)
    returns (store: MemoryStore)
    requires rule.Valid()
    ensures fresh(store) && store.Valid() && store.maxEntries == 1 < |store.buckets|
  {
    store := new MemoryStore(1, maxKeyBytes, maxValueBytes);
    var status, allowed, wait := store.ConsumeToken("", rule, 1, now);
    assert "" in LiveBuckets(store.buckets, now);
    status, allowed, wait := store.ConsumeToken("a", rule, 1, now);
    assert {"", "a"} <= store.buckets.Keys;
    Quota.SubsetSize({"", "a"}, store.buckets.Keys);
  }
}
