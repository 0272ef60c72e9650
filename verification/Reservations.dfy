/**
 Session reservations (store/memory.go): keys per namespace, with a cached count that lets most calls
 skip a scan; against the eagerly purging Redis scripts (store/redis.go, `luaReserveSession`,
 `luaMoveSessionReservation`). A key is a namespace and an id, which the source joins with a NUL byte.
 */
module Reservations {
  import opened Basics
  import Quota

  datatype Slot = Slot(namespace: string, id: string)

  datatype Table = Table(expiries: map<Slot, Time>, counts: map<string, int>)

  function Count(t: Table, ns: string): int {
    if ns in t.counts then t.counts[ns] else 0
  }

  function InNamespace(r: map<Slot, Time>, ns: string): map<Slot, Time> {
    map k | k in r && k.namespace == ns :: r[k]
  }

  /** Drop the expired keys of one namespace. */
  function Scanned(r: map<Slot, Time>, ns: string, now: Time): map<Slot, Time> {
    map k | k in r && (k.namespace == ns ==> now < r[k]) :: r[k]
  }

  // ---- the memory store ------------------------------------------------------------------------

  /** `ReserveSession`: the count is recomputed only when the cached one says the namespace is full. */
  function Reserve(t: Table, k: Slot, limit: int, now: Time, expiresAt: Time): (Table, bool) {
    var ns := k.namespace;
    if k in t.expiries then (t.(expiries := t.expiries[k := expiresAt]), true)
    else if Count(t, ns) < limit then
      (Table(t.expiries[k := expiresAt], t.counts[ns := Count(t, ns) + 1]), true)
    else
      var left := Scanned(t.expiries, ns, now);
      var n := |InNamespace(left, ns)|;
      if n < limit then (Table(left[k := expiresAt], t.counts[ns := n + 1]), true)
      else (Table(left, t.counts[ns := n]), false)
  }

  function Release(t: Table, k: Slot): Table {
    if k !in t.expiries then t
    else
      var n := Count(t, k.namespace);
      Table(t.expiries - {k}, if n > 0 then t.counts[k.namespace := n - 1] else t.counts)
  }

  /** `MoveSessionReservation`: the count stays, even if `target` was reserved already. */
  function Move(t: Table, source: Slot, target: Slot, expiresAt: Time): (Table, bool) {
    if source !in t.expiries then (t, false)
    else (t.(expiries := (t.expiries - {source})[target := expiresAt]), true)
  }

  /** The janitor drops every expired key, and takes one off the count of its namespace if it can. */
  function Purged(t: Table, now: Time): Table {
    Table(Quota.LiveOnly(t.expiries, now), CountsAfter(t, Quota.LiveOnly(t.expiries, now)))
  }

  /** The counts once only the keys of `left` remain. */
  function CountsAfter(t: Table, left: map<Slot, Time>): map<string, int> {
    map ns | ns in t.counts :: CountAfter(t, left, ns)
  }

  function CountAfter(t: Table, left: map<Slot, Time>, ns: string): int {
    Less(Count(t, ns), |InNamespace(t.expiries, ns)| - |InNamespace(left, ns)|)
  }

  /** `count` less `n`, but never pushed below zero. */
  function Less(count: int, n: int): int {
    if count <= 0 then count else if n >= count then 0 else if n <= 0 then count else count - n
  }

  /** The unexpired reservations of one namespace. */
  function LiveIn(r: map<Slot, Time>, ns: string, now: Time): map<Slot, Time> {
    InNamespace(Quota.LiveOnly(r, now), ns)
  }

  // ---- the Redis scripts -----------------------------------------------------------------------

  function ScriptReserve(z: map<Slot, Time>, k: Slot, limit: int, now: Time, expiresAt: Time): (map<Slot, Time>, bool) {
    var left := Scanned(z, k.namespace, now);
    if k in left then (left[k := expiresAt], true)
    else if |InNamespace(left, k.namespace)| >= limit then (left, false)
    else (left[k := expiresAt], true)
  }

  function ScriptMove(z: map<Slot, Time>, source: Slot, target: Slot, expiresAt: Time): (map<Slot, Time>, bool) {
    if source !in z then (z, false) else ((z - {source})[target := expiresAt], true)
  }

  // ---- the cached count ------------------------------------------------------------------------

  /** The count never falls behind the keys, nor exceeds the limit. */
  predicate CountOK(t: Table, ns: string, limit: int) {
    |InNamespace(t.expiries, ns)| <= Count(t, ns) <= limit
  }

  ghost predicate TableOK(t: Table, limits: string -> int) {
    forall ns :: limits(ns) > 0 ==> CountOK(t, ns, limits(ns))
  }

  lemma AddToNamespace(r: map<Slot, Time>, k: Slot, e: Time, ns: string)
    ensures |InNamespace(r[k := e], ns)| == |InNamespace(r, ns)| + if k.namespace == ns && k !in r then 1 else 0
  {
    if k.namespace == ns {
      assert InNamespace(r[k := e], ns) == InNamespace(r, ns)[k := e];
      Quota.AddKey(InNamespace(r, ns), k, e);
    } else {
      assert InNamespace(r[k := e], ns) == InNamespace(r, ns);
    }
  }

  lemma RemoveFromNamespace(r: map<Slot, Time>, k: Slot, ns: string)
    requires k in r
    ensures |InNamespace(r - {k}, ns)| == |InNamespace(r, ns)| - if k.namespace == ns then 1 else 0
  {
    assert (r - {k})[k := r[k]] == r;
    AddToNamespace(r - {k}, k, r[k], ns);
  }

  lemma ScanShrinks(r: map<Slot, Time>, ns: string, now: Time, any: string)
    ensures |InNamespace(Scanned(r, ns, now), any)| <= |InNamespace(r, any)|
    ensures any != ns ==> InNamespace(Scanned(r, ns, now), any) == InNamespace(r, any)
  {
    Quota.SubmapSize(InNamespace(Scanned(r, ns, now), any), InNamespace(r, any));
  }

  lemma ReserveKeepsCount(t: Table, k: Slot, limit: int, now: Time, expiresAt: Time, ns: string, bound: int)
    requires CountOK(t, ns, bound) && (k.namespace == ns ==> limit == bound)
    ensures CountOK(Reserve(t, k, limit, now, expiresAt).0, ns, bound)
  {
    AddToNamespace(t.expiries, k, expiresAt, ns);
    AddToNamespace(Scanned(t.expiries, k.namespace, now), k, expiresAt, ns);
    ScanShrinks(t.expiries, k.namespace, now, ns);
  }

  lemma ReleaseKeepsCount(t: Table, k: Slot, ns: string, bound: int)
    requires CountOK(t, ns, bound)
    ensures CountOK(Release(t, k), ns, bound)
  {
    if k in t.expiries {
      RemoveFromNamespace(t.expiries, k, ns);
    }
  }

  lemma MoveKeepsCount(t: Table, source: Slot, target: Slot, expiresAt: Time, ns: string, bound: int)
    requires CountOK(t, ns, bound) && source.namespace == target.namespace
    ensures CountOK(Move(t, source, target, expiresAt).0, ns, bound)
  {
    if source in t.expiries {
      RemoveFromNamespace(t.expiries, source, ns);
      AddToNamespace(t.expiries - {source}, target, expiresAt, ns);
    }
  }

  /** The count is exact, unless a move lands on an id that has a reservation. */
  lemma MoveKeepsExactIff(t: Table, source: Slot, target: Slot, expiresAt: Time)
    requires source in t.expiries && source.namespace == target.namespace
    requires Count(t, source.namespace) == |InNamespace(t.expiries, source.namespace)|
    ensures var after := Move(t, source, target, expiresAt).0;
      (Count(after, source.namespace) == |InNamespace(after.expiries, source.namespace)|)
      <==> (target !in t.expiries || target == source)
  {
    RemoveFromNamespace(t.expiries, source, source.namespace);
    AddToNamespace(t.expiries - {source}, target, expiresAt, source.namespace);
  }

  // ---- when a reservation succeeds -------------------------------------------------------------

  lemma ScanLeavesLive(r: map<Slot, Time>, ns: string, now: Time)
    ensures InNamespace(Scanned(r, ns, now), ns) == LiveIn(r, ns, now)
    ensures Quota.LiveOnly(Scanned(r, ns, now), now) == Quota.LiveOnly(r, now)
  {
  }

  lemma LiveIsFewer(r: map<Slot, Time>, k: Slot, now: Time)
    ensures |LiveIn(r, k.namespace, now)| <= |InNamespace(r, k.namespace)|
    ensures k in r && now >= r[k] ==> |LiveIn(r, k.namespace, now)| < |InNamespace(r, k.namespace)|
  {
    Quota.SubmapSize(LiveIn(r, k.namespace, now), InNamespace(r, k.namespace));
    if k in r && now >= r[k] {
      Quota.SubmapSize(LiveIn(r, k.namespace, now), InNamespace(r - {k}, k.namespace));
      RemoveFromNamespace(r, k, k.namespace);
    }
  }

  /**
   A reservation succeeds exactly when the id holds one that is live or fewer than `limit` are live,
   however stale the count and whatever expired keys linger; and it changes the live ones accordingly.
   */
  lemma ReserveByLive(t: Table, k: Slot, limit: int, now: Time, expiresAt: Time)
    requires CountOK(t, k.namespace, limit)
    ensures var (after, ok) := Reserve(t, k, limit, now, expiresAt);
      && (ok <==> (k in t.expiries && now < t.expiries[k]) || |LiveIn(t.expiries, k.namespace, now)| < limit)
      && Quota.LiveOnly(after.expiries, now)
           == Quota.LiveOnly(if ok then t.expiries[k := expiresAt] else t.expiries, now)
  {
    LiveIsFewer(t.expiries, k, now);
    ScanLeavesLive(t.expiries, k.namespace, now);
    var left := Scanned(t.expiries, k.namespace, now);
    assert Quota.LiveOnly(left[k := expiresAt], now) == Quota.LiveOnly(t.expiries[k := expiresAt], now);
  }

  /** The script decides by the same rule. */
  lemma ScriptReserveByLive(z: map<Slot, Time>, k: Slot, limit: int, now: Time, expiresAt: Time)
    ensures var (after, ok) := ScriptReserve(z, k, limit, now, expiresAt);
      && (ok <==> (k in z && now < z[k]) || |LiveIn(z, k.namespace, now)| < limit)
      && Quota.LiveOnly(after, now) == Quota.LiveOnly(if ok then z[k := expiresAt] else z, now)
  {
    ScanLeavesLive(z, k.namespace, now);
    var left := Scanned(z, k.namespace, now);
    assert Quota.LiveOnly(left[k := expiresAt], now) == Quota.LiveOnly(z[k := expiresAt], now);
  }

  lemma PurgeKeepsCount(t: Table, now: Time, ns: string, limit: int)
    requires CountOK(t, ns, limit)
    ensures CountOK(Purged(t, now), ns, limit)
  {
    Quota.SubmapSize(LiveIn(t.expiries, ns, now), InNamespace(t.expiries, ns));
    assert Count(Purged(t, now), ns)
        == if ns in t.counts then CountAfter(t, Quota.LiveOnly(t.expiries, now), ns) else 0;
  }

  lemma CountAfterDrop(t: Table, left: map<Slot, Time>, k: Slot, ns: string)
    requires left.Keys <= t.expiries.Keys && k in left
    ensures CountAfter(t, left - {k}, ns)
         == CountAfter(t, left, ns) - if k.namespace == ns && CountAfter(t, left, ns) > 0 then 1 else 0
  {
    RemoveFromNamespace(left, k, ns);
    var (some, all) := (InNamespace(left, ns), InNamespace(t.expiries, ns));
    assert |some| <= |all| by {
      Quota.SubsetSize(some.Keys, all.Keys);
    }
  }

  /** Take one off the count of a namespace, down to zero. */
  function OneLess(counts: map<string, int>, ns: string): map<string, int> {
    if ns in counts && counts[ns] > 0 then counts[ns := counts[ns] - 1] else counts
  }

  /** Dropping one more key does that to its namespace. */
  lemma DropOneCounts(t: Table, left: map<Slot, Time>, k: Slot)
    requires left.Keys <= t.expiries.Keys && k in left
    ensures CountsAfter(t, left - {k}) == OneLess(CountsAfter(t, left), k.namespace)
  {
    forall ns | ns in t.counts
      ensures CountsAfter(t, left - {k})[ns] == OneLess(CountsAfter(t, left), k.namespace)[ns]
    {
      CountAfterDrop(t, left, k, ns);
    }
  }

  // ---- scans in progress -----------------------------------------------------------------------

  /** What a purge has left while the keys of `todo` are still to be looked at. */
  function PurgeLeft(r: map<Slot, Time>, todo: set<Slot>, now: Time): map<Slot, Time> {
    map k | k in r && (k in todo || now < r[k]) :: r[k]
  }

  lemma PurgeStep(r: map<Slot, Time>, todo: set<Slot>, k: Slot, now: Time)
    requires k in todo && k in r
    ensures k in PurgeLeft(r, todo, now) && PurgeLeft(r, todo, now)[k] == r[k]
    ensures PurgeLeft(r, todo - {k}, now)
         == if now >= r[k] then PurgeLeft(r, todo, now) - {k} else PurgeLeft(r, todo, now)
    ensures PurgeLeft(r, todo, now).Keys <= r.Keys
  {
  }

  /** Keys and counts at that point. */
  function PurgedBut(t: Table, todo: set<Slot>, now: Time): Table {
    Table(PurgeLeft(t.expiries, todo, now), CountsAfter(t, PurgeLeft(t.expiries, todo, now)))
  }

  lemma PurgeOne(t: Table, todo: set<Slot>, k: Slot, now: Time)
    requires k in todo && k in t.expiries
    ensures var was := PurgedBut(t, todo, now);
      && k in was.expiries && was.expiries[k] == t.expiries[k]
      && PurgedBut(t, todo - {k}, now)
           == if now >= t.expiries[k] then Table(was.expiries - {k}, OneLess(was.counts, k.namespace)) else was
  {
    PurgeStep(t.expiries, todo, k, now);
    if now >= t.expiries[k] {
      DropOneCounts(t, PurgeLeft(t.expiries, todo, now), k);
    }
  }

  /** What the loop does to one key, and to the keys of `order` one after the other. */
  function PurgeKey(t: Table, k: Slot, now: Time): Table {
    if k in t.expiries && now >= t.expiries[k] then Table(t.expiries - {k}, OneLess(t.counts, k.namespace)) else t
  }

  function PurgeKeys(t: Table, order: seq<Slot>, now: Time): Table {
    if order == [] then t
    else PurgeKey(PurgeKeys(t, order[..|order| - 1], now), order[|order| - 1], now)
  }

  lemma {:induction false} PurgeKeysIs(t: Table, order: seq<Slot>, now: Time)
    requires forall k | k in order :: k in t.expiries
    requires forall i, j | 0 <= i < j < |order| :: order[i] != order[j]
    ensures PurgeKeys(t, order, now) == PurgedBut(t, t.expiries.Keys - (set k | k in order), now)
  {
    if order == [] {
      PurgeStarts(t, now);
      assert t.expiries.Keys - (set k | k in order) == t.expiries.Keys;
    } else {
      var (rest, k) := (order[..|order| - 1], order[|order| - 1]);
      assert order == rest + [k];
      PurgeKeysIs(t, rest, now);
      var todo := t.expiries.Keys - (set j | j in rest);
      assert t.expiries.Keys - (set j | j in order) == todo - {k};
      PurgeOne(t, todo, k, now);
    }
  }

  /** In whatever order the keys come. */
  lemma PurgeKeysEnds(t: Table, order: seq<Slot>, now: Time)
    requires forall k :: k in order <==> k in t.expiries
    requires forall i, j | 0 <= i < j < |order| :: order[i] != order[j]
    ensures PurgeKeys(t, order, now) == Purged(t, now)
  {
    PurgeKeysIs(t, order, now);
    assert t.expiries.Keys - (set k | k in order) == {};
    PurgeEnds(t, now);
  }

  lemma OneMoreKey(t: Table, order: seq<Slot>, k: Slot, now: Time)
    requires forall j | j in order :: j in t.expiries
    requires forall i, j | 0 <= i < j < |order| :: order[i] != order[j]
    requires k in t.expiries && k !in order
    ensures k in PurgeKeys(t, order, now).expiries
    ensures PurgeKeys(t, order + [k], now) == PurgeKey(PurgeKeys(t, order, now), k, now)
  {
    assert (order + [k])[..|order|] == order;
    PurgeKeysIs(t, order, now);
    PurgeOne(t, t.expiries.Keys - (set j | j in order), k, now);
  }

  lemma PurgeStarts(t: Table, now: Time)
    ensures PurgedBut(t, t.expiries.Keys, now) == t
  {
    assert PurgeLeft(t.expiries, t.expiries.Keys, now) == t.expiries;
    assert CountsAfter(t, t.expiries) == t.counts;
  }

  lemma PurgeEnds(t: Table, now: Time)
    ensures PurgedBut(t, {}, now) == Purged(t, now)
  {
    assert PurgeLeft(t.expiries, {}, now) == Quota.LiveOnly(t.expiries, now);
  }

  /** The same for a scan of one namespace, and the keys it has counted. */
  function ScanLeft(r: map<Slot, Time>, todo: set<Slot>, ns: string, now: Time): map<Slot, Time> {
    map k | k in r && (k in todo || (k.namespace == ns ==> now < r[k])) :: r[k]
  }

  function Counted(r: map<Slot, Time>, todo: set<Slot>, ns: string, now: Time): map<Slot, Time> {
    map k | k in r && k !in todo && k.namespace == ns && now < r[k] :: r[k]
  }

  lemma ScanStep(r: map<Slot, Time>, todo: set<Slot>, k: Slot, ns: string, now: Time)
    requires k in todo && k in r
    ensures k in ScanLeft(r, todo, ns, now) && ScanLeft(r, todo, ns, now)[k] == r[k]
    ensures ScanLeft(r, todo - {k}, ns, now)
         == if k.namespace == ns && now >= r[k] then ScanLeft(r, todo, ns, now) - {k} else ScanLeft(r, todo, ns, now)
    ensures |Counted(r, todo - {k}, ns, now)|
         == |Counted(r, todo, ns, now)| + if k.namespace == ns && now < r[k] then 1 else 0
  {
    if k.namespace == ns && now < r[k] {
      assert Counted(r, todo - {k}, ns, now) == Counted(r, todo, ns, now)[k := r[k]];
      Quota.AddKey(Counted(r, todo, ns, now), k, r[k]);
    } else {
      assert Counted(r, todo - {k}, ns, now) == Counted(r, todo, ns, now);
    }
  }

  lemma ScanEnds(r: map<Slot, Time>, ns: string, now: Time)
    ensures ScanLeft(r, r.Keys, ns, now) == r && Counted(r, r.Keys, ns, now) == map[]
    ensures ScanLeft(r, {}, ns, now) == Scanned(r, ns, now)
    ensures Counted(r, {}, ns, now) == InNamespace(Scanned(r, ns, now), ns)
  {
  }

  // ---- one namespace, seen by the engine -------------------------------------------------------

  predicate Exact(t: Table, ns: string) {
    Count(t, ns) == |InNamespace(t.expiries, ns)|
  }

  /** While the count is exact, reserving is what `Quota` says of the namespace's keys; and it stays exact. */
  lemma ReserveIsQuota(t: Table, k: Slot, limit: int, now: Time, expiresAt: Time)
    requires Exact(t, k.namespace)
    ensures var (after, ok) := Reserve(t, k, limit, now, expiresAt);
      && (InNamespace(after.expiries, k.namespace), ok)
           == Quota.Reserve(InNamespace(t.expiries, k.namespace), k, limit, now, expiresAt)
      && Exact(after, k.namespace)
  {
    var (ns, left) := (k.namespace, Scanned(t.expiries, k.namespace, now));
    InNamespaceAfterWrite(t.expiries, k, expiresAt);
    InNamespaceAfterWrite(left, k, expiresAt);
    assert InNamespace(left, ns) == Quota.LiveOnly(InNamespace(t.expiries, ns), now);
    assert k !in t.expiries ==> k !in left;
    AddToNamespace(t.expiries, k, expiresAt, ns);
    AddToNamespace(left, k, expiresAt, ns);
  }

  lemma InNamespaceAfterWrite(r: map<Slot, Time>, k: Slot, e: Time)
    ensures InNamespace(r[k := e], k.namespace) == InNamespace(r, k.namespace)[k := e]
  {
  }

  lemma ReleaseIsQuota(t: Table, k: Slot)
    requires Exact(t, k.namespace)
    ensures InNamespace(Release(t, k).expiries, k.namespace) == Quota.Release(InNamespace(t.expiries, k.namespace), k)
    ensures Exact(Release(t, k), k.namespace)
  {
    if k in t.expiries {
      RemoveFromNamespace(t.expiries, k, k.namespace);
    }
  }

  /** Moving to an id without a reservation keeps the count exact; `Legality.SuccessorsAreUnreserved` says that
      rotations do no other. */
  lemma MoveIsQuota(t: Table, source: Slot, target: Slot, expiresAt: Time)
    requires Exact(t, source.namespace) && source.namespace == target.namespace && target !in t.expiries
    ensures var (after, ok) := Move(t, source, target, expiresAt);
      && (InNamespace(after.expiries, source.namespace), ok)
           == Quota.Move(InNamespace(t.expiries, source.namespace), source, target, expiresAt)
      && Exact(after, source.namespace)
  {
    if source in t.expiries {
      InNamespaceAfterWrite(t.expiries - {source}, target, expiresAt);
      assert InNamespace(t.expiries - {source}, source.namespace)
          == InNamespace(t.expiries, source.namespace) - {source};
      MoveKeepsExactIff(t, source, target, expiresAt);
    }
  }

  lemma PurgeIsQuota(t: Table, now: Time, ns: string)
    requires Exact(t, ns)
    ensures InNamespace(Purged(t, now).expiries, ns) == Quota.LiveOnly(InNamespace(t.expiries, ns), now)
    ensures Exact(Purged(t, now), ns)
  {
    var live := LiveIn(t.expiries, ns, now);
    Quota.SubmapSize(live, InNamespace(t.expiries, ns));
    assert Count(Purged(t, now), ns)
        == if ns in t.counts then CountAfter(t, Quota.LiveOnly(t.expiries, now), ns) else 0;
  }

  // ---- runs ------------------------------------------------------------------------------------

  datatype Op =
    | ReserveOp(k: Slot, expiresAt: Time)
    | ReleaseOp(k: Slot)
    | MoveOp(source: Slot, target: Slot, expiresAt: Time)
    | JanitorOp

  datatype Timed = Timed(op: Op, at: Time)

  /** The memory store; limits are fixed per namespace. */
  function Step(t: Table, limits: string -> int, e: Timed): (Table, bool) {
    match e.op
    case ReserveOp(k, expiresAt) => Reserve(t, k, limits(k.namespace), e.at, expiresAt)
    case ReleaseOp(k) => (Release(t, k), true)
    case MoveOp(source, target, expiresAt) => Move(t, source, target, expiresAt)
    case JanitorOp => (Purged(t, e.at), true)
  }

  /** Redis; it has no janitor. */
  function ScriptStep(z: map<Slot, Time>, limits: string -> int, e: Timed): (map<Slot, Time>, bool) {
    match e.op
    case ReserveOp(k, expiresAt) => ScriptReserve(z, k, limits(k.namespace), e.at, expiresAt)
    case ReleaseOp(k) => (z - {k}, true)
    case MoveOp(source, target, expiresAt) => ScriptMove(z, source, target, expiresAt)
    case JanitorOp => (z, true)
  }

  function Answers(t: Table, limits: string -> int, ops: seq<Timed>): seq<bool>
    decreases |ops|
  {
    if ops == [] then [] else [Step(t, limits, ops[0]).1] + Answers(Step(t, limits, ops[0]).0, limits, ops[1..])
  }

  function ScriptAnswers(z: map<Slot, Time>, limits: string -> int, ops: seq<Timed>): seq<bool>
    decreases |ops|
  {
    if ops == [] then []
    else [ScriptStep(z, limits, ops[0]).1] + ScriptAnswers(ScriptStep(z, limits, ops[0]).0, limits, ops[1..])
  }

  /** A clock that does not go back, and moves within a namespace of reservations that are live. */
  predicate Orderly(t: Table, limits: string -> int, ops: seq<Timed>, from: Time)
    decreases |ops|
  {
    ops == [] ||
      (&& from <= ops[0].at
       && (ops[0].op.MoveOp? ==>
             && ops[0].op.source in t.expiries && ops[0].at < t.expiries[ops[0].op.source]
             && ops[0].op.source.namespace == ops[0].op.target.namespace)
       && (ops[0].op.ReserveOp? ==> limits(ops[0].op.k.namespace) > 0)
       && Orderly(Step(t, limits, ops[0]).0, limits, ops[1..], ops[0].at))
  }

  lemma StepKeepsTable(t: Table, limits: string -> int, e: Timed)
    requires TableOK(t, limits)
    requires e.op.MoveOp? ==> e.op.source.namespace == e.op.target.namespace
    ensures TableOK(Step(t, limits, e).0, limits)
  {
    forall ns | limits(ns) > 0 ensures CountOK(Step(t, limits, e).0, ns, limits(ns)) {
      match e.op
      case ReserveOp(k, expiresAt) => ReserveKeepsCount(t, k, limits(k.namespace), e.at, expiresAt, ns, limits(ns));
      case ReleaseOp(k) => ReleaseKeepsCount(t, k, ns, limits(ns));
      case MoveOp(source, target, expiresAt) => MoveKeepsCount(t, source, target, expiresAt, ns, limits(ns));
      case JanitorOp => PurgeKeepsCount(t, e.at, ns, limits(ns));
    }
  }

  /** One step keeps the two stores' live reservations equal, and their answers. */
  lemma StepAgrees(t: Table, z: map<Slot, Time>, limits: string -> int, e: Timed)
    requires TableOK(t, limits) && Quota.LiveOnly(t.expiries, e.at) == Quota.LiveOnly(z, e.at)
    requires Orderly(t, limits, [e], e.at)
    ensures Step(t, limits, e).1 == ScriptStep(z, limits, e).1
    ensures Quota.LiveOnly(Step(t, limits, e).0.expiries, e.at) == Quota.LiveOnly(ScriptStep(z, limits, e).0, e.at)
  {
    var (a, b) := (Quota.LiveOnly(t.expiries, e.at), Quota.LiveOnly(z, e.at));
    match e.op
    case ReserveOp(k, expiresAt) =>
      assert k in a <==> k in b;
      ReserveByLive(t, k, limits(k.namespace), e.at, expiresAt);
      ScriptReserveByLive(z, k, limits(k.namespace), e.at, expiresAt);
      LiveAfterWrite(t.expiries, z, k, expiresAt, e.at);
    case ReleaseOp(k) =>
      LiveAfterRemoval(t.expiries, k, e.at);
      LiveAfterRemoval(z, k, e.at);
    case MoveOp(source, target, expiresAt) =>
      assert source in a && source in b;
      LiveAfterRemoval(t.expiries, source, e.at);
      LiveAfterRemoval(z, source, e.at);
      LiveAfterWrite(t.expiries - {source}, z - {source}, target, expiresAt, e.at);
    case JanitorOp =>
      assert Quota.LiveOnly(a, e.at) == a;
  }

  lemma LiveAfterRemoval(r: map<Slot, Time>, k: Slot, now: Time)
    ensures Quota.LiveOnly(r - {k}, now) == Quota.LiveOnly(r, now) - {k}
    ensures k !in r ==> r - {k} == r
  {
  }

  lemma LiveAfterWrite(r: map<Slot, Time>, z: map<Slot, Time>, k: Slot, e: Time, now: Time)
    requires Quota.LiveOnly(r, now) == Quota.LiveOnly(z, now)
    ensures Quota.LiveOnly(r[k := e], now) == Quota.LiveOnly(z[k := e], now)
  {
    LiveAfterWriteIs(r, k, e, now);
    LiveAfterWriteIs(z, k, e, now);
  }

  lemma LiveAfterWriteIs(r: map<Slot, Time>, k: Slot, e: Time, now: Time)
    ensures Quota.LiveOnly(r[k := e], now)
         == if now < e then Quota.LiveOnly(r, now)[k := e] else Quota.LiveOnly(r, now) - {k}
  {
  }

  lemma LiveLater(r: map<Slot, Time>, z: map<Slot, Time>, early: Time, late: Time)
    requires early <= late && Quota.LiveOnly(r, early) == Quota.LiveOnly(z, early)
    ensures Quota.LiveOnly(r, late) == Quota.LiveOnly(z, late)
  {
    assert Quota.LiveOnly(r, late) == Quota.LiveOnly(Quota.LiveOnly(r, early), late);
    assert Quota.LiveOnly(z, late) == Quota.LiveOnly(Quota.LiveOnly(z, early), late);
  }

  /**
   The two stores answer every orderly sequence of calls alike, for all namespaces at once, however the
   janitor of one is interleaved.
   */
  lemma {:induction false} StoresAgree(t: Table, z: map<Slot, Time>, limits: string -> int, ops: seq<Timed>, from: Time)
    requires TableOK(t, limits) && Orderly(t, limits, ops, from)
    requires Quota.LiveOnly(t.expiries, from) == Quota.LiveOnly(z, from)
    ensures Answers(t, limits, ops) == ScriptAnswers(z, limits, ops)
    decreases |ops|
  {
    if ops != [] {
      var e := ops[0];
      LiveLater(t.expiries, z, from, e.at);
      StepAgrees(t, z, limits, e);
      StepKeepsTable(t, limits, e);
      StoresAgree(Step(t, limits, e).0, ScriptStep(z, limits, e).0, limits, ops[1..], e.at);
    }
  }

  // ---- keys ------------------------------------------------------------------------------------

  const NUL: char := '\0'

  /** `reservationKey`: how the source encodes a slot. */
  function Key(k: Slot): string {
    k.namespace + [NUL] + k.id
  }

  /** Scanning by the prefix of a namespace finds its slots and no others, if neither name holds a NUL. */
  lemma PrefixMeansNamespace(k: Slot, ns: string)
    requires NUL !in k.namespace && NUL !in ns
    ensures ns + [NUL] <= Key(k) <==> k.namespace == ns
  {
    var (prefix, key) := (ns + [NUL], Key(k));
    if prefix <= key {
      assert forall i | 0 <= i <= |ns| :: key[i] == prefix[i];
      assert forall i | 0 <= i < |k.namespace| :: key[i] == k.namespace[i];
      assert key[|ns|] == NUL && key[|k.namespace|] == NUL;
      assert |k.namespace| == |ns|;
      assert forall i | 0 <= i < |ns| :: k.namespace[i] == key[i] == ns[i];
    }
  }

  /** So the encoding loses nothing. */
  lemma KeysAreDistinct(a: Slot, b: Slot)
    requires NUL !in a.namespace && NUL !in b.namespace && Key(a) == Key(b)
    ensures a == b
  {
    assert a.namespace + [NUL] <= Key(b);
    PrefixMeansNamespace(b, a.namespace);
    assert a.id == Key(a)[|a.namespace| + 1..];
    assert b.id == Key(b)[|b.namespace| + 1..];
  }
}
